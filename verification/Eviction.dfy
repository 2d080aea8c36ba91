/** Trimming the conversation in the middle of a turn: the budget, the eviction of old tool results and
    the recovery from an overflowed window (agent/ollama_code/core.py). */
module Eviction {
  import opened Numbers
  import opened Conversation

  const EVICTABLE_MIN_CHARS := 200
  const RESERVED_REPLY_TOKENS := 4096
  const STUB_HEAD := "[Old "
  const STUB_TAIL := " output dropped to fit the context window. Call the tool again if you still need it.]"

  /** What the request is measured against: the window in use (0 when unknown), the tokens of tool
      schemas and extension prompt, and the most a reply may take. */
  datatype Window = Window(limit: int, schemas: nat, extensions: nat, outputCap: nat)

  /** A conversation with the grounded tallies: tokens of the last call, the number of messages then,
      and the last measured prompt. */
  datatype Load = Load(messages: seq<Message>, lastCall: nat, atLastCall: nat, measured: nat)

  function ContentChars(ms: seq<Message>): nat
  {
    if ms == [] then 0 else ContentChars(ms[..|ms| - 1]) + |ms[|ms| - 1].content|
  }

  function OtherChars(ms: seq<Message>): nat
  {
    if ms == [] then 0
    else OtherChars(ms[..|ms| - 1]) + if ms[|ms| - 1].Assistant? then ms[|ms| - 1].weight else 0
  }

  function ImageTokens(ms: seq<Message>): nat
  {
    if ms == [] then 0
    else ImageTokens(ms[..|ms| - 1]) + if ms[|ms| - 1].User? then ms[|ms| - 1].images else 0
  }

  function ApproxTokens(ms: seq<Message>): nat
  {
    (ContentChars(ms) + OtherChars(ms)) / 4 + ImageTokens(ms)
  }

  function ReplyRoom(w: Window, headroom: nat): int { Min(w.outputCap, w.limit / 4) + headroom }

  /** Three quarters of what schemas, prompt and reply leave of the window, never negative. */
  function BudgetTokens(w: Window, headroom: nat): nat
  {
    var room := w.limit - w.schemas - w.extensions - ReplyRoom(w, headroom);
    if w.limit <= 0 || room <= 0 then 0 else 3 * room / 4
  }

  function Since(ms: seq<Message>, at: nat): seq<Message>
  {
    if at <= |ms| then ms[at..] else []
  }

  /** The next request likely overflows the window. */
  predicate OverBudget(w: Window, l: Load, headroom: nat)
  {
    w.limit > 0
    && (var budget := BudgetTokens(w, headroom);
        || budget <= 0 || ApproxTokens(l.messages) >= budget
        || (l.lastCall > 0
            && l.lastCall + ContentChars(Since(l.messages, l.atLastCall)) / 4 >= w.limit - ReplyRoom(w, headroom)))
  }

  /** What messages cost adds up. */
  lemma {:induction false} CostsAdd(a: seq<Message>, b: seq<Message>)
    ensures ContentChars(a + b) == ContentChars(a) + ContentChars(b) && OtherChars(a + b) == OtherChars(a) + OtherChars(b)
    ensures ImageTokens(a + b) == ImageTokens(a) + ImageTokens(b)
    decreases |b|
  {
    if b == [] {
      assert a + b == a;
    } else {
      assert (a + b)[..|a + b| - 1] == a + b[..|b| - 1];
      CostsAdd(a, b[..|b| - 1]);
    }
  }

  /** A message costs its characters, reasoning and call arguments included, at four to a token, and its images. */
  lemma CostOfOne(m: Message)
    ensures ApproxTokens([]) == 0 && ContentChars([m]) == |m.content|
    ensures ApproxTokens([m]) ==
            match m
            case System(content) => |content| / 4
            case User(content, images, _) => |content| / 4 + images
            case Assistant(content, _, weight) => (|content| + weight) / 4
            case Tool(_, _, content) => |content| / 4
    ensures OtherChars([m]) == (if m.Assistant? then m.weight else 0) && ImageTokens([m]) == (if m.User? then m.images else 0)
  {
    assert [m][..0] == [];
  }

  /** A request is within the budget exactly when what is estimated fits with a third to spare beside the schemas,
      the prompt, the reply and the headroom, and what was measured fits beside the reply and the headroom. */
  lemma WithinBudgetIff(w: Window, l: Load, headroom: nat)
    ensures !OverBudget(w, l, headroom) <==>
            || w.limit <= 0
            || (var reply := if w.outputCap < w.limit / 4 then w.outputCap else w.limit / 4;
                var appended := if l.atLastCall <= |l.messages| then ContentChars(l.messages[l.atLastCall..]) else 0;
                && 4 * (ApproxTokens(l.messages) + 1) <= 3 * (w.limit - w.schemas - w.extensions - reply - headroom)
                && (l.lastCall == 0 || l.lastCall + appended / 4 + reply + headroom < w.limit))
  {
    hide ApproxTokens;
    NoContent();
  }

  lemma NoContent()
    ensures ContentChars([]) == 0
  {
  }

  // ----- What may be evicted -----

  predicate Evictable(m: Message) { m.Tool? && |m.content| > EVICTABLE_MIN_CHARS }

  lemma LongResults(m: Message)
    ensures Evictable(m) <==> m.Tool? && |m.content| >= 201
  {
  }

  /** Index of the last assistant message, or the length when there is none. */
  function LastAssistant(ms: seq<Message>): nat
  {
    LastAssistantBefore(ms, |ms|)
  }

  function LastAssistantBefore(ms: seq<Message>, n: nat): (r: nat)
    requires n <= |ms|
    ensures r == |ms| || (r < n && ms[r].Assistant?)
    ensures forall k :: 0 <= k < n && ms[k].Assistant? ==> k <= r < n
  {
    if n == 0 then |ms| else if ms[n - 1].Assistant? then n - 1 else LastAssistantBefore(ms, n - 1)
  }

  ghost predicate Ascending(s: seq<nat>) { forall a, b :: 0 <= a < b < |s| ==> s[a] < s[b] }

  /** The evictable tool results with index from `lo` below `hi`, oldest first. */
  function Candidates(ms: seq<Message>, lo: nat, hi: nat): (r: seq<nat>)
    requires hi <= |ms|
    ensures forall a :: 0 <= a < |r| ==> lo <= r[a] < hi && Evictable(ms[r[a]])
    ensures Ascending(r)
  {
    if hi <= lo then []
    else Candidates(ms, lo, hi - 1) + if Evictable(ms[hi - 1]) then [hi - 1] else []
  }

  lemma CandidatesMember(ms: seq<Message>, lo: nat, hi: nat, i: int)
    requires hi <= |ms|
    ensures i in Candidates(ms, lo, hi) <==> lo <= i < hi && Evictable(ms[i])
  {
    if hi > lo { CandidatesMember(ms, lo, hi - 1, i); }
  }

  function DropLast(s: seq<nat>): seq<nat> { if s == [] then s else s[..|s| - 1] }

  /** Results before the last assistant message, then those after it; the newest of these only as a
      last resort. */
  function EvictionOrder(ms: seq<Message>, allowNewest: bool): seq<nat>
  {
    Candidates(ms, 0, LastAssistant(ms)) + EvictableBatch(ms, allowNewest)
  }

  /** Result `i` is the newest evictable one of the batch the model has not seen yet. */
  predicate NewestOfBatch(ms: seq<Message>, i: nat)
    requires i < |ms|
  {
    LastAssistant(ms) < i && Evictable(ms[i]) && forall k :: i < k < |ms| ==> !Evictable(ms[k])
  }

  lemma DropLastMembers(s: seq<nat>, i: nat)
    requires Ascending(s)
    ensures i in DropLast(s) <==> i in s && i != s[|s| - 1]
  {
    if i in s {
      var a :| 0 <= a < |s| && s[a] == i;
      if a < |s| - 1 { assert DropLast(s)[a] == i; }
    }
  }

  lemma DropLastSubset(s: seq<nat>, i: int)
    ensures i in DropLast(s) ==> i in s
  {
  }

  lemma NewestIsLastCandidate(ms: seq<Message>, i: nat)
    requires i < |ms|
    ensures var batch := Candidates(ms, LastAssistant(ms) + 1, |ms|);
            NewestOfBatch(ms, i) <==> i in batch && i == batch[|batch| - 1]
  {
    var lo := LastAssistant(ms) + 1;
    var batch := Candidates(ms, lo, |ms|);
    forall k ensures k in batch <==> lo <= k < |ms| && Evictable(ms[k]) { CandidatesMember(ms, lo, |ms|, k); }
  }

  ghost predicate MayEvict(ms: seq<Message>, allowNewest: bool, i: int)
  {
    0 <= i < |ms| && Evictable(ms[i]) && (allowNewest || !NewestOfBatch(ms, i))
  }

  lemma InConcat(a: seq<nat>, b: seq<nat>, i: int)
    ensures i in a + b <==> i in a || i in b
  {
  }

  function EvictableBatch(ms: seq<Message>, allowNewest: bool): seq<nat>
  {
    var batch := Candidates(ms, LastAssistant(ms) + 1, |ms|);
    if allowNewest then batch else DropLast(batch)
  }

  lemma EvictableBatchMember(ms: seq<Message>, allowNewest: bool, i: int)
    ensures i in EvictableBatch(ms, allowNewest) <==> LastAssistant(ms) < i && MayEvict(ms, allowNewest, i)
  {
    var lo := LastAssistant(ms) + 1;
    var batch := Candidates(ms, lo, |ms|);
    CandidatesMember(ms, lo, |ms|, i);
    if i in batch {
      hide Candidates, DropLast, NewestOfBatch, LastAssistant;
      DropLastMembers(batch, i);
      NewestIsLastCandidate(ms, i);
    } else {
      DropLastSubset(batch, i);
    }
  }

  lemma EvictionOrderMember(ms: seq<Message>, allowNewest: bool, i: int)
    ensures i in EvictionOrder(ms, allowNewest) <==> MayEvict(ms, allowNewest, i)
  {
    var last := LastAssistant(ms);
    var older, batch := Candidates(ms, 0, last), EvictableBatch(ms, allowNewest);
    CandidatesMember(ms, 0, last, i);
    EvictableBatchMember(ms, allowNewest, i);
    InConcat(older, batch, i);
    hide Candidates, EvictableBatch;
    assert EvictionOrder(ms, allowNewest) == older + batch;
  }

  /** The eviction order is oldest first and lists every evictable result, except that the newest of
      the unseen batch is spared unless allowed. */
  lemma EvictionOrderMeaning(ms: seq<Message>, allowNewest: bool)
    ensures Ascending(EvictionOrder(ms, allowNewest))
    ensures forall i :: i in EvictionOrder(ms, allowNewest) <==> MayEvict(ms, allowNewest, i)
  {
    EvictionOrderAscends(ms, allowNewest);
    hide *;
    forall i ensures i in EvictionOrder(ms, allowNewest) <==> MayEvict(ms, allowNewest, i) {
      EvictionOrderMember(ms, allowNewest, i);
    }
  }

  lemma EvictionOrderAscends(ms: seq<Message>, allowNewest: bool)
    ensures Ascending(EvictionOrder(ms, allowNewest))
  {
    hide Evictable, LastAssistantBefore;
    var last := LastAssistant(ms);
    var older, batch := Candidates(ms, 0, last), Candidates(ms, last + 1, |ms|);
  }

  // ----- Evicting -----

  function StubText(name: string): string { STUB_HEAD + (if name == "" then "tool" else name) + STUB_TAIL }

  function Stubbed(m: Message): Message
    requires m.Tool?
  {
    Tool(m.name, m.callId, StubText(m.name))
  }

  function Less(a: nat, b: nat): nat { if a < b then 0 else a - b }

  /** Stubs one result; the tallies shrink by what was dropped, at four characters a token. */
  function Shed(l: Load, i: nat): Load
    requires i < |l.messages| && l.messages[i].Tool?
  {
    var m := l.messages[i];
    var dropped := |m.content| / 4;
    l.(messages := l.messages[i := Stubbed(m)],
       lastCall := Less(l.lastCall, dropped), measured := Less(l.measured, dropped))
  }

  /** What a stub says; a result without a name is one of a tool. */
  lemma StubSays(name: string)
    ensures name != "" ==>
              StubText(name) == "[Old " + name + " output dropped to fit the context window. Call the tool again if you still need it.]"
    ensures StubText("") == StubText("tool")
  {
  }

  predicate Sheddable(ms: seq<Message>, order: seq<nat>)
  {
    forall a :: 0 <= a < |order| ==> order[a] < |ms| && ms[order[a]].Tool?
  }

  /** The load after the first `n` results of the order are stubbed. */
  function ShedFirst(l: Load, order: seq<nat>, n: nat): (r: Load)
    requires n <= |order| && Sheddable(l.messages, order)
    ensures Sheddable(r.messages, order) && SameButResults(l.messages, r.messages) && r.atLastCall == l.atLastCall
  {
    if n == 0 then l else Shed(ShedFirst(l, order, n - 1), order[n - 1])
  }

  lemma PrefixGrows(order: seq<nat>, n: nat, i: nat)
    requires 0 < n <= |order| && Ascending(order)
    ensures i in order[..n] <==> i in order[..n - 1] || i == order[n - 1]
    ensures order[n - 1] !in order[..n - 1]
  {
    assert order[..n] == order[..n - 1] + [order[n - 1]];
  }

  lemma ShedStep(l: Load, order: seq<nat>, n: nat)
    requires 0 < n <= |order| && Sheddable(l.messages, order)
    ensures var before, last := ShedFirst(l, order, n - 1).messages, order[n - 1];
            && |before| == |l.messages| && last < |before| && before[last].Tool?
            && ShedFirst(l, order, n).messages == before[last := Stubbed(before[last])]
  {
    hide StubText;
  }

  /** Message `i` is a stub when it is among the results listed first, and unchanged otherwise. */
  lemma {:induction false} ShedAt(l: Load, order: seq<nat>, n: nat, i: nat)
    requires n <= |order| && Sheddable(l.messages, order) && Ascending(order) && i < |l.messages|
    ensures var r := ShedFirst(l, order, n);
            && |r.messages| == |l.messages|
            && (i !in order[..n] ==> r.messages[i] == l.messages[i])
            && (i in order[..n] ==> l.messages[i].Tool? && r.messages[i] == Stubbed(l.messages[i]))
  {
    if n > 0 {
      hide ShedFirst, Ascending, Sheddable, StubText;
      ShedAt(l, order, n - 1, i);
      PrefixGrows(order, n, i);
      ShedStep(l, order, n);
    }
  }

  /** Of the results listed first exactly those are stubs, and nothing else has changed. */
  lemma ShedFirstChanges(l: Load, order: seq<nat>, n: nat)
    requires n <= |order| && Sheddable(l.messages, order) && Ascending(order)
    ensures var r := ShedFirst(l, order, n);
            && |r.messages| == |l.messages|
            && (forall i :: 0 <= i < |l.messages| && i !in order[..n] ==> r.messages[i] == l.messages[i])
            && (forall a :: 0 <= a < n ==>
                  l.messages[order[a]].Tool? && r.messages[order[a]] == Stubbed(l.messages[order[a]]))
  {
    hide ShedFirst, StubText;
    var r := ShedFirst(l, order, n);
    forall i | 0 <= i < |l.messages| && i !in order[..n] ensures r.messages[i] == l.messages[i] { ShedAt(l, order, n, i); }
    forall a | 0 <= a < n
      ensures l.messages[order[a]].Tool? && r.messages[order[a]] == Stubbed(l.messages[order[a]])
    {
      assert order[..n][a] == order[a];
      ShedAt(l, order, n, order[a]);
    }
  }

  /** Tokens of a message at four characters each. */
  function Tokens(m: Message): nat { |m.content| / 4 }

  /** The tokens of the results listed first. */
  function DroppedTokens(ms: seq<Message>, order: seq<nat>, n: nat): nat
    requires n <= |order| && Sheddable(ms, order)
  {
    if n == 0 then 0 else DroppedTokens(ms, order, n - 1) + Tokens(ms[order[n - 1]])
  }

  predicate GivesUp(before: nat, after: nat, dropped: nat) { after == if before <= dropped then 0 else before - dropped }

  /** The tallies give up what was dropped, and stop at zero. */
  predicate TalliesGiveUp(before: Load, after: Load, dropped: nat)
  {
    GivesUp(before.lastCall, after.lastCall, dropped) && GivesUp(before.measured, after.measured, dropped)
  }

  lemma ShedTallies(l: Load, i: nat)
    requires i < |l.messages| && l.messages[i].Tool?
    ensures TalliesGiveUp(l, Shed(l, i), Tokens(l.messages[i]))
  {
    hide StubText;
  }

  lemma GiveUpTwice(a: Load, b: Load, c: Load, x: nat, y: nat)
    requires TalliesGiveUp(a, b, x) && TalliesGiveUp(b, c, y)
    ensures TalliesGiveUp(a, c, x + y)
  {
  }

  lemma {:induction false} TalliesFollow(l: Load, order: seq<nat>, n: nat)
    requires n <= |order| && Sheddable(l.messages, order) && Ascending(order)
    ensures TalliesGiveUp(l, ShedFirst(l, order, n), DroppedTokens(l.messages, order, n))
  {
    if n == 0 {
      NothingDropped(l, order);
    } else {
      TalliesFollow(l, order, n - 1);
      NextTally(l, order, n);
      hide *;
      GiveUpTwice(l, ShedFirst(l, order, n - 1), ShedFirst(l, order, n), DroppedTokens(l.messages, order, n - 1),
                  DroppedTokens(l.messages, order, n) - DroppedTokens(l.messages, order, n - 1));
    }
  }

  lemma NothingDropped(l: Load, order: seq<nat>)
    requires Sheddable(l.messages, order)
    ensures TalliesGiveUp(l, ShedFirst(l, order, 0), DroppedTokens(l.messages, order, 0))
  {
  }

  lemma NextTally(l: Load, order: seq<nat>, n: nat)
    requires 0 < n <= |order| && Sheddable(l.messages, order) && Ascending(order)
    ensures var dropped := DroppedTokens(l.messages, order, n) - DroppedTokens(l.messages, order, n - 1);
            dropped >= 0 && TalliesGiveUp(ShedFirst(l, order, n - 1), ShedFirst(l, order, n), dropped)
  {
    hide Shed, ShedFirst, Ascending, TalliesGiveUp, Tokens, Stubbed, SameButResults, DroppedTokens;
    DroppedStep(l.messages, order, n);
    NextIsUntouched(l, order, n - 1);
    ShedNext(l, order, n - 1);
    hide Sheddable;
    ShedTallies(ShedFirst(l, order, n - 1), order[n - 1]);
  }

  lemma DroppedStep(ms: seq<Message>, order: seq<nat>, n: nat)
    requires 0 < n <= |order| && Sheddable(ms, order)
    ensures DroppedTokens(ms, order, n) == DroppedTokens(ms, order, n - 1) + Tokens(ms[order[n - 1]])
  {
    hide Tokens;
  }

  /** `n` is the shortest prefix of the order that brings the request under budget, or all of it. */
  ghost predicate Minimal(w: Window, l: Load, order: seq<nat>, headroom: nat, n: nat)
    requires Sheddable(l.messages, order)
  {
    && n <= |order|
    && (forall k :: 0 <= k < n ==> OverBudget(w, ShedFirst(l, order, k), headroom))
    && (n < |order| ==> !OverBudget(w, ShedFirst(l, order, n), headroom))
  }

  lemma OrderIsSheddable(ms: seq<Message>, allowNewest: bool)
    ensures Sheddable(ms, EvictionOrder(ms, allowNewest))
  {
    hide EvictionOrder, NewestOfBatch;
    EvictionOrderMeaning(ms, allowNewest);
    var order := EvictionOrder(ms, allowNewest);
    forall a | 0 <= a < |order| ensures order[a] < |ms| && ms[order[a]].Tool? { assert order[a] in order; }
  }

  ghost predicate NamesAreShort(ms: seq<Message>) { forall i :: 0 <= i < |ms| && ms[i].Tool? ==> |ms[i].name| <= 110 }

  lemma StubIsNotEvictable(name: string)
    requires |name| <= 110
    ensures |StubText(name)| <= EVICTABLE_MIN_CHARS
  {
    assert |STUB_HEAD| == 5 && |STUB_TAIL| == 85;
  }

  lemma LastAssistantStays(ms: seq<Message>, ns: seq<Message>, n: nat)
    requires SameButResults(ms, ns) && n <= |ms|
    ensures LastAssistantBefore(ms, n) == LastAssistantBefore(ns, n)
  {
  }

  /** After everything evictable is stubbed, a message is as it was or too short to be evicted. */
  lemma StubbedOrKept(l: Load, order: seq<nat>, allowNewest: bool, k: nat)
    requires NamesAreShort(l.messages) && Ascending(order) && Sheddable(l.messages, order) && k < |l.messages|
    requires forall i :: i in order <==> MayEvict(l.messages, allowNewest, i)
    ensures var r := ShedFirst(l, order, |order|).messages;
            |r| == |l.messages| &&
            (if MayEvict(l.messages, allowNewest, k) then !Evictable(r[k]) else r[k] == l.messages[k])
  {
    ShedAt(l, order, |order|, k);
    assert order[..|order|] == order;
    hide ShedFirst, StubText, Ascending, Sheddable;
    if MayEvict(l.messages, allowNewest, k) { StubIsNotEvictable(l.messages[k].name); }
  }

  lemma StubsStay(l: Load, order: seq<nat>, allowNewest: bool, i: int)
    requires NamesAreShort(l.messages) && Ascending(order) && Sheddable(l.messages, order)
    requires forall k :: k in order <==> MayEvict(l.messages, allowNewest, k)
    ensures !MayEvict(ShedFirst(l, order, |order|).messages, allowNewest, i)
  {
    var r := ShedFirst(l, order, |order|).messages;
    LastAssistantStays(l.messages, r, |l.messages|);
    hide ShedFirst, Ascending, Sheddable, NamesAreShort, SameButResults, LastAssistant;
    forall k | 0 <= k < |l.messages|
      ensures |r| == |l.messages|
      ensures if MayEvict(l.messages, allowNewest, k) then !Evictable(r[k]) else r[k] == l.messages[k]
    {
      StubbedOrKept(l, order, allowNewest, k);
    }
  }

  /** Running eviction again finds nothing to do: what was stubbed is never stubbed again. */
  lemma EvictionIsIdempotent(w: Window, l: Load, headroom: nat, allowNewest: bool, n: nat)
    requires NamesAreShort(l.messages)
    requires Sheddable(l.messages, EvictionOrder(l.messages, allowNewest))
    requires Minimal(w, l, EvictionOrder(l.messages, allowNewest), headroom, n)
    ensures var r := ShedFirst(l, EvictionOrder(l.messages, allowNewest), n);
            OverBudget(w, r, headroom) ==> EvictionOrder(r.messages, allowNewest) == []
  {
    hide EvictionOrder, OverBudget, NamesAreShort, ShedFirst, MayEvict, Ascending;
    var order := EvictionOrder(l.messages, allowNewest);
    var r := ShedFirst(l, order, n);
    if n == |order| {
      var again := EvictionOrder(r.messages, allowNewest);
      EvictionOrderMeaning(l.messages, allowNewest);
      EvictionOrderMeaning(r.messages, allowNewest);
      HeadIsMember(again);
      forall i { StubsStay(l, order, allowNewest, i); }
    }
  }

  lemma HeadIsMember(s: seq<nat>)
    ensures s != [] ==> s[0] in s
  {
  }

  /** Stubbing a long result strictly shrinks the conversation. */
  lemma {:induction false} ContentShrinks(ms: seq<Message>, i: nat, m: Message)
    requires i < |ms| && |m.content| < |ms[i].content|
    ensures ContentChars(ms[i := m]) < ContentChars(ms)
  {
    var n := |ms| - 1;
    if i < n {
      ContentShrinks(ms[..n], i, m);
      assert ms[i := m][..n] == ms[..n][i := m];
    } else {
      assert ms[i := m][..n] == ms[..n];
    }
  }

  lemma LastIsNew(order: seq<nat>, n: nat)
    requires Ascending(order) && 0 < n <= |order|
    ensures order[n - 1] !in order[..n - 1]
  {
  }

  ghost predicate AllEvictable(ms: seq<Message>, order: seq<nat>)
  {
    forall a :: 0 <= a < |order| ==> order[a] < |ms| && Evictable(ms[order[a]]) && |ms[order[a]].name| <= 110
  }

  lemma OneMoreShrinks(l: Load, order: seq<nat>, n: nat)
    requires n < |order| && Sheddable(l.messages, order) && Ascending(order) && AllEvictable(l.messages, order)
    ensures ContentChars(ShedFirst(l, order, n + 1).messages) < ContentChars(ShedFirst(l, order, n).messages)
  {
    NextIsUntouched(l, order, n);
    ShedShrinks(ShedFirst(l, order, n), order[n]);
  }

  lemma {:induction false} ShedFirstShrinks(l: Load, order: seq<nat>, n: nat)
    requires n <= |order| && Sheddable(l.messages, order) && Ascending(order) && AllEvictable(l.messages, order)
    ensures if n > 0 then ContentChars(ShedFirst(l, order, n).messages) < ContentChars(l.messages)
            else ShedFirst(l, order, n) == l
  {
    if n > 0 {
      hide ContentChars, Sheddable, Ascending, AllEvictable;
      ShedFirstShrinks(l, order, n - 1);
      OneMoreShrinks(l, order, n - 1);
    }
  }

  lemma NextIsUntouched(l: Load, order: seq<nat>, n: nat)
    requires n < |order| && Sheddable(l.messages, order) && Ascending(order)
    ensures order[n] < |ShedFirst(l, order, n).messages| == |l.messages|
    ensures ShedFirst(l, order, n).messages[order[n]] == l.messages[order[n]]
  {
    ShedFirstChanges(l, order, n);
    LastIsNew(order, n + 1);
  }

  lemma ShedShrinks(l: Load, i: nat)
    requires i < |l.messages| && Evictable(l.messages[i]) && |l.messages[i].name| <= 110
    ensures ContentChars(Shed(l, i).messages) < ContentChars(l.messages)
  {
    StubIsNotEvictable(l.messages[i].name);
    ContentShrinks(l.messages, i, Stubbed(l.messages[i]));
  }

  /** With the tally seeded to a full window, any reply room puts the request over budget. */
  lemma FullWindowIsOverBudget(w: Window, l: Load, headroom: nat)
    requires w.limit > 0 && l.lastCall >= w.limit
    ensures OverBudget(w, l, headroom)
  {
  }

  ghost predicate SomeEvictable(ms: seq<Message>) { exists i :: 0 <= i < |ms| && Evictable(ms[i]) }

  /** What one pass over an over-budget request achieves. */
  lemma PassOutcome(w: Window, l: Load, headroom: nat, allowNewest: bool, n: nat)
    requires NamesAreShort(l.messages) && OverBudget(w, l, headroom)
    requires Sheddable(l.messages, EvictionOrder(l.messages, allowNewest))
    requires Minimal(w, l, EvictionOrder(l.messages, allowNewest), headroom, n)
    ensures var r := ShedFirst(l, EvictionOrder(l.messages, allowNewest), n);
            && SameButResults(l.messages, r.messages)
            && (if n > 0 then ContentChars(r.messages) < ContentChars(l.messages) else r == l)
    ensures n > 0 ==> SomeEvictable(l.messages)
    ensures allowNewest && SomeEvictable(l.messages) ==> n > 0
  {
    hide EvictionOrder, OverBudget, NewestOfBatch, ContentChars;
    var order := EvictionOrder(l.messages, allowNewest);
    EvictionOrderMeaning(l.messages, allowNewest);
    forall a | 0 <= a < |order| ensures MayEvict(l.messages, allowNewest, order[a]) { assert order[a] in order; }
    ShedFirstShrinks(l, order, n);
    ShedFirstIsSame(l, order, n);
    if allowNewest && SomeEvictable(l.messages) {
      var i :| 0 <= i < |l.messages| && Evictable(l.messages[i]);
      assert MayEvict(l.messages, allowNewest, i);
    }
  }

  lemma ShedFirstIsSame(l: Load, order: seq<nat>, n: nat)
    requires n <= |order| && Sheddable(l.messages, order)
    ensures SameButResults(l.messages, ShedFirst(l, order, n).messages) && ShedFirst(l, order, 0) == l
  {
  }

  lemma ShedNext(l: Load, order: seq<nat>, n: nat)
    requires n < |order| && Sheddable(l.messages, order)
    ensures var now := ShedFirst(l, order, n);
            && Sheddable(now.messages, order) && order[n] < |now.messages| && now.messages[order[n]].Tool?
            && ShedFirst(l, order, n + 1) == Shed(now, order[n])
  {
  }

  // ----- The agent -----

  class Agent {
    var messages: seq<Message>
    var lastCallTokens: nat
    var messagesAtLastCall: nat
    var measuredPromptTokens: nat
    var window: Window

    function CurrentLoad(): Load
      reads this
    {
      Load(messages, lastCallTokens, messagesAtLastCall, measuredPromptTokens)
    }

    predicate TooBig(headroom: nat)
      reads this
    {
      OverBudget(window, CurrentLoad(), headroom)
    }

    /** Stubs old tool results in place until the next request fits: the shortest oldest-first prefix of
        the eviction order that brings the request under budget, or all of it. */
    method EvictToolResults(headroom: nat, allowNewest: bool) returns (evicted: nat)
      modifies this`messages, this`lastCallTokens, this`measuredPromptTokens
      ensures var order := EvictionOrder(old(messages), allowNewest);
              && Sheddable(old(messages), order)
              && Minimal(window, old(CurrentLoad()), order, headroom, evicted)
              && CurrentLoad() == ShedFirst(old(CurrentLoad()), order, evicted)
    {
      hide EvictionOrder, OverBudget, StubText, Sheddable;
      ghost var start := CurrentLoad();
      var order := EvictionOrder(messages, allowNewest);
      OrderIsSheddable(messages, allowNewest);
      evicted := 0;
      if !TooBig(headroom) { return; }
      while evicted < |order|
        invariant evicted <= |order| && CurrentLoad() == ShedFirst(start, order, evicted)
        invariant forall k :: 0 <= k < evicted ==> OverBudget(window, ShedFirst(start, order, k), headroom)
      {
        if !TooBig(headroom) { break; }
        ShedNext(start, order, evicted);
        var index := order[evicted];
        var message := messages[index];
        var dropped := |message.content|;
        messages := messages[index := Tool(message.name, message.callId, StubText(message.name))];
        lastCallTokens := Less(lastCallTokens, dropped / 4);
        measuredPromptTokens := Less(measuredPromptTokens, dropped / 4);
        evicted := evicted + 1;
      }
    }

    /** Makes room after generation died in a tool call. The window is settled first: `settled` is what it comes
        to, the model being resident now. With a known window a retry is earned exactly
        when some tool result was long, and then the conversation has strictly shrunk; otherwise nothing
        in it has changed. */
    method RecoverFromWindowOverflow(settled: int) returns (retry: bool)
      requires NamesAreShort(messages)
      modifies this`window, this`messages, this`lastCallTokens, this`messagesAtLastCall, this`measuredPromptTokens
      ensures window == old(window).(limit := settled)
      ensures retry <==> settled > 0 && SomeEvictable(old(messages))
      ensures SameButResults(old(messages), messages)
      ensures if retry then ContentChars(messages) < ContentChars(old(messages)) else messages == old(messages)
    {
      hide EvictionOrder, OverBudget, Minimal, ShedFirst, ContentChars;
      retry := false;
      window := window.(limit := settled);
      if window.limit <= 0 { return; }
      lastCallTokens := if lastCallTokens < window.limit then window.limit else lastCallTokens;
      messagesAtLastCall := |messages|;
      ghost var start := CurrentLoad();
      FullWindowIsOverBudget(window, start, RESERVED_REPLY_TOKENS);
      var evicted := EvictToolResults(RESERVED_REPLY_TOKENS, false);
      PassOutcome(window, start, RESERVED_REPLY_TOKENS, false, evicted);
      if evicted == 0 {
        evicted := EvictToolResults(RESERVED_REPLY_TOKENS, true);
        PassOutcome(window, start, RESERVED_REPLY_TOKENS, true, evicted);
      }
      retry := evicted > 0;
    }
  }
}
