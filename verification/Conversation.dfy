/** The conversation the agent keeps in memory and the pairing of tool calls with their results
    (agent/ollama_code/core.py). */
module Conversation {

  datatype Call = Call(id: string, name: string)

  /** Beside its content, a user message costs `images` tokens for its attachments, and an assistant
      message `weight` characters for its reasoning and call arguments. An observation is a screenshot
      the agent adds in the user's role. */
  datatype Message =
    | System(content: string)
    | User(content: string, images: nat, observation: bool)
    | Assistant(content: string, calls: seq<Call>, weight: nat)
    | Tool(name: string, callId: string, content: string)

  /** What a conversation still owes: the ids of calls without a result yet, or a broken pairing. */
  datatype Owed = Broken | Owes(ids: seq<string>)

  function Ids(calls: seq<Call>): (r: seq<string>)
    ensures |r| == |calls| && forall k :: 0 <= k < |r| ==> r[k] == calls[k].id
  {
    seq(|calls|, k requires 0 <= k < |calls| => calls[k].id)
  }

  function OwedAfter(owed: Owed, m: Message): Owed
  {
    match owed
    case Broken => Broken
    case Owes(ids) =>
      match m
      case Tool(_, id, _) => if ids != [] && ids[0] == id then Owes(ids[1..]) else Broken
      case Assistant(_, calls, _) => if ids == [] then Owes(Ids(calls)) else Broken
      case _ => if ids == [] then owed else Broken
  }

  function OwedBy(ms: seq<Message>): Owed
  {
    if ms == [] then Owes([]) else OwedAfter(OwedBy(ms[..|ms| - 1]), ms[|ms| - 1])
  }

  /** Every call has its result and nothing else does. */
  predicate Paired(ms: seq<Message>) { OwedBy(ms) == Owes([]) }

  lemma OwedByAppend(ms: seq<Message>, m: Message)
    ensures OwedBy(ms + [m]) == OwedAfter(OwedBy(ms), m)
  {
    assert (ms + [m])[..|ms|] == ms;
  }

  // ----- What being paired means -----

  /** Message `k` is the result of the call at position `k - i - 1` of the assistant message `i`. */
  predicate Answers(ms: seq<Message>, i: int, k: int)
    requires 0 <= i < k < |ms|
  {
    && ms[i].Assistant? && k - i - 1 < |ms[i].calls|
    && ms[k].Tool? && ms[k].callId == ms[i].calls[k - i - 1].id
  }

  function CallCount(ms: seq<Message>, i: int): nat
  {
    if 0 <= i < |ms| && ms[i].Assistant? then |ms[i].calls| else 0
  }

  /** As far as the conversation goes, calls are answered. */
  ghost predicate CallsAnswered(ms: seq<Message>)
  {
    forall i, k :: 0 <= i < k <= i + CallCount(ms, i) && k < |ms| ==> Answers(ms, i, k)
  }

  ghost predicate IsAnswer(ms: seq<Message>, k: int)
    requires 0 <= k < |ms|
  {
    exists i :: 0 <= i < k && Answers(ms, i, k)
  }

  ghost predicate ToolsAnswer(ms: seq<Message>)
  {
    forall k :: 0 <= k < |ms| && ms[k].Tool? ==> IsAnswer(ms, k)
  }

  /** The calls of message `i` are not all answered by the end. */
  predicate Open(ms: seq<Message>, i: int) { 0 <= i < |ms| <= i + CallCount(ms, i) }

  /** Each assistant message with n calls is immediately followed by n tool messages carrying the
      ids of the calls in order, and there is no other tool message. */
  ghost predicate WellPaired(ms: seq<Message>)
  {
    CallsAnswered(ms) && ToolsAnswer(ms) && forall i :: !Open(ms, i)
  }

  /** What message `i` still owes at the end. */
  function Outstanding(ms: seq<Message>, i: int): seq<string>
    requires Open(ms, i)
  {
    Ids(ms[i].calls)[|ms| - i - 1..]
  }

  ghost predicate OwesExactly(ms: seq<Message>, owed: seq<string>)
  {
    && (forall i :: Open(ms, i) ==> owed == Outstanding(ms, i))
    && (owed != [] ==> exists i :: Open(ms, i))
  }

  /** Appending one message changes nothing about the earlier ones. */
  lemma EarlierUnchanged(ms: seq<Message>, m: Message, i: int, k: int)
    requires 0 <= i < |ms|
    ensures CallCount(ms + [m], i) == CallCount(ms, i)
    ensures i < k < |ms| ==> Answers(ms + [m], i, k) == Answers(ms, i, k)
    ensures Open(ms + [m], i) ==> Open(ms, i) && Outstanding(ms + [m], i) == Outstanding(ms, i)[1..]
  {
  }

  lemma CallsAnsweredStep(ms: seq<Message>, m: Message, owed: seq<string>)
    requires CallsAnswered(ms) && OwesExactly(ms, owed)
    requires owed == [] || (m.Tool? && m.callId == owed[0])
    ensures CallsAnswered(ms + [m])
  {
    var all := ms + [m];
    forall i, k | 0 <= i < k <= i + CallCount(all, i) && k < |all| ensures Answers(all, i, k) {
      EarlierUnchanged(ms, m, i, k);
      if k == |ms| { assert Open(ms, i) && owed == Outstanding(ms, i); }
    }
  }

  lemma ToolsAnswerStep(ms: seq<Message>, m: Message, owed: seq<string>)
    requires ToolsAnswer(ms) && OwesExactly(ms, owed)
    requires m.Tool? ==> owed != [] && m.callId == owed[0]
    ensures ToolsAnswer(ms + [m])
  {
    var all := ms + [m];
    forall k | 0 <= k < |all| && all[k].Tool? ensures IsAnswer(all, k) {
      if k < |ms| {
        assert IsAnswer(ms, k);
        var i :| 0 <= i < k && Answers(ms, i, k);
        EarlierUnchanged(ms, m, i, k);
      } else {
        var i :| Open(ms, i);
        assert owed == Outstanding(ms, i);
        assert Answers(all, i, k);
      }
    }
  }

  lemma OpenOwes(ms: seq<Message>, i: int, owed: seq<string>)
    requires OwesExactly(ms, owed)
    ensures Open(ms, i) ==> owed == Outstanding(ms, i) && owed != []
  {
    if Open(ms, i) { assert |Outstanding(ms, i)| == |ms[i].calls| - (|ms| - i - 1); }
  }

  lemma OwesAfterResult(ms: seq<Message>, m: Message, owed: seq<string>)
    requires OwesExactly(ms, owed) && owed != []
    requires m.Tool?
    ensures OwesExactly(ms + [m], owed[1..])
  {
    var all := ms + [m];
    forall i | Open(all, i) ensures owed[1..] == Outstanding(all, i) {
      EarlierUnchanged(ms, m, i, i);
    }
    if owed[1..] != [] {
      var i :| Open(ms, i);
      OpenOwes(ms, i, owed);
      assert Open(all, i);
    }
  }

  lemma OwesAfterOther(ms: seq<Message>, m: Message)
    requires OwesExactly(ms, [])
    requires !m.Tool?
    ensures OwesExactly(ms + [m], if m.Assistant? then Ids(m.calls) else [])
  {
    var all := ms + [m];
    var owed := if m.Assistant? then Ids(m.calls) else [];
    forall i | Open(all, i) ensures owed == Outstanding(all, i) {
      OpenOwes(ms, i, []);
      if i < |ms| { EarlierUnchanged(ms, m, i, i); }
    }
    if owed != [] { assert Open(all, |ms|); }
  }

  lemma OwesStep(ms: seq<Message>, m: Message, owed: seq<string>)
    requires OwesExactly(ms, owed) && OwedAfter(Owes(owed), m).Owes?
    ensures OwesExactly(ms + [m], OwedAfter(Owes(owed), m).ids)
  {
    hide OwesExactly;
    if m.Tool? { OwesAfterResult(ms, m, owed); } else { OwesAfterOther(ms, m); }
  }

  lemma {:induction false} OwedMeaning(ms: seq<Message>)
    ensures OwedBy(ms).Owes? ==> CallsAnswered(ms) && ToolsAnswer(ms) && OwesExactly(ms, OwedBy(ms).ids)
  {
    if ms != [] && OwedBy(ms).Owes? {
      hide CallsAnswered, ToolsAnswer, OwesExactly;
      var before, m := ms[..|ms| - 1], ms[|ms| - 1];
      OwedMeaning(before);
      assert ms == before + [m];
      CallsAnsweredStep(before, m, OwedBy(before).ids);
      ToolsAnswerStep(before, m, OwedBy(before).ids);
      OwesStep(before, m, OwedBy(before).ids);
    }
  }

  lemma PrefixAnswered(ms: seq<Message>, m: Message)
    requires CallsAnswered(ms + [m]) && ToolsAnswer(ms + [m])
    ensures CallsAnswered(ms) && ToolsAnswer(ms)
  {
    var all := ms + [m];
    forall i, k | 0 <= i < k <= i + CallCount(ms, i) && k < |ms| ensures Answers(ms, i, k) {
      EarlierUnchanged(ms, m, i, k);
      assert Answers(all, i, k);
    }
    forall k | 0 <= k < |ms| && ms[k].Tool? ensures IsAnswer(ms, k) {
      assert IsAnswer(all, k);
      var i :| 0 <= i < k && Answers(all, i, k);
      EarlierUnchanged(ms, m, i, k);
    }
  }

  lemma {:induction false} AnsweredIsNotBroken(ms: seq<Message>)
    requires CallsAnswered(ms) && ToolsAnswer(ms)
    ensures OwedBy(ms).Owes?
  {
    if ms != [] {
      var n := |ms| - 1;
      var before, m := ms[..n], ms[n];
      assert ms == before + [m];
      PrefixAnswered(before, m);
      AnsweredIsNotBroken(before);
      OwedMeaning(before);
      var ids := OwedBy(before).ids;
      if ids != [] {
        var i :| Open(before, i);
        EarlierUnchanged(before, m, i, i);
        assert ids == Outstanding(before, i) && Answers(ms, i, n);
      } else if m.Tool? {
        assert IsAnswer(ms, n);
        var i :| 0 <= i < n && Answers(ms, i, n);
        OpenOwes(before, i, ids);
      }
    }
  }

  /** The one-pass account of what is owed is exactly the pairing the providers ask for. */
  lemma PairedIffWellPaired(ms: seq<Message>)
    ensures Paired(ms) <==> WellPaired(ms)
  {
    OwedMeaning(ms);
    if Paired(ms) {
      forall i ensures !Open(ms, i) { OpenOwes(ms, i, []); }
    }
    if WellPaired(ms) { AnsweredIsNotBroken(ms); }
  }

  // ----- Changes that keep the pairing -----

  /** A result for each of the calls, all with the same text. */
  function Results(calls: seq<Call>, content: string): seq<Message>
  {
    seq(|calls|, k requires 0 <= k < |calls| => Tool(calls[k].name, calls[k].id, content))
  }

  /** Answering the outstanding calls in order settles the conversation. */
  lemma {:induction false} ResultsSettle(ms: seq<Message>, calls: seq<Call>, content: string)
    requires OwedBy(ms) == Owes(Ids(calls))
    ensures Paired(ms + Results(calls, content))
    decreases |calls|
  {
    var results := Results(calls, content);
    if calls == [] {
      assert ms + results == ms;
    } else {
      OwedByAppend(ms, results[0]);
      assert Ids(calls)[1..] == Ids(calls[1..]);
      assert results[1..] == Results(calls[1..], content);
      ResultsSettle(ms + [results[0]], calls[1..], content);
      assert ms + results == ms + [results[0]] + results[1..];
    }
  }

  lemma {:induction false} PlainMessagesKeepPaired(ms: seq<Message>, more: seq<Message>)
    requires Paired(ms)
    requires forall k :: 0 <= k < |more| ==> !more[k].Tool? && (more[k].Assistant? ==> more[k].calls == [])
    ensures Paired(ms + more)
    decreases |more|
  {
    if more == [] {
      assert ms + more == ms;
    } else {
      OwedByAppend(ms, more[0]);
      PlainMessagesKeepPaired(ms + [more[0]], more[1..]);
      assert ms + more == ms + [more[0]] + more[1..];
    }
  }

  /** The two differ at most in the contents of tool messages. */
  predicate SameButResults(ms: seq<Message>, ns: seq<Message>)
  {
    && |ms| == |ns|
    && forall k :: 0 <= k < |ms| ==>
         ns[k] == if ms[k].Tool? && ns[k].Tool? then Tool(ms[k].name, ms[k].callId, ns[k].content) else ms[k]
  }

  lemma {:induction false} ResultContentsDoNotMatter(ms: seq<Message>, ns: seq<Message>)
    requires SameButResults(ms, ns)
    ensures OwedBy(ms) == OwedBy(ns)
  {
    if ms != [] {
      ResultContentsDoNotMatter(ms[..|ms| - 1], ns[..|ns| - 1]);
    }
  }

  /** A prefix that ends with a user message, cut out of a paired conversation, is paired. */
  lemma {:induction false} CutAfterUser(ms: seq<Message>, n: nat)
    requires OwedBy(ms).Owes? && 0 < n <= |ms| && ms[n - 1].User?
    ensures Paired(ms[..n])
  {
    if n < |ms| {
      CutAfterUser(ms[..|ms| - 1], n);
      assert ms[..|ms| - 1][..n] == ms[..n];
    } else {
      assert ms[..n] == ms;
    }
  }
}
