/** The streaming <think> filter (agent/ollama_code/render.py). */
module ThinkFilter {
  import opened Streams

  // ----- What the filter computes, on a whole text -----

  datatype TagPair = TagPair(open: string, close: string)

  const OPEN_TAGS := [TagPair("<think>", "</think>"), TagPair("<thinking>", "</thinking>")]

  datatype Mode = Visible | Thinking(close: string)

  datatype Split = Split(visible: string, reasoning: string)

  function Opens(table: seq<TagPair>): (r: seq<string>)
    ensures |r| == |table| && forall k :: 0 <= k < |r| ==> r[k] == table[k].open
  {
    seq(|table|, k requires 0 <= k < |table| => table[k].open)
  }

  /** The tags that end the mode in force. */
  function Tags(table: seq<TagPair>, mode: Mode): seq<string>
  {
    match mode
    case Visible => Opens(table)
    case Thinking(close) => [close]
  }

  /** The mode after the k-th of those tags. */
  function After(table: seq<TagPair>, mode: Mode, k: nat): Mode
    requires k < |Tags(table, mode)|
  {
    match mode
    case Visible => Thinking(table[k].close)
    case Thinking(_) => Visible
  }

  /** Index of the first of the tags that the text begins with, or -1. */
  function TagInFront(text: string, tags: seq<string>, k: nat): (r: int)
    requires k <= |tags|
    ensures -1 <= r < |tags|
    ensures r >= 0 ==> tags[r] <= text
    ensures r < 0 ==> forall j :: k <= j < |tags| ==> !(tags[j] <= text)
    decreases |tags| - k
  {
    if k == |tags| then -1 else if tags[k] <= text then k else TagInFront(text, tags, k + 1)
  }

  /** One pass over a whole text: a tag switches sides and is dropped, any other character goes to
      the side in force. */
  function SplitText(table: seq<TagPair>, text: string, mode: Mode): Split
    decreases |text|
  {
    if text == "" then Split("", "")
    else
      var tags := Tags(table, mode);
      var k := TagInFront(text, tags, 0);
      if k >= 0 && tags[k] != "" then SplitText(table, text[|tags[k]|..], After(table, mode, k))
      else Emit(mode, text[..1], SplitText(table, text[1..], mode))
  }

  function Emit(mode: Mode, text: string, rest: Split): Split
  {
    if mode.Visible? then Split(text + rest.visible, rest.reasoning) else Split(rest.visible, text + rest.reasoning)
  }

  // ----- Tags -----

  /** Tags open with their only angle bracket, and none begins with another. */
  ghost predicate TagSet(tags: seq<string>)
  {
    && (forall k :: 0 <= k < |tags| ==> tags[k] != "")
    && (forall k, i :: 0 <= k < |tags| && 0 <= i < |tags[k]| ==> (tags[k][i] == '<' <==> i == 0))
    && (forall j, k :: 0 <= j < |tags| && 0 <= k < |tags| && j != k ==> !(tags[j] <= tags[k]))
  }

  /** A close tag in force is one of the table's. */
  ghost predicate FromTable(table: seq<TagPair>, mode: Mode)
  {
    mode.Visible? || exists k :: 0 <= k < |table| && table[k].close == mode.close
  }

  ghost predicate ValidMode(table: seq<TagPair>, mode: Mode)
  {
    table != [] && FromTable(table, mode) && TagSet(Opens(table)) && TagSet(Tags(table, mode))
    && forall k :: 0 <= k < |table| ==> TagSet([table[k].close])
  }

  lemma OpenTagsAreValid()
    ensures ValidMode(OPEN_TAGS, Visible) && ValidMode(OPEN_TAGS, Thinking("</think>"))
  {
    assert OPEN_TAGS[0].close == "</think>";
    assert Opens(OPEN_TAGS) == ["<think>", "<thinking>"];
    assert "<think>"[6] != "<thinking>"[6];
  }

  ghost predicate TagAt(text: string, tags: seq<string>, i: nat)
    requires i <= |text|
  {
    exists k :: 0 <= k < |tags| && tags[k] <= text[i..]
  }

  /** What may be held back: a proper prefix of a tag. */
  ghost predicate HeldBack(held: string, tags: seq<string>)
  {
    exists k :: 0 <= k < |tags| && held < tags[k]
  }

  /** Less than a whole tag is held back: with the tags of the filter, at most ten characters. */
  lemma HeldBackIsShort(table: seq<TagPair>, held: string, mode: Mode)
    requires FromTable(table, mode) && HeldBack(held, Tags(table, mode))
    ensures table == OPEN_TAGS ==> |held| <= 10
  {
    if table == OPEN_TAGS {
      assert forall k :: 0 <= k < |table| ==> |table[k].open| <= 10 && |table[k].close| <= 11;
    }
  }

  lemma ValidModeIsFromTable(table: seq<TagPair>, mode: Mode)
    requires ValidMode(table, mode)
    ensures FromTable(table, mode)
  {
  }

  lemma TagsAreNonempty(table: seq<TagPair>, mode: Mode)
    requires ValidMode(table, mode)
    ensures Tags(table, mode) != [] && forall k :: 0 <= k < |Tags(table, mode)| ==> Tags(table, mode)[k] != ""
    ensures HeldBack("", Tags(table, mode))
    ensures forall k :: 0 <= k < |Tags(table, mode)| ==> ValidMode(table, After(table, mode, k))
  {
    assert "" < Tags(table, mode)[0];
  }

  lemma EmitTwice(mode: Mode, a: string, b: string, rest: Split)
    ensures Emit(mode, a, Emit(mode, b, rest)) == Emit(mode, a + b, rest)
  {
    assert a + (b + rest.visible) == a + b + rest.visible;
    assert a + (b + rest.reasoning) == a + b + rest.reasoning;
  }

  lemma SplitOneCharacter(table: seq<TagPair>, text: string, mode: Mode)
    requires text != "" && !TagAt(text, Tags(table, mode), 0)
    ensures SplitText(table, text, mode) == Emit(mode, text[..1], SplitText(table, text[1..], mode))
  {
    assert text[0..] == text;
    var k := TagInFront(text, Tags(table, mode), 0);
  }

  lemma SliceAfterFirst(text: string, n: nat)
    requires 0 < n <= |text|
    ensures text[1..][n - 1..] == text[n..] && text[..n] == text[..1] + text[1..][..n - 1]
  {
  }

  /** No tag starts in the first `n` positions. */
  ghost predicate Clear(text: string, tags: seq<string>, n: nat)
    requires n <= |text|
  {
    forall i :: 0 <= i < n ==> !TagAt(text, tags, i)
  }

  lemma ClearAfterFirst(text: string, tags: seq<string>, n: nat)
    requires 0 < n <= |text| && Clear(text, tags, n)
    ensures !TagAt(text, tags, 0) && Clear(text[1..], tags, n - 1)
  {
    forall i | 0 <= i < n - 1 ensures !TagAt(text[1..], tags, i) {
      assert text[1..][i..] == text[i + 1..];
      assert !TagAt(text, tags, i + 1);
    }
  }

  /** Characters before the first tag all go to the side in force. */
  lemma {:induction false} SkipToTag(table: seq<TagPair>, text: string, mode: Mode, n: nat)
    requires n <= |text| && Clear(text, Tags(table, mode), n)
    ensures SplitText(table, text, mode) == Emit(mode, text[..n], SplitText(table, text[n..], mode))
  {
    if n == 0 {
      assert text[0..] == text;
    } else {
      hide SplitText, Clear, TagAt, Tags, Emit;
      ClearAfterFirst(text, Tags(table, mode), n);
      SplitOneCharacter(table, text, mode);
      SkipToTag(table, text[1..], mode, n - 1);
      SliceAfterFirst(text, n);
      EmitTwice(mode, text[..1], text[1..][..n - 1], SplitText(table, text[n..], mode));
    }
  }

  lemma NoTagInHeldBack(held: string, tags: seq<string>, i: nat)
    requires TagSet(tags) && HeldBack(held, tags) && i < |held|
    ensures !TagAt(held, tags, i)
  {
    var k :| 0 <= k < |tags| && held < tags[k];
    assert held[i..][0] == tags[k][i];
    assert i == 0 ==> held[i..] == held;
    forall j | 0 <= j < |tags| ensures !(tags[j] <= held[i..]) {
      PrefixesOfOneText(tags[j], held, held);
    }
  }

  /** Text that is held back contains no tag, so flushing it sends all of it to the side in force. */
  lemma FlushHeldBack(table: seq<TagPair>, held: string, mode: Mode)
    requires ValidMode(table, mode) && HeldBack(held, Tags(table, mode))
    ensures SplitText(table, held, mode) == Emit(mode, held, Split("", ""))
  {
    forall i | 0 <= i < |held| ensures !TagAt(held, Tags(table, mode), i) {
      NoTagInHeldBack(held, Tags(table, mode), i);
    }
    SkipToTag(table, held, mode, |held|);
    assert held[..|held|] == held;
  }

  // ----- What the split means -----

  ghost predicate Occurs(tag: string, text: string) { exists i :: 0 <= i <= |text| && tag <= text[i..] }

  /** Visible text, then reasoning between the k-th open tag and its close tag. */
  datatype Block = Block(before: string, k: nat, thought: string)

  /** The end of a text: visible, or a block that is never closed. */
  datatype Ending = Rest(text: string) | Unclosed(before: string, k: nat, thought: string)

  ghost predicate NoneOpens(table: seq<TagPair>, text: string) { forall j :: 0 <= j < |table| ==> !Occurs(table[j].open, text) }

  /** No open tag occurs in visible text, and in a block not its close tag; other tags may. */
  ghost predicate CleanBlock(table: seq<TagPair>, before: string, k: nat, thought: string)
  {
    k < |table| && NoneOpens(table, before) && !Occurs(table[k].close, thought)
  }

  ghost predicate CleanEnding(table: seq<TagPair>, ending: Ending)
  {
    match ending
    case Rest(text) => NoneOpens(table, text)
    case Unclosed(before, k, thought) => CleanBlock(table, before, k, thought)
  }

  ghost predicate Clean(table: seq<TagPair>, blocks: seq<Block>, ending: Ending)
  {
    CleanEnding(table, ending) && forall b :: b in blocks ==> CleanBlock(table, b.before, b.k, b.thought)
  }

  ghost function Printed(table: seq<TagPair>, blocks: seq<Block>, ending: Ending): string
    requires Clean(table, blocks, ending)
  {
    if blocks == [] then
      match ending
      case Rest(text) => text
      case Unclosed(before, k, thought) => before + table[k].open + thought
    else
      var b := blocks[0];
      b.before + table[b.k].open + (b.thought + table[b.k].close + Printed(table, blocks[1..], ending))
  }

  function VisibleOf(blocks: seq<Block>, ending: Ending): string
  {
    if blocks == [] then if ending.Rest? then ending.text else ending.before
    else blocks[0].before + VisibleOf(blocks[1..], ending)
  }

  function ReasoningOf(blocks: seq<Block>, ending: Ending): string
  {
    if blocks == [] then if ending.Rest? then "" else ending.thought
    else blocks[0].thought + ReasoningOf(blocks[1..], ending)
  }

  /** Text in which no tag occurs stays free of tags before one of them. */
  lemma NoTagInto(tags: seq<string>, text: string, k: nat, i: nat)
    requires TagSet(tags) && k < |tags| && i < |text| && forall j :: 0 <= j < |tags| ==> !Occurs(tags[j], text)
    ensures forall j :: 0 <= j < |tags| ==> !(tags[j] <= (text + tags[k])[i..])
  {
    var n := |text|;
    var rest := (text + tags[k])[i..];
    assert rest[n - i] == tags[k][0] == '<' && rest[..n - i] == text[i..];
    forall j | 0 <= j < |tags| ensures !(tags[j] <= rest) {
      assert !(tags[j] <= text[i..]);
      if |tags[j]| > n - i { assert tags[j][n - i] != '<'; }
    }
  }

  lemma ClearToTag(tags: seq<string>, text: string, k: nat, rest: string)
    requires TagSet(tags) && k < |tags| && forall j :: 0 <= j < |tags| ==> !Occurs(tags[j], text)
    ensures Clear(text + tags[k] + rest, tags, |text|)
  {
    hide TagSet, Occurs, TagAt;
    var front := text + tags[k];
    assert front[|text|..] == tags[k];
    forall i | 0 <= i < |text| ensures !TagAt(front + rest, tags, i) {
      NoTagInto(tags, text, k, i);
      NoTagBeforeFirst(front, rest, tags, k, |text|, i);
    }
  }

  lemma ValidTags(table: seq<TagPair>, mode: Mode)
    requires ValidMode(table, mode)
    ensures TagSet(Tags(table, mode))
  {
  }

  lemma TagAfterText(table: seq<TagPair>, mode: Mode, text: string, k: nat, rest: string)
    requires ValidMode(table, mode) && k < |Tags(table, mode)|
    requires forall j :: 0 <= j < |Tags(table, mode)| ==> !Occurs(Tags(table, mode)[j], text)
    ensures SplitText(table, text + Tags(table, mode)[k] + rest, mode) == Emit(mode, text, SplitText(table, rest, After(table, mode, k)))
  {
    ValidTags(table, mode);
    hide *;
    var tag := Tags(table, mode)[k];
    ClearToTag(Tags(table, mode), text, k, rest);
    SlicesOfThree(text, tag, rest);
    SkipToTag(table, text + tag + rest, mode, |text|);
    TagInFrontIsPassed(table, mode, k, rest);
  }

  lemma SlicesOfThree(a: string, b: string, c: string)
    ensures (a + b + c)[|a|..] == b + c && (a + b + c)[..|a|] == a
  {
  }

  lemma TagInFrontIsPassed(table: seq<TagPair>, mode: Mode, k: nat, rest: string)
    requires TagSet(Tags(table, mode)) && k < |Tags(table, mode)|
    ensures SplitText(table, Tags(table, mode)[k] + rest, mode) == SplitText(table, rest, After(table, mode, k))
  {
    var tags := Tags(table, mode);
    var text := tags[k] + rest;
    assert tags[k] <= text;
    PrefixesOfOneText(tags[TagInFront(text, tags, 0)], tags[k], text);
    assert text[|tags[k]|..] == rest;
  }

  lemma NoTagAtAll(table: seq<TagPair>, mode: Mode, text: string)
    requires forall j :: 0 <= j < |Tags(table, mode)| ==> !Occurs(Tags(table, mode)[j], text)
    ensures SplitText(table, text, mode) == Emit(mode, text, Split("", ""))
  {
    SkipToTag(table, text, mode, |text|);
    assert text[..|text|] == text && text[|text|..] == "";
  }

  lemma OpensOf(table: seq<TagPair>, text: string)
    requires NoneOpens(table, text)
    ensures Tags(table, Visible) == Opens(table) && forall j :: 0 <= j < |Opens(table)| ==> !Occurs(Opens(table)[j], text)
  {
  }

  /** An open tag begins a block that its own close tag ends: the text between is reasoning. */
  lemma BlockIsSplit(table: seq<TagPair>, before: string, k: nat, thought: string, rest: string)
    requires ValidMode(table, Visible) && CleanBlock(table, before, k, thought)
    ensures SplitText(table, before + table[k].open + (thought + table[k].close + rest), Visible) ==
            Emit(Visible, before, Emit(Thinking(table[k].close), thought, SplitText(table, rest, Visible)))
  {
    hide SplitText, Occurs, TagSet;
    OpensOf(table, before);
    TagAfterText(table, Visible, before, k, thought + table[k].close + rest);
    TagAfterText(table, Thinking(table[k].close), thought, 0, rest);
  }

  lemma EndingIsSplit(table: seq<TagPair>, ending: Ending)
    requires ValidMode(table, Visible) && CleanEnding(table, ending)
    ensures SplitText(table, Printed(table, [], ending), Visible) == Split(VisibleOf([], ending), ReasoningOf([], ending))
  {
    hide SplitText, Occurs, TagSet;
    match ending
    case Rest(text) =>
      OpensOf(table, text);
      NoTagAtAll(table, Visible, text);
    case Unclosed(before, k, thought) =>
      OpensOf(table, before);
      TagAfterText(table, Visible, before, k, thought);
      NoTagAtAll(table, Thinking(table[k].close), thought);
  }

  /** Whatever visible stretches and blocks a text is printed from, the split gives back both. */
  lemma {:induction false} PrintedIsSplit(table: seq<TagPair>, blocks: seq<Block>, ending: Ending)
    requires ValidMode(table, Visible) && Clean(table, blocks, ending)
    ensures SplitText(table, Printed(table, blocks, ending), Visible) == Split(VisibleOf(blocks, ending), ReasoningOf(blocks, ending))
    decreases |blocks|
  {
    hide SplitText, ValidMode, CleanBlock, CleanEnding;
    if blocks == [] {
      EndingIsSplit(table, ending);
    } else {
      var b := blocks[0];
      PrintedIsSplit(table, blocks[1..], ending);
      BlockIsSplit(table, b.before, b.k, b.thought, Printed(table, blocks[1..], ending));
    }
  }

  // ----- Searching the buffer -----

  /** Index of the first occurrence, or -1. */
  function Find(text: string, tag: string): (r: int)
    requires tag != ""
    ensures r == -1 || 0 <= r <= |text| - |tag|
    ensures r >= 0 ==> tag <= text[r..]
    ensures forall i :: 0 <= i <= |text| && (r < 0 || i < r) ==> !(tag <= text[i..])
  {
    if |text| < |tag| then -1
    else if tag <= text then assert text[0..] == text; 0
    else
      var rest := Find(text[1..], tag);
      assert forall i :: 1 <= i <= |text| ==> text[i..] == text[1..][i - 1..];
      assert text[0..] == text;
      if rest < 0 then -1 else rest + 1
  }

  predicate EndsWith(text: string, suffix: string)
  {
    |suffix| <= |text| && text[|text| - |suffix|..] == suffix
  }

  /** Length of the longest proper prefix of the tag that ends the text, counting down from `n`. */
  function PartialSuffixLen(text: string, tag: string, n: nat): (r: nat)
    requires n < |tag| && n <= |text|
    ensures r <= n && EndsWith(text, tag[..r])
    ensures forall m :: r < m <= n ==> !EndsWith(text, tag[..m])
  {
    if n == 0 || EndsWith(text, tag[..n]) then n else PartialSuffixLen(text, tag, n - 1)
  }

  function Held(text: string, tag: string): nat
    requires tag != ""
  {
    PartialSuffixLen(text, tag, if |tag| - 1 < |text| then |tag| - 1 else |text|)
  }

  lemma HeldIsHeldBack(text: string, tag: string)
    requires tag != ""
    ensures Held(text, tag) <= |text| && text[|text| - Held(text, tag)..] < tag
  {
  }

  /** A tag that starts in the buffer and is completed by later text starts in its held-back tail. */
  lemma SpanningTagIsHeld(text: string, later: string, tag: string, i: nat)
    requires tag != "" && i <= |text| && tag <= (text + later)[i..]
    ensures tag <= text[i..] || |text| - i <= Held(text, tag)
  {
    if |text| - i < |tag| {
      assert (text + later)[i..] == text[i..] + later;
      assert text[i..] == tag[..|text| - i];
      assert EndsWith(text, tag[..|text| - i]);
    } else {
      assert (text + later)[i..][..|tag|] == text[i..][..|tag|];
    }
  }

  /** A tag that starts before a whole tag cannot run into it. */
  lemma NoTagBeforeFirst(text: string, later: string, tags: seq<string>, k: nat, n: nat, i: nat)
    requires TagSet(tags) && k < |tags| && i < n <= |text| && tags[k] <= text[n..]
    requires forall j :: 0 <= j < |tags| ==> !(tags[j] <= text[i..])
    ensures !TagAt(text + later, tags, i)
  {
    assert (text + later)[i..] == text[i..] + later;
    assert text[i..][n - i] == text[n..][0] == '<';
    forall j | 0 <= j < |tags| ensures !(tags[j] <= (text + later)[i..]) {
      PrefixesOfOneText(tags[j], text[i..], text[i..] + later);
    }
  }

  lemma PrefixesOfOneText(a: string, b: string, text: string)
    ensures a <= text && b <= text ==> a <= b || b <= a
  {
  }

  /** A tag and where it was found; `at` is -1 when no tag was found. */
  datatype Hit = Hit(k: nat, at: int)

  /** The leftmost occurrence of any of the tags from the k-th on, the first tag winning a tie. */
  function Leftmost(text: string, tags: seq<string>, k: nat): (r: Hit)
    requires k < |tags| && forall j :: 0 <= j < |tags| ==> tags[j] != ""
    ensures k <= r.k < |tags| && r.at == Find(text, tags[r.k])
    ensures forall j :: k <= j < |tags| ==> Find(text, tags[j]) < 0 || 0 <= r.at <= Find(text, tags[j])
    decreases |tags| - k
  {
    var at := Find(text, tags[k]);
    if k == |tags| - 1 then Hit(k, at)
    else
      var later := Leftmost(text, tags, k + 1);
      if at < 0 || 0 <= later.at < at then later else Hit(k, at)
  }

  function Spotted(text: string, tags: seq<string>): (r: Hit)
    ensures r.at >= 0 ==> r.k < |tags| && r.at + |tags[r.k]| <= |text|
  {
    if tags != [] && forall k :: 0 <= k < |tags| ==> tags[k] != "" then Leftmost(text, tags, 0) else Hit(0, -1)
  }

  /** The longest tail of the text that may begin one of the tags from the k-th on. */
  function Keep(text: string, tags: seq<string>, k: nat): (r: nat)
    requires k < |tags| && forall j :: 0 <= j < |tags| ==> tags[j] != ""
    ensures r <= |text| && exists j :: k <= j < |tags| && r == Held(text, tags[j])
    ensures forall j :: k <= j < |tags| ==> Held(text, tags[j]) <= r
    decreases |tags| - k
  {
    var mine := Held(text, tags[k]);
    if k == |tags| - 1 then mine
    else
      var others := Keep(text, tags, k + 1);
      if others <= mine then mine else others
  }

  /** How much of a text without a whole tag can go out. */
  function EmitEnd(text: string, tags: seq<string>): nat
  {
    if tags != [] && forall k :: 0 <= k < |tags| ==> tags[k] != "" then
      |text| - Keep(text, tags, 0)
    else 0
  }

  lemma EmitEndHoldsBack(text: string, tags: seq<string>)
    requires tags != [] && forall j :: 0 <= j < |tags| ==> tags[j] != ""
    ensures EmitEnd(text, tags) <= |text| && HeldBack(text[EmitEnd(text, tags)..], tags)
    ensures forall j :: 0 <= j < |tags| ==> EmitEnd(text, tags) + Held(text, tags[j]) <= |text|
  {
    var j :| 0 <= j < |tags| && Keep(text, tags, 0) == Held(text, tags[j]);
    HeldIsHeldBack(text, tags[j]);
  }

  // ----- Every text is printed from blocks -----

  lemma CutAt(text: string, tag: string, at: nat) returns (before: string, rest: string)
    requires tag != "" && at <= |text| && tag <= text[at..]
    ensures text == before + tag + rest && before == text[..at] && |rest| < |text|
  {
    before, rest := text[..at], text[at + |tag|..];
    assert text == before + text[at..] && text[at..] == tag + rest;
  }

  lemma NoneBefore(tag: string, text: string, at: nat)
    requires at <= |text| && forall i :: 0 <= i < at ==> !(tag <= text[i..])
    requires tag != ""
    ensures !Occurs(tag, text[..at])
  {
    forall i | 0 <= i <= at ensures !(tag <= text[..at][i..]) {
      assert text[i..] == text[..at][i..] + text[at..];
    }
  }

  /** Cuts a text at its first open tag, if it has one. */
  lemma FirstBlock(table: seq<TagPair>, text: string) returns (open: bool, before: string, k: nat, rest: string)
    requires ValidMode(table, Visible)
    ensures NoneOpens(table, before)
    ensures if open then k < |table| && text == before + table[k].open + rest && |rest| < |text| else text == before
  {
    TagsAreNonempty(table, Visible);
    hide ValidMode, TagSet, Occurs;
    var tags := Opens(table);
    var hit := Leftmost(text, tags, 0);
    open, k := hit.at >= 0, hit.k;
    var at := if open then hit.at else |text|;
    before, rest := text, "";
    if open { before, rest := CutAt(text, tags[k], at); }
    assert before == text[..at];
    forall j | 0 <= j < |table| ensures !Occurs(table[j].open, before) {
      var first := Find(text, tags[j]);
      assert first < 0 || at <= first;
      NoneBefore(tags[j], text, at);
    }
  }

  lemma CloseIsNonempty(table: seq<TagPair>, k: nat)
    requires ValidMode(table, Visible) && k < |table|
    ensures table[k].close != ""
  {
    assert [table[k].close][0] == table[k].close;
  }

  /** Cuts the text of a block at its close tag, if it has one. */
  lemma CloseOfBlock(close: string, text: string) returns (closed: bool, thought: string, rest: string)
    requires close != ""
    ensures !Occurs(close, thought)
    ensures if closed then text == thought + close + rest && |rest| < |text| else text == thought
  {
    var at := Find(text, close);
    closed, thought, rest := at >= 0, text, "";
    if closed { thought, rest := CutAt(text, close, at); }
    assert thought == text[..if closed then at else |text|];
    NoneBefore(close, text, if closed then at else |text|);
  }

  /** Every text is such a print, so the blocks say what the split of any text is. */
  lemma {:induction false} EveryTextIsPrinted(table: seq<TagPair>, text: string) returns (blocks: seq<Block>, ending: Ending)
    requires ValidMode(table, Visible)
    ensures Clean(table, blocks, ending) && text == Printed(table, blocks, ending)
    decreases |text|
  {
    var open, before, k, rest := FirstBlock(table, text);
    if !open { return [], Rest(text); }
    CloseIsNonempty(table, k);
    var closed, thought, tail := CloseOfBlock(table[k].close, rest);
    hide NoneOpens, Occurs, ValidMode;
    if closed {
      var more, last := EveryTextIsPrinted(table, tail);
      blocks, ending := [Block(before, k, thought)] + more, last;
      assert blocks[1..] == more;
    } else {
      blocks, ending := [], Unclosed(before, k, thought);
    }
  }

  /** In literal tags: each of the two open tags is ended by its own close tag only. */
  lemma ThinkBlocks(before: string, thought: string, rest: string)
    requires !Occurs("<think>", before) && !Occurs("<thinking>", before)
    ensures !Occurs("</think>", thought) ==>
              SplitText(OPEN_TAGS, before + "<think>" + (thought + "</think>" + rest), Visible) ==
              Emit(Visible, before, Emit(Thinking("</think>"), thought, SplitText(OPEN_TAGS, rest, Visible)))
    ensures !Occurs("</thinking>", thought) ==>
              SplitText(OPEN_TAGS, before + "<thinking>" + (thought + "</thinking>" + rest), Visible) ==
              Emit(Visible, before, Emit(Thinking("</thinking>"), thought, SplitText(OPEN_TAGS, rest, Visible)))
  {
    OpenTagsAreValid();
    hide SplitText, Occurs, ValidMode;
    if !Occurs("</think>", thought) { BlockIsSplit(OPEN_TAGS, before, 0, thought, rest); }
    if !Occurs("</thinking>", thought) { BlockIsSplit(OPEN_TAGS, before, 1, thought, rest); }
  }

  // ----- One step of the filter -----

  /** What is out on each side, what is held back, and the mode in force. */
  datatype Progress = Progress(visible: string, reasoning: string, held: string, mode: Mode)

  /** The split if `later` is all that is still to come. */
  function Finish(table: seq<TagPair>, p: Progress, later: string): Split
  {
    var rest := SplitText(table, p.held + later, p.mode);
    Split(p.visible + rest.visible, p.reasoning + rest.reasoning)
  }

  /** The two are the same to any continuation of the stream. */
  ghost predicate Equivalent(table: seq<TagPair>, p: Progress, q: Progress)
  {
    forall later :: Finish(table, p, later) == Finish(table, q, later)
  }

  lemma EquivalentToItself(table: seq<TagPair>, p: Progress)
    ensures Equivalent(table, p, p)
  {
  }

  lemma EquivalentTransitive(table: seq<TagPair>, p: Progress, q: Progress, r: Progress)
    requires Equivalent(table, p, q) && Equivalent(table, q, r)
    ensures Equivalent(table, p, r)
  {
    forall later ensures Finish(table, p, later) == Finish(table, r, later) {
      assert Finish(table, p, later) == Finish(table, q, later);
    }
  }

  /** Moves the first `n` characters out on the side in force. */
  function PutOut(p: Progress, n: nat): Progress
    requires n <= |p.held|
  {
    var text := p.held[..n];
    p.(visible := if p.mode.Visible? then p.visible + text else p.visible,
       reasoning := if p.mode.Visible? then p.reasoning else p.reasoning + text,
       held := p.held[n..])
  }

  lemma FinishAfterEmit(table: seq<TagPair>, p: Progress, n: nat, later: string)
    requires n <= |p.held|
    requires Clear(p.held + later, Tags(table, p.mode), n)
    ensures Finish(table, p, later) == Finish(table, PutOut(p, n), later)
  {
    hide SplitText, Clear, Emit;
    SkipToTag(table, p.held + later, p.mode, n);
    SliceOfConcat(p.held, later, n);
    JoinEmitted(p, n, SplitText(table, p.held[n..] + later, p.mode));
  }

  lemma SliceOfConcat(text: string, later: string, n: nat)
    requires n <= |text|
    ensures (text + later)[n..] == text[n..] + later && (text + later)[..n] == text[..n]
  {
  }

  lemma JoinEmitted(p: Progress, n: nat, rest: Split)
    requires n <= |p.held|
    ensures var e, q := Emit(p.mode, p.held[..n], rest), PutOut(p, n);
            p.visible + e.visible == q.visible + rest.visible
            && p.reasoning + e.reasoning == q.reasoning + rest.reasoning
  {
    assert p.visible + (p.held[..n] + rest.visible) == p.visible + p.held[..n] + rest.visible;
    assert p.reasoning + (p.held[..n] + rest.reasoning) == p.reasoning + p.held[..n] + rest.reasoning;
  }

  lemma NoTagBeforeTail(text: string, later: string, tags: seq<string>, i: nat)
    requires tags != [] && forall k :: 0 <= k < |tags| ==> tags[k] != ""
    requires Spotted(text, tags).at < 0 && i < EmitEnd(text, tags)
    ensures !TagAt(text + later, tags, i)
  {
    EmitEndHoldsBack(text, tags);
    forall k | 0 <= k < |tags| ensures !(tags[k] <= (text + later)[i..]) {
      assert Find(text, tags[k]) < 0;
      if tags[k] <= (text + later)[i..] { SpanningTagIsHeld(text, later, tags[k], i); }
    }
  }

  lemma FinishAfterTail(table: seq<TagPair>, p: Progress, later: string)
    requires ValidMode(table, p.mode) && Spotted(p.held, Tags(table, p.mode)).at < 0
    requires EmitEnd(p.held, Tags(table, p.mode)) <= |p.held|
    ensures Finish(table, p, later) == Finish(table, PutOut(p, EmitEnd(p.held, Tags(table, p.mode))), later)
  {
    hide Finish, Spotted, EmitEnd, TagAt, PutOut;
    var tags := Tags(table, p.mode);
    var n := EmitEnd(p.held, tags);
    TagsAreNonempty(table, p.mode);
    forall i | 0 <= i < n ensures !TagAt(p.held + later, tags, i) { NoTagBeforeTail(p.held, later, tags, i); }
    FinishAfterEmit(table, p, n, later);
  }

  /** With no whole tag in the buffer, all but the held-back tail can go out now. */
  lemma NoTagStep(table: seq<TagPair>, p: Progress)
    requires ValidMode(table, p.mode) && Spotted(p.held, Tags(table, p.mode)).at < 0
    ensures var tags := Tags(table, p.mode);
            var n := EmitEnd(p.held, tags);
            n <= |p.held| && HeldBack(p.held[n..], tags) && Equivalent(table, p, PutOut(p, n))
  {
    TagsAreNonempty(table, p.mode);
    EmitEndHoldsBack(p.held, Tags(table, p.mode));
    forall later { FinishAfterTail(table, p, later); }
  }

  function PassTag(table: seq<TagPair>, p: Progress, k: nat): Progress
    requires k < |Tags(table, p.mode)| && Tags(table, p.mode)[k] <= p.held
  {
    p.(held := p.held[|Tags(table, p.mode)[k]|..], mode := After(table, p.mode, k))
  }

  function PassLeftmost(table: seq<TagPair>, p: Progress): Progress
    requires ValidMode(table, p.mode) && Spotted(p.held, Tags(table, p.mode)).at >= 0
  {
    var hit := Spotted(p.held, Tags(table, p.mode));
    PassTag(table, PutOut(p, hit.at), hit.k)
  }

  /** At the leftmost tag the text before it goes out, the tag is dropped and the mode changes. */
  lemma TagStep(table: seq<TagPair>, p: Progress)
    requires ValidMode(table, p.mode) && Spotted(p.held, Tags(table, p.mode)).at >= 0
    ensures var q := PassLeftmost(table, p);
            Equivalent(table, p, q) && ValidMode(table, q.mode) && |q.held| < |p.held|
    ensures var hit := Spotted(p.held, Tags(table, p.mode));
            hit.k < |Tags(table, p.mode)| && hit.at + |Tags(table, p.mode)[hit.k]| <= |p.held|
  {
    TagsAreNonempty(table, p.mode);
    var tags := Tags(table, p.mode);
    var hit := Spotted(p.held, tags);
    forall later ensures Finish(table, p, later) == Finish(table, PassLeftmost(table, p), later) {
      forall i | 0 <= i < hit.at ensures !TagAt(p.held + later, tags, i) {
        forall j | 0 <= j < |tags| ensures !(tags[j] <= p.held[i..]) {
          assert Find(p.held, tags[j]) < 0 || i < Find(p.held, tags[j]);
        }
        NoTagBeforeFirst(p.held, later, tags, hit.k, hit.at, i);
      }
      FinishAfterEmit(table, p, hit.at, later);
      FinishAtTag(table, PutOut(p, hit.at), hit.k, later);
    }
  }

  /** Flushing puts out all that is held back. */
  lemma FlushStep(table: seq<TagPair>, p: Progress)
    requires ValidMode(table, p.mode) && HeldBack(p.held, Tags(table, p.mode))
    ensures var q := PutOut(p, |p.held|);
            Finish(table, p, "") == Split(q.visible, q.reasoning)
  {
    FlushHeldBack(table, p.held, p.mode);
    assert p.held + "" == p.held && p.held[..|p.held|] == p.held;
    assert p.visible + "" == p.visible && p.reasoning + "" == p.reasoning;
  }

  lemma FinishAtTag(table: seq<TagPair>, p: Progress, k: nat, later: string)
    requires TagSet(Tags(table, p.mode)) && k < |Tags(table, p.mode)| && Tags(table, p.mode)[k] <= p.held
    ensures Finish(table, p, later) == Finish(table, PassTag(table, p, k), later)
  {
    var text, tags := p.held + later, Tags(table, p.mode);
    assert tags[k] <= text;
    var front := TagInFront(text, tags, 0);
    PrefixesOfOneText(tags[front], tags[k], text);
    assert text[|tags[k]|..] == p.held[|tags[k]|..] + later;
  }

  // ----- The filter -----

  class ThinkFilter {
    const openTags: seq<TagPair>
    var buf: string
    var inThink: bool
    var closeTag: string
    var pendingThinking: seq<string>
    var allThinking: seq<string>
    var emitted: seq<string>
    /** All visible text so far, all reasoning so far, and the reasoning `TakeThinking` handed out. */
    ghost var shown: string
    ghost var reasoned: string
    ghost var taken: string

    ghost predicate Valid()
      reads this
    {
      Lists() && ValidMode(openTags, CurrentMode()) && HeldBack(buf, Tags(openTags, CurrentMode()))
    }

    ghost predicate Lists()
      reads this`shown, this`reasoned, this`taken, this`emitted, this`allThinking, this`pendingThinking
    {
      shown == Flatten(emitted) && reasoned == Flatten(allThinking) && reasoned == taken + Flatten(pendingThinking)
    }

    function CurrentMode(): Mode
      reads this`inThink, this`closeTag
    {
      if inThink then Thinking(closeTag) else Visible
    }

    /** Everything that has come out so far and what is held back. */
    ghost function State(): Progress
      reads this
    {
      Progress(shown, reasoned, buf, CurrentMode())
    }

    constructor ()
      ensures Valid() && openTags == OPEN_TAGS
      ensures State() == Progress("", "", "", Visible) && taken == ""
    {
      openTags := OPEN_TAGS;
      buf, inThink, closeTag := "", false, "</think>";
      pendingThinking, allThinking, emitted := [], [], [];
      shown, reasoned, taken := "", "", "";
      new;
      OpenTagsAreValid();
      TagsAreNonempty(openTags, Visible);
    }

    method RecordThinking(text: string)
      requires Lists()
      modifies this`pendingThinking, this`allThinking, this`reasoned
      ensures Lists() && reasoned == old(reasoned) + text
    {
      hide Flatten;
      if text != "" {
        FlattenAppend(pendingThinking, text);
        FlattenAppend(allThinking, text);
        pendingThinking := pendingThinking + [text];
        allThinking := allThinking + [text];
        assert taken + (Flatten(old(pendingThinking)) + text) == taken + Flatten(old(pendingThinking)) + text;
      }
      reasoned := reasoned + text;
    }

    method RecordEmitted(text: string)
      requires Lists()
      modifies this`emitted, this`shown
      ensures Lists() && shown == old(shown) + text
    {
      hide Flatten;
      if text != "" {
        FlattenAppend(emitted, text);
        emitted := emitted + [text];
      }
      shown := shown + text;
    }

    /** Sends text out on the side in force: reasoning is recorded, visible text is appended. */
    method PutOutText(text: string, out: string) returns (r: string)
      requires Lists()
      modifies this`pendingThinking, this`allThinking, this`reasoned
      ensures Lists()
      ensures shown + r == if inThink then shown + out else shown + out + text
      ensures reasoned == if inThink then old(reasoned) + text else old(reasoned)
    {
      if inThink {
        RecordThinking(text);
        r := out;
      } else {
        r := out + text;
      }
    }

    function ActiveTags(): seq<string>
      reads this`inThink, this`closeTag
    {
      Tags(openTags, CurrentMode())
    }

    /** No whole tag is in the buffer: puts out all but the held-back tail. */
    method HoldBackTail(out: string) returns (text: string)
      requires Lists() && ValidMode(openTags, CurrentMode())
      requires Spotted(buf, ActiveTags()).at < 0
      modifies this`buf, this`pendingThinking, this`allThinking, this`reasoned
      ensures Lists() && HeldBack(buf, ActiveTags())
      ensures Equivalent(openTags, old(State()).(visible := shown + out), State().(visible := shown + text))
    {
      hide Equivalent, ValidMode, Lists, Spotted, EmitEnd, HeldBack, Flatten;
      ghost var now := State().(visible := shown + out);
      NoTagStep(openTags, now);
      var emitEnd := EmitEnd(buf, ActiveTags());
      text := PutOutText(buf[..emitEnd], out);
      buf := buf[emitEnd..];
      assert State().(visible := shown + text) == PutOut(now, emitEnd);
    }

    /** A tag is in the buffer: puts out the text before the leftmost one and changes sides. */
    method PassLeftmostTag(out: string) returns (text: string)
      requires Lists() && ValidMode(openTags, CurrentMode())
      requires Spotted(buf, ActiveTags()).at >= 0
      modifies this`buf, this`inThink, this`closeTag, this`pendingThinking, this`allThinking, this`reasoned
      ensures Lists() && ValidMode(openTags, CurrentMode()) && |buf| < |old(buf)|
      ensures Equivalent(openTags, old(State()).(visible := shown + out), State().(visible := shown + text))
    {
      hide Equivalent, ValidMode, Lists, Spotted, Flatten;
      ghost var now := State().(visible := shown + out);
      TagStep(openTags, now);
      TagsAreNonempty(openTags, now.mode);
      var hit := Spotted(buf, ActiveTags());
      var rest := buf[hit.at..][|ActiveTags()[hit.k]|..];
      text := PutOutText(buf[..hit.at], out);
      buf := rest;
      if inThink {
        inThink := false;
      } else {
        inThink, closeTag := true, openTags[hit.k].close;
      }
      assert State().(visible := shown + text) == PassLeftmost(openTags, now);
    }

    /** Takes in a token and returns the visible text it completes. The new state is the same to any
        continuation as the old one with the token added to what was held back. */
    method Feed(token: string) returns (text: string)
      requires Valid()
      modifies this
      ensures Valid() && taken == old(taken) && shown == old(shown) + text
      ensures Equivalent(openTags, old(State()).(held := old(buf) + token), State())
      ensures openTags == OPEN_TAGS ==> |buf| <= 10
    {
      hide Equivalent, ValidMode, Lists, Spotted, HeldBack, Flatten, OPEN_TAGS, FromTable;
      ghost var start := State().(held := buf + token);
      EquivalentToItself(openTags, start);
      buf := buf + token;
      text := "";
      assert shown + text == shown;
      while buf != ""
        invariant Lists() && ValidMode(openTags, CurrentMode())
        invariant taken == old(taken) && shown == old(shown)
        invariant Equivalent(openTags, start, State().(visible := shown + text))
        decreases |buf|
      {
        ghost var now := State().(visible := shown + text);
        TagsAreNonempty(openTags, CurrentMode());
        if Spotted(buf, ActiveTags()).at < 0 {
          text := HoldBackTail(text);
          EquivalentTransitive(openTags, start, now, State().(visible := shown + text));
          break;
        }
        text := PassLeftmostTag(text);
        EquivalentTransitive(openTags, start, now, State().(visible := shown + text));
      }
      TagsAreNonempty(openTags, CurrentMode());
      ValidModeIsFromTable(openTags, CurrentMode());
      HeldBackIsShort(openTags, buf, CurrentMode());
      RecordEmitted(text);
    }

    /** Ends the stream: what was held back goes out on the side in force. */
    method Flush() returns (tail: string)
      requires Valid()
      modifies this
      ensures Valid() && buf == "" && taken == old(taken) && shown == old(shown) + tail
      ensures Split(shown, reasoned) == Finish(openTags, old(State()), "")
    {
      hide Finish, ValidMode, Lists, HeldBack;
      ghost var p := State();
      FlushStep(openTags, p);
      assert p.held[..|p.held|] == buf && p.visible + "" == p.visible;
      if inThink {
        RecordThinking(buf);
        tail := "";
      } else {
        tail := buf;
      }
      buf := "";
      TagsAreNonempty(openTags, CurrentMode());
      RecordEmitted(tail);
    }

    /** Hands out the reasoning found since the previous call. */
    method TakeThinking() returns (text: string)
      requires Valid()
      modifies this`pendingThinking, this`taken
      ensures Valid() && pendingThinking == []
      ensures taken == old(taken) + text == reasoned
    {
      hide Flatten;
      text := Flatten(pendingThinking);
      pendingThinking := [];
      taken := taken + text;
      FlattenNothing<char>();
      assert taken + "" == taken;
    }
  }

  /** Chunking never matters: however a text is cut into tokens, the visible pieces and the reasoning
      pieces a stream collects are the one-pass split of the whole text: the visible stretches and the blocks
      it is printed from. */
  method CollectStream(tokens: seq<string>) returns (visible: string, reasoning: string)
    ensures Split(visible, reasoning) == SplitText(OPEN_TAGS, Flatten(tokens), Visible)
    ensures forall blocks, ending :: Clean(OPEN_TAGS, blocks, ending) && Flatten(tokens) == Printed(OPEN_TAGS, blocks, ending) ==>
              visible == VisibleOf(blocks, ending) && reasoning == ReasoningOf(blocks, ending)
  {
    SplitOfBlocks(Flatten(tokens));
    hide Equivalent, ValidMode, HeldBack, Finish, Clean, Printed, SplitText;
    var filter := new ThinkFilter();
    EquivalentToItself(filter.openTags, filter.State());
    visible, reasoning := "", "";
    for i := 0 to |tokens|
      invariant filter.Valid() && fresh(filter)
      invariant visible == filter.shown && reasoning == filter.taken == filter.reasoned
      invariant Equivalent(filter.openTags, Progress("", "", Flatten(tokens[..i]), Visible), filter.State())
    {
      ghost var before := filter.State();
      var piece := filter.Feed(tokens[i]);
      var thought := filter.TakeThinking();
      visible, reasoning := visible + piece, reasoning + thought;
      assert tokens[..i + 1] == tokens[..i] + [tokens[i]];
      FlattenAppend(tokens[..i], tokens[i]);
      FeedExtends(filter.openTags, Progress("", "", Flatten(tokens[..i]), Visible), before, tokens[i], filter.State());
    }
    assert tokens[..|tokens|] == tokens;
    EquivalentAtEnd(filter.openTags, Flatten(tokens), filter.State());
    var tail := filter.Flush();
    var thought := filter.TakeThinking();
    visible, reasoning := visible + tail, reasoning + thought;
  }

  lemma SplitOfBlocks(text: string)
    ensures forall blocks, ending :: Clean(OPEN_TAGS, blocks, ending) && text == Printed(OPEN_TAGS, blocks, ending) ==>
              SplitText(OPEN_TAGS, text, Visible) == Split(VisibleOf(blocks, ending), ReasoningOf(blocks, ending))
  {
    OpenTagsAreValid();
    hide SplitText, ValidMode;
    forall blocks, ending | Clean(OPEN_TAGS, blocks, ending) && text == Printed(OPEN_TAGS, blocks, ending)
      ensures SplitText(OPEN_TAGS, text, Visible) == Split(VisibleOf(blocks, ending), ReasoningOf(blocks, ending))
    {
      PrintedIsSplit(OPEN_TAGS, blocks, ending);
    }
  }

  lemma FeedExtends(table: seq<TagPair>, whole: Progress, before: Progress, token: string, now: Progress)
    requires Equivalent(table, whole, before) && Equivalent(table, before.(held := before.held + token), now)
    ensures Equivalent(table, whole.(held := whole.held + token), now)
  {
    forall later ensures Finish(table, whole.(held := whole.held + token), later) == Finish(table, now, later) {
      FinishLater(table, whole, token, later);
      FinishLater(table, before, token, later);
    }
  }

  lemma FinishLater(table: seq<TagPair>, p: Progress, token: string, later: string)
    ensures Finish(table, p.(held := p.held + token), later) == Finish(table, p, token + later)
  {
    assert p.held + (token + later) == p.held + token + later;
  }

  lemma EquivalentAtEnd(table: seq<TagPair>, text: string, now: Progress)
    requires Equivalent(table, Progress("", "", text, Visible), now)
    ensures Finish(table, now, "") == SplitText(table, text, Visible)
  {
    assert Finish(table, Progress("", "", text, Visible), "") == Finish(table, now, "");
    assert text + "" == text;
  }
}
