/** The grammar of the patch envelope, told by the characters of its lines: what the parser accepts, and what the
    hunks it returns say (agent/ollama_code/codex_patch.py). */
module PatchGrammar {
  import opened Options
  import opened Text
  import opened Streams
  import opened PatchSplice
  import opened PatchParse

  // ----- Lines -----

  predicate IsStop(raw: string) { "*** " <= Strip(raw) && Strip(raw) != "*** End of File" }

  predicate IsEnd(raw: string) { Strip(raw) == "*** End of File" }

  predicate IsMark(raw: string) { RStrip(raw) == "@@" || "@@ " <= RStrip(raw) }

  predicate IsBlank(raw: string) { RStrip(raw) == "" }

  /** A line of text: blank, kept, added or removed. */
  predicate IsPlain(raw: string)
  {
    raw == "" || ((raw[0] == ' ' || raw[0] == '+' || raw[0] == '-') && !("*** " <= Strip(raw)))
  }

  function OldTexts(lines: seq<string>): seq<string>
  {
    if lines == [] then []
    else (if lines[0] == "" then [""] else if lines[0][0] != '+' then [lines[0][1..]] else []) + OldTexts(lines[1..])
  }

  function NewTexts(lines: seq<string>): seq<string>
  {
    if lines == [] then []
    else (if lines[0] == "" then [""] else if lines[0][0] != '-' then [lines[0][1..]] else []) + NewTexts(lines[1..])
  }

  // ----- Chunks -----

  /** The lines of a chunk: a mark, which the first may lack, lines of text, and at the end of the file a line
      that says so and blank ones. */
  datatype Segment = Segment(mark: Option<string>, lines: seq<string>, end: Option<string>, blanks: seq<string>)

  function Optional(line: Option<string>): seq<string> { match line case None => [] case Some(s) => [s] }

  function SegmentLines(g: Segment): seq<string> { Optional(g.mark) + (g.lines + (Optional(g.end) + g.blanks)) }

  function AllSegmentLines(segments: seq<Segment>): seq<string>
  {
    if segments == [] then [] else SegmentLines(segments[0]) + AllSegmentLines(segments[1..])
  }

  function ContextOf(mark: Option<string>): Option<string>
  {
    if mark.Some? && "@@ " <= RStrip(mark.value) then Some(RStrip(mark.value)[3..]) else None
  }

  function ChunkOf(g: Segment): Chunk { Chunk(ContextOf(g.mark), OldTexts(g.lines), NewTexts(g.lines), g.end.Some?) }

  function ChunksOf(segments: seq<Segment>): seq<Chunk>
  {
    if segments == [] then [] else [ChunkOf(segments[0])] + ChunksOf(segments[1..])
  }

  ghost predicate AllPlain(lines: seq<string>) { forall line :: line in lines ==> IsPlain(line) }

  ghost predicate AllBlank(lines: seq<string>) { forall line :: line in lines ==> IsBlank(line) }

  ghost predicate GoodSegment(g: Segment)
  {
    && (g.mark.Some? ==> IsMark(g.mark.value)) && AllPlain(g.lines) && AllBlank(g.blanks)
    && (if g.end.Some? then IsEnd(g.end.value) && g.lines != [] else g.blanks == [])
  }

  /** Only the first chunk may lack its mark, and only the last may hold no line. */
  ghost predicate GoodSegments(segments: seq<Segment>)
  {
    && (forall i :: 0 <= i < |segments| ==> GoodSegment(segments[i]))
    && (forall i :: 0 < i < |segments| ==> segments[i].mark.Some?)
    && (forall i :: 0 <= i < |segments| && (i < |segments| - 1 || segments[i].mark.None?) ==> segments[i].lines != [])
  }

  // ----- Hunks -----

  datatype Item =
    | AddItem(head: string, lines: seq<string>)
    | DeleteItem(head: string)
    | UpdateItem(head: string, move: Option<string>, segments: seq<Segment>)

  function ItemLines(item: Item): seq<string>
  {
    match item
    case AddItem(head, lines) => [head] + lines
    case DeleteItem(head) => [head]
    case UpdateItem(head, move, segments) => [head] + (Optional(move) + AllSegmentLines(segments))
  }

  function AllItemLines(items: seq<Item>): seq<string>
  {
    if items == [] then [] else ItemLines(items[0]) + AllItemLines(items[1..])
  }

  ghost predicate GoodItem(item: Item)
  {
    match item
    case AddItem(head, lines) => "*** Add File: " <= Strip(head) && AllAdded(lines)
    case DeleteItem(head) => "*** Delete File: " <= Strip(head)
    case UpdateItem(head, move, segments) =>
      && "*** Update File: " <= Strip(head) && (move.Some? ==> "*** Move to: " <= Strip(move.value))
      && GoodSegments(segments) && exists g :: g in segments && g.lines != []
  }

  function PathAfter(line: string, marker: string): string
    requires marker <= Strip(line)
  {
    Strip(Strip(line)[|marker|..])
  }

  predicate AllAdded(lines: seq<string>) { forall i :: 0 <= i < |lines| ==> "+" <= lines[i] }

  function Tails(lines: seq<string>): seq<string>
    requires AllAdded(lines)
  {
    if lines == [] then [] else [lines[0][1..]] + Tails(lines[1..])
  }

  ghost function HunkOf(item: Item): Hunk
    requires GoodItem(item)
  {
    match item
    case AddItem(head, lines) => Add(PathAfter(head, "*** Add File: "), Join(Tails(lines), '\n') + "\n")
    case DeleteItem(head) => Delete(PathAfter(head, "*** Delete File: "))
    case UpdateItem(head, move, segments) =>
      Update(PathAfter(head, "*** Update File: "),
             if move.Some? then Some(PathAfter(move.value, "*** Move to: ")) else None, ChunksOf(segments))
  }

  ghost predicate GoodItems(items: seq<Item>) { forall i :: 0 <= i < |items| ==> GoodItem(items[i]) }

  ghost function HunksOf(items: seq<Item>): seq<Hunk>
    requires GoodItems(items)
  {
    if items == [] then [] else [HunkOf(items[0])] + HunksOf(items[1..])
  }

  // ----- One line of an update hunk -----

  lemma EndsOfLine(raw: string)
    ensures RStrip(raw) != "" ==> raw != "" && RStrip(raw)[0] == raw[0]
    ensures RStrip(raw) == "" ==> Strip(raw) == ""
    ensures raw != "" && raw[0] == '@' ==> Strip(raw) != "" && Strip(raw)[0] == '@'
  {
    RStripEnds(raw);
    StripTrims(raw);
  }

  /** How the parser takes a line that is told by its characters. */
  lemma LineIsTaken(raw: string)
    ensures BodyLineOf(raw).Stop? <==> IsStop(raw)
    ensures IsMark(raw) ==> BodyLineOf(raw) == At(ContextOf(Some(raw)))
    ensures IsEnd(raw) ==> BodyLineOf(raw) == EndMark
    ensures IsBlank(raw) ==> !BodyLineOf(raw).Stop? && !BodyLineOf(raw).At? && !BodyLineOf(raw).EndMark?
    ensures IsPlain(raw) ==> BodyLineOf(raw) == PlainLine(raw)
    ensures BodyLineOf(raw).Bad? <==> !IsStop(raw) && !IsMark(raw) && !IsEnd(raw) && !IsPlain(raw)
  {
    EndsOfLine(raw);
    hide Strip, RStrip;
  }

  function PlainLine(raw: string): BodyLine
  {
    if raw == "" then Both("") else if raw[0] == ' ' then Both(raw[1..]) else if raw[0] == '+' then New(raw[1..]) else Old(raw[1..])
  }

  // ----- The grammar is read -----

  /** A chunk with more of its lines. */
  function Extended(c: Chunk, g: Segment): Chunk
  {
    c.(oldLines := c.oldLines + OldTexts(g.lines), newLines := c.newLines + NewTexts(g.lines),
       endOfFile := c.endOfFile || g.end.Some?)
  }

  lemma OneText(raw: string)
    ensures OldTexts([raw]) == if raw == "" then [""] else if raw[0] != '+' then [raw[1..]] else []
    ensures NewTexts([raw]) == if raw == "" then [""] else if raw[0] != '-' then [raw[1..]] else []
  {
    hide OldTexts, NewTexts;
    TextsStep([raw]);
    NoTexts();
    assert [raw][1..] == [];
  }

  lemma PlainIsTaken(raw: string, done: seq<Chunk>, c: Chunk)
    requires IsPlain(raw) && !c.endOfFile
    ensures !BodyLineOf(raw).Stop?
    ensures TakeLine(raw, done + [c]) == Ok(AddLine(done + [c], OldTexts([raw]), NewTexts([raw])))
    ensures TakeLine(raw, []) == Ok(AddLine([], OldTexts([raw]), NewTexts([raw])))
  {
    LineIsTaken(raw);
    OneText(raw);
    hide BodyLineOf, Strip, RStrip, OldTexts, NewTexts, AddLine;
    assert Last(done + [c]) == c;
  }

  lemma PlainIsRead(raw: string, tail: seq<string>, done: seq<Chunk>, c: Chunk)
    requires IsPlain(raw) && !c.endOfFile
    ensures UpdateBody([raw] + tail, done + [c]) == UpdateBody(tail, done + [Extended(c, Segment(None, [raw], None, []))])
    ensures done == [] && c == FIRST_CHUNK ==> UpdateBody([raw] + tail, []) == UpdateBody([raw] + tail, [c])
  {
    var removed, added := OldTexts([raw]), NewTexts([raw]);
    PlainIsTaken(raw, done, c);
    hide BodyLineOf, UpdateBody, IsPlain, TakeLine, OldTexts, NewTexts;
    AddLineToLast(done, c, removed, added);
    UpdateStep(raw, tail, done + [c], AddLine(done + [c], removed, added));
    if done == [] && c == FIRST_CHUNK {
      UpdateStep(raw, tail, [], AddLine([], removed, added));
      assert done + [c] == [c];
    }
  }

  lemma TextsStep(lines: seq<string>)
    requires lines != []
    ensures OldTexts(lines) == (if lines[0] == "" then [""] else if lines[0][0] != '+' then [lines[0][1..]] else []) + OldTexts(lines[1..])
    ensures NewTexts(lines) == (if lines[0] == "" then [""] else if lines[0][0] != '-' then [lines[0][1..]] else []) + NewTexts(lines[1..])
  {
  }

  lemma TextsFirst(lines: seq<string>)
    requires lines != []
    ensures OldTexts(lines) == OldTexts(lines[..1]) + OldTexts(lines[1..])
    ensures NewTexts(lines) == NewTexts(lines[..1]) + NewTexts(lines[1..])
  {
    hide OldTexts, NewTexts;
    TextsStep(lines);
    OneText(lines[0]);
    assert lines[..1] == [lines[0]];
  }

  lemma {:induction false} PlainLinesAreRead(lines: seq<string>, tail: seq<string>, done: seq<Chunk>, c: Chunk)
    requires AllPlain(lines) && !c.endOfFile
    ensures UpdateBody(lines + tail, done + [c]) == UpdateBody(tail, done + [Extended(c, Segment(None, lines, None, []))])
    decreases |lines|
  {
    hide UpdateBody, IsPlain, OldTexts, NewTexts;
    if lines == [] {
      NoTexts();
      assert lines + tail == tail && Extended(c, Segment(None, [], None, [])) == c;
    } else {
      var next := Extended(c, Segment(None, [lines[0]], None, []));
      assert lines[0] in lines && lines[..1] == [lines[0]];
      PlainIsRead(lines[0], lines[1..] + tail, done, c);
      assert [lines[0]] + (lines[1..] + tail) == lines + tail;
      PlainLinesAreRead(lines[1..], tail, done, next);
      TextsFirst(lines);
      Associates(c.oldLines, OldTexts(lines[..1]), OldTexts(lines[1..]));
      Associates(c.newLines, NewTexts(lines[..1]), NewTexts(lines[1..]));
    }
  }

  lemma NoTexts()
    ensures OldTexts([]) == [] && NewTexts([]) == []
  {
  }

  lemma MarkIsRead(raw: string, tail: seq<string>, done: seq<Chunk>)
    requires IsMark(raw) && !LastIsEmpty(done)
    ensures UpdateBody([raw] + tail, done) == UpdateBody(tail, done + [Chunk(ContextOf(Some(raw)), [], [], false)])
  {
    LineIsTaken(raw);
    hide BodyLineOf, UpdateBody, Strip, ContextOf;
    UpdateStep(raw, tail, done, done + [Chunk(ContextOf(Some(raw)), [], [], false)]);
  }

  lemma EndIsRead(raw: string, tail: seq<string>, done: seq<Chunk>, c: Chunk)
    requires IsEnd(raw) && !EmptyChunk(c) && !c.endOfFile
    ensures UpdateBody([raw] + tail, done + [c]) == UpdateBody(tail, done + [c.(endOfFile := true)])
  {
    LineIsTaken(raw);
    hide BodyLineOf, UpdateBody, Strip, RStrip;
    assert WithLast(done + [c], c.(endOfFile := true)) == done + [c.(endOfFile := true)];
    UpdateStep(raw, tail, done + [c], done + [c.(endOfFile := true)]);
  }

  lemma {:induction false} BlanksAreRead(blanks: seq<string>, tail: seq<string>, done: seq<Chunk>)
    requires AllBlank(blanks) && (blanks != [] ==> AfterEnd(done))
    ensures UpdateBody(blanks + tail, done) == UpdateBody(tail, done)
    decreases |blanks|
  {
    hide UpdateBody, AfterEnd;
    if blanks == [] {
      assert blanks + tail == tail;
    } else {
      var raw := blanks[0];
      assert raw in blanks;
      BlankIsRead(raw, blanks[1..] + tail, done);
      assert [raw] + (blanks[1..] + tail) == blanks + tail;
      BlanksAreRead(blanks[1..], tail, done);
    }
  }

  lemma BlankIsRead(raw: string, tail: seq<string>, done: seq<Chunk>)
    requires IsBlank(raw) && AfterEnd(done)
    ensures UpdateBody([raw] + tail, done) == UpdateBody(tail, done)
  {
    LineIsTaken(raw);
    hide BodyLineOf, UpdateBody, Strip;
    UpdateStep(raw, tail, done, done);
  }

  lemma TextsAreSome(lines: seq<string>)
    requires lines != [] && IsPlain(lines[0])
    ensures OldTexts(lines) != [] || NewTexts(lines) != []
  {
  }

  /** The end of a segment, read into a chunk that holds its lines. */
  lemma EndingIsRead(end: string, blanks: seq<string>, tail: seq<string>, done: seq<Chunk>, c: Chunk)
    requires IsEnd(end) && AllBlank(blanks) && !EmptyChunk(c) && !c.endOfFile
    ensures UpdateBody([end] + blanks + tail, done + [c]) == UpdateBody(tail, done + [c.(endOfFile := true)])
  {
    hide UpdateBody, IsEnd, IsBlank;
    assert [end] + blanks + tail == [end] + (blanks + tail);
    EndIsRead(end, blanks + tail, done, c);
    assert Last(done + [c.(endOfFile := true)]).endOfFile;
    BlanksAreRead(blanks, tail, done + [c.(endOfFile := true)]);
  }

  function Ending(g: Segment): seq<string> { Optional(g.end) + g.blanks }

  lemma LinesExtend(c: Chunk, g: Segment)
    requires GoodSegment(g) && !c.endOfFile
    ensures g.end.Some? ==> !EmptyChunk(Extended(c, Segment(None, g.lines, None, [])))
    ensures g.end.None? ==> Extended(c, Segment(None, g.lines, None, [])) == Extended(c, g) && Ending(g) == []
    ensures g.end.Some? ==> Extended(c, Segment(None, g.lines, None, [])).(endOfFile := true) == Extended(c, g)
    ensures AllPlain(g.lines) && AllBlank(g.blanks) && (g.end.Some? ==> IsEnd(g.end.value))
    ensures !Extended(c, Segment(None, g.lines, None, [])).endOfFile
  {
    if g.end.Some? {
      assert g.lines[0] in g.lines;
      TextsAreSome(g.lines);
    }
    hide OldTexts, NewTexts, IsPlain, IsBlank, IsEnd;
  }

  /** The lines of a segment but for its mark, read into the last chunk. */
  lemma RestOfSegmentIsRead(g: Segment, tail: seq<string>, done: seq<Chunk>, c: Chunk)
    requires GoodSegment(g) && !c.endOfFile
    ensures UpdateBody(g.lines + Ending(g) + tail, done + [c]) == UpdateBody(tail, done + [Extended(c, g)])
  {
    hide UpdateBody, IsEnd, AllPlain, AllBlank, OldTexts, NewTexts, GoodSegment, EmptyChunk, Extended;
    LinesExtend(c, g);
    Associates(g.lines, Ending(g), tail);
    PlainLinesAreRead(g.lines, Ending(g) + tail, done, c);
    if g.end.Some? {
      EndingIsRead(g.end.value, g.blanks, tail, done, Extended(c, Segment(None, g.lines, None, [])));
    } else {
      NothingFirst(tail);
    }
  }

  lemma NothingFirst(tail: seq<string>)
    ensures [] + tail == tail && [] + [] + tail == tail
  {
  }

  lemma SegmentIsRead(g: Segment, tail: seq<string>, done: seq<Chunk>)
    requires GoodSegment(g) && !LastIsEmpty(done) && (g.mark.None? ==> done == [] && g.lines != [])
    ensures UpdateBody(SegmentLines(g) + tail, done) == UpdateBody(tail, done + [ChunkOf(g)])
  {
    var rest := g.lines + Ending(g) + tail;
    var c := Chunk(ContextOf(g.mark), [], [], false);
    SegmentParts(g, tail);
    hide UpdateBody, GoodSegment, IsMark, OldTexts, NewTexts, ContextOf, SegmentLines, Ending, ChunkOf, Extended, LastIsEmpty;
    RestOfSegmentIsRead(g, tail, done, c);
    if g.mark.Some? {
      MarkIsGood(g);
      MarkIsRead(g.mark.value, rest, done);
    } else {
      FirstLineStarts(g, rest);
      assert done + [c] == [c];
    }
  }

  lemma SegmentParts(g: Segment, tail: seq<string>)
    ensures SegmentLines(g) + tail == Optional(g.mark) + (g.lines + Ending(g) + tail)
    ensures g.mark.None? ==> SegmentLines(g) + tail == g.lines + Ending(g) + tail
    ensures Extended(Chunk(ContextOf(g.mark), [], [], false), g) == ChunkOf(g)
  {
    hide OldTexts, NewTexts, ContextOf;
  }

  /** Text without a mark begins a first chunk. */
  lemma FirstLineStarts(g: Segment, rest: seq<string>)
    requires GoodSegment(g) && g.mark.None? && g.lines != [] && g.lines <= rest
    ensures UpdateBody(rest, []) == UpdateBody(rest, [Chunk(ContextOf(g.mark), [], [], false)])
  {
    assert g.lines[0] in g.lines;
    hide UpdateBody, IsPlain;
    assert rest == [rest[0]] + rest[1..];
    PlainIsRead(rest[0], rest[1..], [], FIRST_CHUNK);
  }

  lemma MarkIsGood(g: Segment)
    requires GoodSegment(g) && g.mark.Some?
    ensures IsMark(g.mark.value)
  {
  }

  lemma SegmentsAfterFirst(segments: seq<Segment>)
    requires GoodSegments(segments) && segments != []
    ensures GoodSegment(segments[0]) && GoodSegments(segments[1..])
    ensures |segments| > 1 ==> segments[0].lines != [] && segments[1].mark.Some?
    ensures segments[0].mark.None? ==> segments[0].lines != []
  {
    hide GoodSegment;
  }

  lemma ChunkHasLines(g: Segment)
    requires GoodSegment(g) && g.lines != []
    ensures !EmptyChunk(ChunkOf(g))
  {
    assert g.lines[0] in g.lines;
    TextsAreSome(g.lines);
  }

  lemma NoMoreSegments(rest: seq<string>, done: seq<Chunk>)
    requires rest == [] || IsStop(rest[0])
    ensures UpdateBody(AllSegmentLines([]) + rest, done) == Ok(Taken(done + ChunksOf([]), rest))
  {
    if rest != [] { LineIsTaken(rest[0]); }
    hide IsStop, BodyLineOf, TakeLine;
    assert AllSegmentLines([]) + rest == rest && done + ChunksOf([]) == done;
  }

  /** Well-formed chunk lines are read as the chunks they say, up to a line that ends them. */
  lemma {:induction false} SegmentsAreRead(segments: seq<Segment>, rest: seq<string>, done: seq<Chunk>)
    requires GoodSegments(segments) && (rest == [] || IsStop(rest[0])) && (segments != [] ==> !LastIsEmpty(done))
    requires segments != [] && segments[0].mark.None? ==> done == []
    ensures UpdateBody(AllSegmentLines(segments) + rest, done) == Ok(Taken(done + ChunksOf(segments), rest))
    decreases |segments|
  {
    if segments == [] {
      NoMoreSegments(rest, done);
    } else {
      hide UpdateBody, GoodSegment, GoodSegments, IsStop, ChunkOf, SegmentLines, EmptyChunk;
      var g, more := segments[0], segments[1..];
      SegmentsAfterFirst(segments);
      if more != [] { ChunkHasLines(g); }
      LastOfMore(done, ChunkOf(g));
      var tail := AllSegmentLines(more) + rest;
      Associates(SegmentLines(g), AllSegmentLines(more), rest);
      SegmentIsRead(g, tail, done);
      SegmentsAreRead(more, rest, done + [ChunkOf(g)]);
      Associates(done, [ChunkOf(g)], ChunksOf(more));
    }
  }

  // ----- What is read is of the grammar -----

  const NO_LINES := Segment(None, [], None, [])

  /** What continues the last chunk. */
  ghost predicate GoodRest(g: Segment, c: Chunk)
  {
    && g.mark.None? && AllPlain(g.lines) && AllBlank(g.blanks)
    && (c.endOfFile ==> g.lines == [] && g.end.None?)
    && (g.end.Some? ==> IsEnd(g.end.value) && !EmptyChunk(Extended(c, g)))
    && (!c.endOfFile && g.end.None? ==> g.blanks == [])
  }

  ghost predicate AllMarked(segments: seq<Segment>)
  {
    GoodSegments(segments) && forall i :: 0 <= i < |segments| ==> segments[i].mark.Some?
  }

  /** The lines continue the last chunk, go on with marked segments, and end before the rest. */
  ghost predicate Continues(body: seq<string>, done: seq<Chunk>, c: Chunk, g: Segment, segments: seq<Segment>, rest: seq<string>)
  {
    && GoodRest(g, c) && AllMarked(segments) && (segments != [] ==> !EmptyChunk(Extended(c, g)))
    && body == g.lines + Ending(g) + (AllSegmentLines(segments) + rest) && (rest == [] || IsStop(rest[0]))
    && UpdateBody(body, done + [c]) == Ok(Taken(done + [Extended(c, g)] + ChunksOf(segments), rest))
  }

  lemma ExtendedByNothing(c: Chunk)
    ensures Extended(c, NO_LINES) == c && Ending(NO_LINES) == [] && GoodRest(NO_LINES, c)
  {
    NoTexts();
    assert c.oldLines + [] == c.oldLines && c.newLines + [] == c.newLines;
  }

  lemma ContinuesNot(body: seq<string>, done: seq<Chunk>, c: Chunk)
    requires body == [] || IsStop(body[0])
    ensures Continues(body, done, c, NO_LINES, [], body)
  {
    ExtendedByNothing(c);
    if body != [] { LineIsTaken(body[0]); }
    assert [] + [] + ([] + body) == body;
    assert done + [c] + [] == done + [c];
  }

  lemma ContinuesWithBlank(raw: string, body: seq<string>, done: seq<Chunk>, c: Chunk, g: Segment, segments: seq<Segment>, rest: seq<string>)
    requires IsBlank(raw) && c.endOfFile && Continues(body, done, c, g, segments, rest)
    ensures Continues([raw] + body, done, c, g.(blanks := [raw] + g.blanks), segments, rest)
  {
    hide IsBlank, IsPlain, IsStop, UpdateBody, AllSegmentLines, OldTexts, NewTexts, ChunksOf, AllMarked;
    assert Last(done + [c]) == c;
    BlankIsRead(raw, body, done + [c]);
    var tail := AllSegmentLines(segments) + rest;
    assert g.lines == [] && g.end.None?;
    assert [raw] + body == [raw] + g.blanks + tail;
  }

  lemma LineFirst(raw: string, g: Segment, tail: seq<string>)
    ensures [raw] + (g.lines + Ending(g) + tail) == g.(lines := [raw] + g.lines).lines + Ending(g.(lines := [raw] + g.lines)) + tail
  {
    assert Ending(g.(lines := [raw] + g.lines)) == Ending(g);
    hide Ending;
    assert [raw] + (g.lines + Ending(g) + tail) == [raw] + g.lines + Ending(g) + tail;
  }

  lemma LineIsGood(raw: string, c: Chunk, g: Segment)
    requires IsPlain(raw) && !c.endOfFile && GoodRest(g, Extended(c, Segment(None, [raw], None, [])))
    ensures GoodRest(g.(lines := [raw] + g.lines), c)
  {
    ExtendedTwice(c, raw, g);
    hide IsBlank, IsPlain, IsEnd, EmptyChunk, Extended;
  }

  lemma ContinuesWithLine(raw: string, body: seq<string>, done: seq<Chunk>, c: Chunk, g: Segment, segments: seq<Segment>, rest: seq<string>)
    requires IsPlain(raw) && !c.endOfFile
    requires Continues(body, done, Extended(c, Segment(None, [raw], None, [])), g, segments, rest)
    ensures Continues([raw] + body, done, c, g.(lines := [raw] + g.lines), segments, rest)
  {
    PlainIsRead(raw, body, done, c);
    ExtendedTwice(c, raw, g);
    LineIsGood(raw, c, g);
    LineFirst(raw, g, AllSegmentLines(segments) + rest);
    hide IsPlain, IsStop, UpdateBody, AllSegmentLines, ChunksOf, AllMarked, Extended, EmptyChunk, GoodRest, Ending;
  }

  lemma ExtendedTwice(c: Chunk, raw: string, g: Segment)
    requires !c.endOfFile
    ensures Extended(Extended(c, Segment(None, [raw], None, [])), g) == Extended(c, g.(lines := [raw] + g.lines))
    ensures !Extended(c, Segment(None, [raw], None, [])).endOfFile
  {
    var lines := [raw] + g.lines;
    TextsFirst(lines);
    hide OldTexts, NewTexts;
    assert lines[..1] == [raw] && lines[1..] == g.lines;
    Associates(c.oldLines, OldTexts([raw]), OldTexts(g.lines));
    Associates(c.newLines, NewTexts([raw]), NewTexts(g.lines));
  }

  lemma ContinuesWithEnd(raw: string, body: seq<string>, done: seq<Chunk>, c: Chunk, g: Segment, segments: seq<Segment>, rest: seq<string>)
    requires IsEnd(raw) && !c.endOfFile && !EmptyChunk(c)
    requires Continues(body, done, c.(endOfFile := true), g, segments, rest)
    ensures Continues([raw] + body, done, c, g.(end := Some(raw)), segments, rest)
  {
    NoTexts();
    hide IsBlank, IsPlain, IsEnd, IsStop, UpdateBody, AllSegmentLines, OldTexts, NewTexts, ChunksOf, AllMarked;
    EndIsRead(raw, body, done, c);
    var tail := AllSegmentLines(segments) + rest;
    assert g.lines == [] && g.end.None?;
    assert [raw] + body == [raw] + g.blanks + tail;
    assert c.oldLines + [] == c.oldLines && c.newLines + [] == c.newLines;
  }

  lemma ContinuesWithMark(raw: string, body: seq<string>, done: seq<Chunk>, c: Chunk, g: Segment, segments: seq<Segment>, rest: seq<string>)
    requires IsMark(raw) && !EmptyChunk(c)
    requires Continues(body, done + [c], Chunk(ContextOf(Some(raw)), [], [], false), g, segments, rest)
    ensures Continues([raw] + body, done, c, NO_LINES, [g.(mark := Some(raw))] + segments, rest)
  {
    hide IsMark, IsStop, UpdateBody, AllMarked, ContextOf, GoodRest, AllSegmentLines, ChunksOf, ChunkOf, Extended, Ending, EmptyChunk;
    var begun := Chunk(ContextOf(Some(raw)), [], [], false);
    var all := [g.(mark := Some(raw))] + segments;
    ExtendedByNothing(c);
    LastOfMore(done, c);
    MarkIsRead(raw, body, done + [c]);
    MarkedSegment(raw, g, segments);
    GoodRestHasNoMark(g, begun);
    FirstLines(Some(raw), g, segments, rest);
    NothingFirst(AllSegmentLines(all) + rest);
    Associates(done + [c], [Extended(begun, g)], ChunksOf(segments));
  }

  lemma GoodRestHasNoMark(g: Segment, c: Chunk)
    requires GoodRest(g, c)
    ensures g.mark.None?
  {
  }

  lemma LastOfMore(done: seq<Chunk>, c: Chunk)
    ensures Last(done + [c]) == c && (LastIsEmpty(done + [c]) <==> EmptyChunk(c)) && (AfterEnd(done + [c]) <==> c.endOfFile)
  {
  }

  /** A continuation of a fresh chunk is a segment once it has its mark. */
  lemma MarkedSegment(raw: string, g: Segment, segments: seq<Segment>)
    requires IsMark(raw) && AllMarked(segments)
    requires var begun := Chunk(ContextOf(Some(raw)), [], [], false);
             GoodRest(g, begun) && (segments != [] ==> !EmptyChunk(Extended(begun, g)))
    ensures AllMarked([g.(mark := Some(raw))] + segments)
    ensures ChunkOf(g.(mark := Some(raw))) == Extended(Chunk(ContextOf(Some(raw)), [], [], false), g)
  {
    NoTexts();
    hide IsBlank, IsPlain, IsEnd, IsMark, OldTexts, NewTexts, ContextOf;
    var first := g.(mark := Some(raw));
    assert g.lines == [] ==> EmptyChunk(Extended(Chunk(ContextOf(Some(raw)), [], [], false), g));
    assert GoodSegment(first);
    var all := [first] + segments;
    assert forall i :: 0 < i < |all| ==> all[i] == segments[i - 1];
  }

  /** How a line that was taken reads by its characters. */
  lemma TakenLine(raw: string, done: seq<Chunk>, c: Chunk)
    requires !BodyLineOf(raw).Stop? && TakeLine(raw, done + [c]).Ok?
    ensures (c.endOfFile && IsBlank(raw)) || (IsMark(raw) && !EmptyChunk(c)) || (IsEnd(raw) && !c.endOfFile && !EmptyChunk(c))
            || (IsPlain(raw) && !c.endOfFile)
  {
    LineIsTaken(raw);
    assert Last(done + [c]) == c;
    hide BodyLineOf, Strip, RStrip, IsMark, IsPlain, IsStop, IsEnd;
  }

  lemma {:induction false} RestIsOfTheGrammar(body: seq<string>, done: seq<Chunk>, c: Chunk)
    returns (g: Segment, segments: seq<Segment>, rest: seq<string>)
    requires UpdateBody(body, done + [c]).Ok?
    ensures Continues(body, done, c, g, segments, rest)
    decreases |body|
  {
    hide Continues, IsBlank, IsPlain, IsEnd, IsMark, IsStop, BodyLineOf, TakeLine, EmptyChunk;
    if body == [] {
      ContinuesNot(body, done, c);
      return NO_LINES, [], body;
    }
    var raw, tail := body[0], body[1..];
    LineIsTaken(raw);
    if IsStop(raw) {
      ContinuesNot(body, done, c);
      return NO_LINES, [], body;
    }
    TakenLine(raw, done, c);
    assert body == [raw] + tail;
    if c.endOfFile && IsBlank(raw) {
      assert Last(done + [c]) == c;
      BlankIsRead(raw, tail, done + [c]);
      g, segments, rest := RestIsOfTheGrammar(tail, done, c);
      ContinuesWithBlank(raw, tail, done, c, g, segments, rest);
      g := g.(blanks := [raw] + g.blanks);
    } else if IsMark(raw) && !EmptyChunk(c) {
      assert Last(done + [c]) == c;
      MarkIsRead(raw, tail, done + [c]);
      g, segments, rest := RestIsOfTheGrammar(tail, done + [c], Chunk(ContextOf(Some(raw)), [], [], false));
      ContinuesWithMark(raw, tail, done, c, g, segments, rest);
      g, segments := NO_LINES, [g.(mark := Some(raw))] + segments;
    } else if IsEnd(raw) && !EmptyChunk(c) && !c.endOfFile {
      EndIsRead(raw, tail, done, c);
      g, segments, rest := RestIsOfTheGrammar(tail, done, c.(endOfFile := true));
      ContinuesWithEnd(raw, tail, done, c, g, segments, rest);
      g := g.(end := Some(raw));
    } else {
      PlainIsRead(raw, tail, done, c);
      g, segments, rest := RestIsOfTheGrammar(tail, done, Extended(c, Segment(None, [raw], None, [])));
      ContinuesWithLine(raw, tail, done, c, g, segments, rest);
      g := g.(lines := [raw] + g.lines);
    }
  }

  // ----- The lines of an update hunk -----

  /** These chunk lines come before the rest. */
  ghost predicate IsUpdateBody(body: seq<string>, segments: seq<Segment>, rest: seq<string>)
  {
    GoodSegments(segments) && body == AllSegmentLines(segments) + rest && (rest == [] || IsStop(rest[0]))
  }

  lemma NoSegments(body: seq<string>)
    requires body == [] || IsStop(body[0])
    ensures IsUpdateBody(body, [], body) && UpdateBody(body, []) == Ok(Taken(ChunksOf([]), body))
  {
    if body != [] { LineIsTaken(body[0]); }
    assert [] + body == body;
  }

  /** A continuation of a first chunk that holds no line yet. */
  lemma FirstSegment(body: seq<string>, mark: Option<string>, g: Segment, segments: seq<Segment>, rest: seq<string>)
    requires Continues(body, [], Chunk(ContextOf(mark), [], [], false), g, segments, rest)
    requires if mark.Some? then IsMark(mark.value) else g.lines != []
    ensures IsUpdateBody(Optional(mark) + body, [g.(mark := mark)] + segments, rest)
    ensures UpdateBody(body, [Chunk(ContextOf(mark), [], [], false)]) == Ok(Taken(ChunksOf([g.(mark := mark)] + segments), rest))
  {
    var c, first := Chunk(ContextOf(mark), [], [], false), g.(mark := mark);
    FirstIsGood(mark, g, segments);
    FirstLines(mark, g, segments, rest);
    hide IsStop, IsMark, UpdateBody, AllMarked, ContextOf, GoodRest, ChunkOf, Extended, GoodSegments, SegmentLines, AllSegmentLines, Ending;
    hide ChunksOf;
    assert [] + [c] == [c] && [] + [Extended(c, g)] == [Extended(c, g)];
  }

  lemma FirstLines(mark: Option<string>, g: Segment, segments: seq<Segment>, rest: seq<string>)
    requires g.mark.None?
    ensures var all := [g.(mark := mark)] + segments;
            Optional(mark) + (g.lines + Ending(g) + (AllSegmentLines(segments) + rest)) == AllSegmentLines(all) + rest
            && ChunksOf(all) == [ChunkOf(g.(mark := mark))] + ChunksOf(segments)
  {
    hide ChunkOf, IsMark;
    var first := g.(mark := mark);
    var all := [first] + segments;
    assert all[1..] == segments && all[0] == first;
    assert SegmentLines(first) == Optional(mark) + (g.lines + Ending(g));
    hide SegmentLines, Ending;
    var lines, tail := g.lines + Ending(g), AllSegmentLines(segments);
    Associates(Optional(mark) + lines, tail, rest);
    Associates(Optional(mark), lines, tail + rest);
  }

  lemma FirstIsGood(mark: Option<string>, g: Segment, segments: seq<Segment>)
    requires AllMarked(segments) && (if mark.Some? then IsMark(mark.value) else g.lines != [])
    requires var c := Chunk(ContextOf(mark), [], [], false);
             GoodRest(g, c) && (segments != [] ==> !EmptyChunk(Extended(c, g)))
    ensures GoodSegments([g.(mark := mark)] + segments)
    ensures ChunkOf(g.(mark := mark)) == Extended(Chunk(ContextOf(mark), [], [], false), g)
  {
    NoTexts();
    hide IsBlank, IsPlain, IsEnd, IsMark, OldTexts, NewTexts, ContextOf;
    assert g.lines == [] ==> EmptyChunk(Extended(Chunk(ContextOf(mark), [], [], false), g));
    assert GoodSegment(g.(mark := mark));
    var all := [g.(mark := mark)] + segments;
    assert forall i :: 0 < i < |all| ==> all[i] == segments[i - 1];
  }

  /** How a first line that was taken reads by its characters. */
  lemma TakenFirst(raw: string)
    requires !BodyLineOf(raw).Stop? && TakeLine(raw, []).Ok?
    ensures IsMark(raw) || (IsPlain(raw) && !IsMark(raw))
  {
    LineIsTaken(raw);
    hide BodyLineOf, Strip, RStrip, IsPlain, IsStop, IsEnd, IsMark;
  }

  lemma PlainIsNoMark(raw: string)
    requires IsPlain(raw)
    ensures !IsMark(raw) && !IsEnd(raw) && !IsStop(raw)
  {
    LineIsTaken(raw);
    hide BodyLineOf, Strip, RStrip, IsPlain, IsStop, IsEnd, IsMark;
  }

  lemma UpdateBodyIsOfTheGrammar(body: seq<string>) returns (segments: seq<Segment>, rest: seq<string>)
    requires UpdateBody(body, []).Ok?
    ensures IsUpdateBody(body, segments, rest) && UpdateBody(body, []) == Ok(Taken(ChunksOf(segments), rest))
  {
    hide IsPlain, IsMark, IsStop, BodyLineOf, TakeLine, IsUpdateBody, Continues, GoodRest;
    if body == [] || IsStop(body[0]) {
      NoSegments(body);
      return [], body;
    }
    var raw, tail, g := body[0], body[1..], NO_LINES;
    LineIsTaken(raw);
    TakenFirst(raw);
    assert body == [raw] + tail;
    if IsMark(raw) {
      var c := Chunk(ContextOf(Some(raw)), [], [], false);
      MarkIsRead(raw, tail, []);
      assert [] + [c] == [c];
      g, segments, rest := RestIsOfTheGrammar(tail, [], c);
      FirstSegment(tail, Some(raw), g, segments, rest);
      segments := [g.(mark := Some(raw))] + segments;
    } else {
      PlainIsRead(raw, tail, [], FIRST_CHUNK);
      assert [] + [FIRST_CHUNK] == [FIRST_CHUNK];
      g, segments, rest := RestIsOfTheGrammar(body, [], FIRST_CHUNK);
      StartsWithLine(body, g, segments, rest);
      FirstSegment(body, None, g, segments, rest);
      assert Optional(None) + body == body;
      segments := [g.(mark := None)] + segments;
    }
  }

  lemma StartsWithLine(body: seq<string>, g: Segment, segments: seq<Segment>, rest: seq<string>)
    requires Continues(body, [], FIRST_CHUNK, g, segments, rest) && body != [] && IsPlain(body[0])
    ensures g.lines != []
  {
    PlainIsNoMark(body[0]);
    hide IsPlain, IsMark, IsStop, IsEnd, UpdateBody, OldTexts, NewTexts;
    NoTexts();
    assert g.lines == [] ==> EmptyChunk(Extended(FIRST_CHUNK, g)) && Ending(g) == [];
    assert segments == [] ==> AllSegmentLines(segments) + rest == rest;
  }

  /** The chunk lines of an update hunk are read exactly when they are of the grammar, and then as what they say. */
  lemma UpdateBodyIff(body: seq<string>, chunks: seq<Chunk>, rest: seq<string>)
    ensures UpdateBody(body, []) == Ok(Taken(chunks, rest)) <==>
            exists segments :: IsUpdateBody(body, segments, rest) && chunks == ChunksOf(segments)
  {
    hide UpdateBody, GoodSegments, AllSegmentLines, IsStop;
    if UpdateBody(body, []).Ok? {
      var segments, tail := UpdateBodyIsOfTheGrammar(body);
      assert UpdateBody(body, []) == Ok(Taken(chunks, rest)) ==> IsUpdateBody(body, segments, rest) && chunks == ChunksOf(segments);
    }
    forall segments | IsUpdateBody(body, segments, rest) ensures UpdateBody(body, []) == Ok(Taken(ChunksOf(segments), rest)) {
      SegmentsAreRead(segments, rest, []);
      assert [] + ChunksOf(segments) == ChunksOf(segments);
    }
  }

  // ----- Hunks -----

  predicate IsHead(line: string)
  {
    "*** Add File: " <= Strip(line) || "*** Delete File: " <= Strip(line) || "*** Update File: " <= Strip(line)
  }

  predicate IsMove(line: string) { "*** Move to: " <= Strip(line) }

  lemma PathFollows(line: string, marker: string)
    requires marker != "" && IsSpace(marker[|marker| - 1]) && marker <= Strip(line)
    ensures PathAfter(line, marker) != ""
  {
    hide Strip;
    StripTrims(line);
    var path := Strip(line)[|marker|..];
    assert path != "" && !IsSpace(path[|path| - 1]);
    StripTrims(path);
  }

  lemma HeadIsTaken(line: string)
    ensures IsHead(line) ==> StopsAt([line])
    ensures "*** Add File: " <= Strip(line) <==> HeadingOf(line).AddTo?
    ensures "*** Delete File: " <= Strip(line) <==> HeadingOf(line).DeleteOf?
    ensures "*** Update File: " <= Strip(line) <==> HeadingOf(line).UpdateOf?
    ensures "*** Add File: " <= Strip(line) ==> HeadingOf(line) == AddTo(PathAfter(line, "*** Add File: "))
    ensures "*** Delete File: " <= Strip(line) ==> HeadingOf(line) == DeleteOf(PathAfter(line, "*** Delete File: "))
    ensures "*** Update File: " <= Strip(line) ==> HeadingOf(line) == UpdateOf(PathAfter(line, "*** Update File: "))
  {
    hide Strip, RStrip;
    assert "*** Add File: "[4] == 'A' && "*** Delete File: "[4] == 'D' && "*** Update File: "[4] == 'U' && "*** Move to: "[4] == 'M';
    assert "*** End of File"[4] == 'E';
    assert IsHead(line) ==> Strip(line)[4] in {'A', 'D', 'U'};
  }

  lemma HeadHasPath(line: string)
    ensures "*** Add File: " <= Strip(line) ==> PathAfter(line, "*** Add File: ") != ""
    ensures "*** Delete File: " <= Strip(line) ==> PathAfter(line, "*** Delete File: ") != ""
    ensures "*** Update File: " <= Strip(line) ==> PathAfter(line, "*** Update File: ") != ""
  {
    hide Strip, PathAfter;
    if "*** Add File: " <= Strip(line) { PathFollows(line, "*** Add File: "); }
    if "*** Delete File: " <= Strip(line) { PathFollows(line, "*** Delete File: "); }
    if "*** Update File: " <= Strip(line) { PathFollows(line, "*** Update File: "); }
  }

  lemma MoveIsTaken(line: string)
    ensures MoveOf(line) == if IsMove(line) then Some(PathAfter(line, "*** Move to: ")) else None
    ensures IsPlain(line) || IsMark(line) || IsHead(line) ==> !IsMove(line)
  {
    if IsMark(line) { MarkIsNotStarred(line); }
    hide Strip, RStrip, IsMark;
    assert IsMove(line) ==> Strip(line)[4] == 'M' && "*** " <= Strip(line);
    assert "*** Add File: "[4] == 'A' && "*** Delete File: "[4] == 'D' && "*** Update File: "[4] == 'U';
  }

  lemma MarkIsNotStarred(line: string)
    requires IsMark(line)
    ensures !("*** " <= Strip(line))
  {
    RStripEnds(line);
    StripTrims(line);
    hide Strip, RStrip;
    assert RStrip(line)[0] == '@' == line[0];
  }

  lemma {:induction false} AddedIsPrefixed(lines: seq<string>)
    requires AllAdded(lines)
    ensures lines == Prefixed('+', Tails(lines))
    decreases |lines|
  {
    if lines != [] {
      AddedIsPrefixed(lines[1..]);
      assert lines[0] == ['+'] + lines[0][1..] && lines == [lines[0]] + lines[1..];
    }
  }

  lemma AddLinesStep(body: seq<string>, done: seq<string>)
    requires body != [] && !Starred(body[0]) && AddLines(body, done).Ok?
    ensures "+" <= body[0] && AddLines(body, done) == AddLines(body[1..], done + [body[0][1..]])
  {
    hide Starred;
  }

  lemma AddLinesStop(body: seq<string>, done: seq<string>)
    requires body == [] || Starred(body[0])
    ensures AddLines(body, done) == Ok(Taken(done, body))
  {
    hide Starred;
  }

  lemma TailsFirst(line: string, lines: seq<string>)
    requires "+" <= line && AllAdded(lines)
    ensures AllAdded([line] + lines) && Tails([line] + lines) == [line[1..]] + Tails(lines)
  {
    assert ([line] + lines)[1..] == lines;
  }

  lemma {:induction false} AddLinesAreOfTheGrammar(body: seq<string>, done: seq<string>) returns (lines: seq<string>, rest: seq<string>)
    requires AddLines(body, done).Ok?
    ensures AllAdded(lines) && body == lines + rest && AddLines(body, done) == Ok(Taken(done + Tails(lines), rest))
    ensures rest == [] || Starred(rest[0])
    decreases |body|
  {
    hide Starred, AddLines, Tails, AllAdded;
    if body == [] || Starred(body[0]) {
      AddLinesStop(body, done);
      NoTails();
      lines, rest := [], body;
      assert [] + body == body && done + [] == done;
    } else {
      AddLinesStep(body, done);
      lines, rest := AddLinesAreOfTheGrammar(body[1..], done + [body[0][1..]]);
      Associates(done, [body[0][1..]], Tails(lines));
      TailsFirst(body[0], lines);
      Associates([body[0]], lines, rest);
      assert body == [body[0]] + body[1..];
      lines := [body[0]] + lines;
    }
  }

  lemma NoTails()
    ensures AllAdded([]) && Tails([]) == []
  {
  }

  lemma AddItemIsRead(head: string, lines: seq<string>, tail: seq<string>)
    requires GoodItem(AddItem(head, lines)) && StopsAt(tail)
    ensures OneHunk([head] + lines + tail) == Ok(Taken(HunkOf(AddItem(head, lines)), tail))
  {
    HeadIsTaken(head);
    HeadHasPath(head);
    hide HeadingOf, StopsAt, AddLines, Strip, PathAfter, Join, Prefixed;
    AddedIsPrefixed(lines);
    ReadAddLines(Tails(lines), tail, []);
    assert ([head] + lines + tail)[1..] == lines + tail && ([head] + lines + tail)[0] == head;
    assert [] + Tails(lines) == Tails(lines);
  }

  lemma DeleteItemIsRead(head: string, tail: seq<string>)
    requires GoodItem(DeleteItem(head))
    ensures OneHunk([head] + tail) == Ok(Taken(HunkOf(DeleteItem(head)), tail))
  {
    HeadIsTaken(head);
    HeadHasPath(head);
    hide HeadingOf, Strip, PathAfter;
    assert ([head] + tail)[1..] == tail && ([head] + tail)[0] == head;
  }

  lemma SegmentBegins(g: Segment)
    requires GoodSegment(g) && (g.mark.None? ==> g.lines != [])
    ensures SegmentLines(g) != [] && (IsMark(SegmentLines(g)[0]) || IsPlain(SegmentLines(g)[0]))
  {
    assert g.mark.None? ==> g.lines[0] in g.lines && SegmentLines(g)[0] == g.lines[0];
    hide IsMark, IsPlain, IsBlank, IsEnd;
  }

  /** The line after the heading of an update that does not move announces no move. */
  lemma NoMoveFollows(segments: seq<Segment>, tail: seq<string>)
    requires GoodSegments(segments) && (tail == [] || IsHead(tail[0]))
    ensures var lines := AllSegmentLines(segments) + tail; lines == [] || !IsMove(lines[0])
  {
    if segments != [] {
      SegmentsAfterFirst(segments);
      SegmentBegins(segments[0]);
      hide IsMove, IsHead, IsPlain, IsMark, GoodSegments, GoodSegment, SegmentLines;
      MoveIsTaken(SegmentLines(segments[0])[0]);
      assert (AllSegmentLines(segments) + tail)[0] == SegmentLines(segments[0])[0];
    } else {
      hide IsMove, IsHead;
      assert AllSegmentLines(segments) + tail == tail;
      if tail != [] { MoveIsTaken(tail[0]); }
    }
  }

  lemma {:induction false} ChangesIff(segments: seq<Segment>)
    requires forall g :: g in segments ==> GoodSegment(g)
    ensures NothingChanges(ChunksOf(segments)) <==> forall g :: g in segments ==> g.lines == []
    decreases |segments|
  {
    if segments != [] {
      var g := segments[0];
      assert g in segments;
      if g.lines != [] { ChunkHasLines(g); } else { NoTexts(); }
      ChangesIff(segments[1..]);
      assert forall c :: c in ChunksOf(segments) <==> c == ChunkOf(g) || c in ChunksOf(segments[1..]);
      assert forall f :: f in segments <==> f == g || f in segments[1..];
    }
  }

  /** What follows the heading of an update, with a move announced or not. */
  lemma MoveIsRead(move: Option<string>, lines: seq<string>)
    requires if move.Some? then IsMove(move.value) else lines == [] || !IsMove(lines[0])
    ensures var body := Optional(move) + lines;
            var path := if body != [] then MoveOf(body[0]) else None;
            && path == (if move.Some? then Some(PathAfter(move.value, "*** Move to: ")) else None)
            && path.Some? == move.Some? && body[if path.Some? then 1 else 0..] == lines
  {
    var body := Optional(move) + lines;
    if body != [] { MoveIsTaken(body[0]); }
    hide IsMove, MoveOf, PathAfter;
    if move.Some? { assert body[1..] == lines; } else { assert body == lines; }
  }

  /** An update hunk, from what its heading, its move line and its chunk lines are read as. */
  lemma UpdateIsRead(head: string, path: string, body: seq<string>, chunks: seq<Chunk>, rest: seq<string>)
    requires HeadingOf(head) == UpdateOf(path) && path != ""
    requires var move := if body != [] then MoveOf(body[0]) else None;
             UpdateBody(body[if move.Some? then 1 else 0..], []) == Ok(Taken(chunks, rest))
    ensures var move := if body != [] then MoveOf(body[0]) else None;
            OneHunk([head] + body) == if NothingChanges(chunks) then Err(NoChanges(path)) else Ok(Taken(Update(path, move, chunks), rest))
  {
    hide HeadingOf, MoveOf, UpdateBody, NothingChanges;
    var all := [head] + body;
    assert all[0] == head && all[1..] == body;
    if body != [] { assert all[1] == body[0] && all[2..] == body[1..]; }
  }

  lemma UpdateItemIsRead(head: string, move: Option<string>, segments: seq<Segment>, tail: seq<string>)
    requires GoodItem(UpdateItem(head, move, segments)) && (tail == [] || IsHead(tail[0]))
    ensures OneHunk([head] + (Optional(move) + AllSegmentLines(segments)) + tail) ==
            Ok(Taken(HunkOf(UpdateItem(head, move, segments)), tail))
  {
    HeadIsTaken(head);
    HeadHasPath(head);
    if tail != [] { HeadIsTaken(tail[0]); LineIsTaken(tail[0]); }
    UpdateItemIsGood(head, move, segments);
    if move.None? { NoMoveFollows(segments, tail); }
    hide HeadingOf, MoveOf, UpdateBody, BodyLineOf, Strip, PathAfter, GoodSegments, NothingChanges, ChunksOf, IsHead, IsMove, AllSegmentLines;
    hide GoodItem;
    var lines := AllSegmentLines(segments) + tail;
    SegmentsAreRead(segments, tail, []);
    assert [] + ChunksOf(segments) == ChunksOf(segments);
    MoveIsRead(move, lines);
    Associates([head], Optional(move) + AllSegmentLines(segments), tail);
    Associates(Optional(move), AllSegmentLines(segments), tail);
    UpdateIsRead(head, PathAfter(head, "*** Update File: "), Optional(move) + lines, ChunksOf(segments), tail);
  }

  lemma UpdateItemIsGood(head: string, move: Option<string>, segments: seq<Segment>)
    requires GoodItem(UpdateItem(head, move, segments))
    ensures GoodSegments(segments) && !NothingChanges(ChunksOf(segments)) && (move.Some? ==> IsMove(move.value))
    ensures "*** Update File: " <= Strip(head)
  {
    ChangesIff(segments);
    hide Strip, NothingChanges, ChunksOf, GoodSegment;
  }

  lemma UpdateItemIsOfTheGrammar(body: seq<string>) returns (item: Item, rest: seq<string>)
    requires body != [] && OneHunk(body).Ok? && HeadingOf(body[0]).UpdateOf?
    ensures GoodItem(item) && body == ItemLines(item) + rest && OneHunk(body) == Ok(Taken(HunkOf(item), rest))
  {
    var head, tail := body[0], body[1..];
    HeadIsTaken(head);
    if tail != [] { MoveIsTaken(tail[0]); }
    hide Strip, PathAfter, MoveOf, UpdateBody, NothingChanges, HeadingOf, IsMove;
    var moves := tail != [] && IsMove(tail[0]);
    var move := if moves then Some(tail[0]) else None;
    var lines := if moves then tail[1..] else tail;
    assert tail == Optional(move) + lines && body == [head] + tail;
    assert OneHunk(body).Ok? ==> UpdateBody(lines, []).Ok? by { if moves { assert body[2..] == lines; } }
    var segments;
    segments, rest := UpdateBodyIsOfTheGrammar(lines);
    MoveIsRead(move, lines);
    UpdateIsRead(head, PathAfter(head, "*** Update File: "), tail, ChunksOf(segments), rest);
    item := UpdateItem(head, move, segments);
    UpdateItemIsSound(head, move, segments, lines, rest);
    Associates(Optional(move), AllSegmentLines(segments), rest);
    Associates([head], Optional(move) + AllSegmentLines(segments), rest);
  }

  lemma UpdateItemIsSound(head: string, move: Option<string>, segments: seq<Segment>, lines: seq<string>, rest: seq<string>)
    requires "*** Update File: " <= Strip(head) && (move.Some? ==> IsMove(move.value))
    requires IsUpdateBody(lines, segments, rest) && !NothingChanges(ChunksOf(segments))
    ensures GoodItem(UpdateItem(head, move, segments)) && lines == AllSegmentLines(segments) + rest
  {
    ChangesIff(segments);
    hide Strip, NothingChanges, ChunksOf, GoodSegment, AllSegmentLines;
  }

  lemma OneHunkIsOfTheGrammar(body: seq<string>) returns (item: Item, rest: seq<string>)
    requires body != [] && OneHunk(body).Ok?
    ensures GoodItem(item) && body == ItemLines(item) + rest && OneHunk(body) == Ok(Taken(HunkOf(item), rest))
  {
    var head, tail := body[0], body[1..];
    HeadIsTaken(head);
    assert body == [head] + tail;
    hide Strip, PathAfter, MoveOf, UpdateBody, NothingChanges, HeadingOf, AddLines, Join, GoodSegments;
    match HeadingOf(head)
    case AddTo(path) =>
      var lines;
      lines, rest := AddLinesAreOfTheGrammar(tail, []);
      assert [] + Tails(lines) == Tails(lines);
      item := AddItem(head, lines);
      Associates([head], lines, rest);
    case DeleteOf(path) =>
      item, rest := DeleteItem(head), tail;
    case UpdateOf(path) =>
      item, rest := UpdateItemIsOfTheGrammar(body);
    case NoHeading =>
  }

  lemma ItemBegins(item: Item)
    requires GoodItem(item)
    ensures IsHead(ItemLines(item)[0])
  {
    hide Strip;
  }

  lemma ItemsAfterFirst(items: seq<Item>)
    requires GoodItems(items) && items != []
    ensures GoodItem(items[0]) && GoodItems(items[1..])
  {
    hide GoodItem;
  }

  lemma ItemIsRead(item: Item, tail: seq<string>)
    requires GoodItem(item) && (tail == [] || IsHead(tail[0]))
    ensures OneHunk(ItemLines(item) + tail) == Ok(Taken(HunkOf(item), tail))
  {
    TailStops(tail);
    hide OneHunk, GoodItem, HunkOf, IsHead, StopsAt;
    match item
    case AddItem(head, lines) => AddItemIsRead(head, lines, tail);
    case DeleteItem(head) => DeleteItemIsRead(head, tail);
    case UpdateItem(head, move, segments) => UpdateItemIsRead(head, move, segments, tail);
  }

  lemma TailStops(tail: seq<string>)
    requires tail == [] || IsHead(tail[0])
    ensures StopsAt(tail)
  {
    if tail != [] { HeadIsTaken(tail[0]); }
    hide IsHead, BodyLineOf, Starred, MoveOf;
  }

  lemma HunksGo(body: seq<string>, done: seq<Hunk>)
    requires body != [] && OneHunk(body).Ok?
    ensures Hunks(body, done) == Hunks(OneHunk(body).value.rest, done + [OneHunk(body).value.item])
  {
    hide OneHunk;
  }

  lemma {:induction false} ItemsAreRead(items: seq<Item>, done: seq<Hunk>)
    requires GoodItems(items)
    ensures Hunks(AllItemLines(items), done) == Ok(done + HunksOf(items))
    ensures items != [] ==> AllItemLines(items) != [] && IsHead(AllItemLines(items)[0])
    decreases |items|
  {
    hide OneHunk, GoodItem, HunkOf, ItemLines, IsHead;
    if items == [] {
      assert done + HunksOf(items) == done;
    } else {
      var item, more := items[0], items[1..];
      ItemsAfterFirst(items);
      ItemsAreRead(more, done + [HunkOf(item)]);
      ItemBegins(item);
      ItemIsRead(item, AllItemLines(more));
      HunksGo(AllItemLines(items), done);
      Associates(done, [HunkOf(item)], HunksOf(more));
    }
  }

  lemma {:induction false} HunksAreOfTheGrammar(body: seq<string>, done: seq<Hunk>) returns (items: seq<Item>)
    requires Hunks(body, done).Ok?
    ensures GoodItems(items) && body == AllItemLines(items) && Hunks(body, done) == Ok(done + HunksOf(items))
    decreases |body|
  {
    hide OneHunk, GoodItem, HunkOf, ItemLines;
    if body == [] {
      items := [];
      assert done + HunksOf(items) == done;
    } else {
      var item, rest := OneHunkIsOfTheGrammar(body);
      HunksGo(body, done);
      var more := HunksAreOfTheGrammar(rest, done + [HunkOf(item)]);
      items := [item] + more;
      assert items[1..] == more && items[0] == item;
      Associates(done, [HunkOf(item)], HunksOf(more));
    }
  }

  // ----- The envelope -----

  /** The lines of a patch frame the lines of its hunks; an environment line may come first and a blank line last. */
  ghost predicate Frames(lines: seq<string>, begin: string, env: Option<string>, body: seq<string>, end: string, blank: Option<string>)
  {
    && lines == [begin] + (Optional(env) + (body + ([end] + Optional(blank))))
    && Strip(begin) == "*** Begin Patch" && Strip(end) == "*** End Patch" && (blank.Some? ==> Strip(blank.value) == "")
    && (if env.Some? then "*** Environment ID: " <= env.value else body == [] || !("*** Environment ID: " <= body[0]))
  }

  lemma BodyIsFramed(lines: seq<string>) returns (begin: string, env: Option<string>, end: string, blank: Option<string>)
    requires lines != [] && Body(lines).Ok?
    ensures Frames(lines, begin, env, Body(lines).value, end, blank)
  {
    assert BEGIN_MARKER != END_MARKER;
    hide Strip;
    blank := if Strip(lines[|lines| - 1]) == "" then Some(lines[|lines| - 1]) else None;
    var kept := if blank.Some? then lines[..|lines| - 1] else lines;
    begin, end := lines[0], kept[|kept| - 1];
    var inner := kept[1..|kept| - 1];
    env := if inner != [] && "*** Environment ID: " <= inner[0] then Some(inner[0]) else None;
    var body := Body(lines).value;
    assert body == if env.Some? then inner[1..] else inner;
    hide Body;
    LinesFramed(lines, kept, env, body, blank);
  }

  lemma LinesFramed(lines: seq<string>, kept: seq<string>, env: Option<string>, body: seq<string>, blank: Option<string>)
    requires lines == kept + Optional(blank) && |kept| >= 2 && kept[1..|kept| - 1] == Optional(env) + body
    ensures lines == [lines[0]] + (Optional(env) + (body + ([kept[|kept| - 1]] + Optional(blank))))
  {
    var begin, end := [kept[0]], [kept[|kept| - 1]];
    assert kept == begin + (Optional(env) + body) + end;
    Associates(body, end, Optional(blank));
    Associates(Optional(env), body, end + Optional(blank));
    Associates(begin, Optional(env) + body, end + Optional(blank));
    Associates(begin + (Optional(env) + body), end, Optional(blank));
  }

  lemma FrameIsRead(lines: seq<string>, begin: string, env: Option<string>, body: seq<string>, end: string, blank: Option<string>)
    requires Frames(lines, begin, env, body, end, blank)
    ensures lines != [] && Body(lines) == Ok(body)
  {
    hide Strip;
    var inner := Optional(env) + body;
    var kept := [begin] + (inner + [end]);
    FrameParts(lines, kept, begin, env, body, end, blank);
    assert (if Strip(lines[|lines| - 1]) == "" then lines[..|lines| - 1] else lines) == kept;
  }

  lemma FrameParts(lines: seq<string>, kept: seq<string>, begin: string, env: Option<string>, body: seq<string>, end: string,
                   blank: Option<string>)
    requires lines == [begin] + (Optional(env) + (body + ([end] + Optional(blank)))) && kept == [begin] + (Optional(env) + body + [end])
    ensures lines == kept + Optional(blank) && |kept| >= 2 && lines[0] == begin
    ensures kept[|kept| - 1] == end && kept[1..|kept| - 1] == Optional(env) + body
    ensures blank.Some? ==> lines[|lines| - 1] == blank.value && lines[..|lines| - 1] == kept
    ensures blank.None? ==> lines == kept
    ensures if env.Some? then (Optional(env) + body)[1..] == body && (Optional(env) + body)[0] == env.value else Optional(env) + body == body
  {
  }

  /** The text, out of its heredoc frame, is an envelope around these lines. */
  ghost predicate Envelops(text: string, body: seq<string>)
  {
    exists begin, env, end, blank :: Frames(Split(StripHeredoc(text), '\n'), begin, env, body, end, blank)
  }

  lemma PatchIsRead(text: string, items: seq<Item>)
    requires GoodItems(items) && Envelops(text, AllItemLines(items)) && |text| <= 2_000_000 && items != []
    ensures Parse(text) == Ok(HunksOf(items))
  {
    hide Frames, GoodItem, Body, Hunks, AllItemLines, Split, StripHeredoc;
    var begin, env, end, blank :| Frames(Split(StripHeredoc(text), '\n'), begin, env, AllItemLines(items), end, blank);
    FrameIsRead(Split(StripHeredoc(text), '\n'), begin, env, AllItemLines(items), end, blank);
    ItemsAreRead(items, []);
    assert [] + HunksOf(items) == HunksOf(items);
  }

  lemma ParsedIsPatch(text: string) returns (items: seq<Item>)
    requires Parse(text).Ok?
    ensures GoodItems(items) && Envelops(text, AllItemLines(items)) && |text| <= 2_000_000 && items != []
    ensures Parse(text) == Ok(HunksOf(items))
  {
    hide Frames, GoodItem, Body, Hunks, Split, StripHeredoc;
    var lines := Split(StripHeredoc(text), '\n');
    var begin, env, end, blank := BodyIsFramed(lines);
    items := HunksAreOfTheGrammar(Body(lines).value, []);
    assert [] + HunksOf(items) == HunksOf(items);
  }

  /** A text parses exactly when it is of the grammar, and then to the hunks its lines say: every line is accounted
      for, and nothing else is accepted. */
  lemma ParseIff(text: string, hunks: seq<Hunk>)
    ensures Parse(text) == Ok(hunks) <==>
            |text| <= 2_000_000
            && exists items :: items != [] && GoodItems(items) && Envelops(text, AllItemLines(items)) && hunks == HunksOf(items)
  {
    hide Parse, Envelops, GoodItems;
    if Parse(text).Ok? {
      var items := ParsedIsPatch(text);
      assert Parse(text) == Ok(hunks) ==> hunks == HunksOf(items);
    }
    forall items | items != [] && GoodItems(items) && Envelops(text, AllItemLines(items)) && |text| <= 2_000_000 && hunks == HunksOf(items)
      ensures Parse(text) == Ok(hunks)
    {
      PatchIsRead(text, items);
    }
  }

  // ----- The heredoc frame -----

  ghost predicate IsOpener(opener: string) { opener == "<<'EOF'" || opener == "<<\"EOF\"" || opener == "<<EOF" }

  /** A text in a heredoc frame is taken out of it. */
  lemma FrameIsTaken(text: string, opener: string, middle: string)
    requires IsOpener(opener) && Strip(text) == opener + middle + "EOF"
    ensures StripHeredoc(text) == Strip(middle)
  {
    hide Strip;
    var s := Strip(text);
    var n := |opener|;
    assert s[|s| - 3..] == "EOF" && s[n..|s| - 3] == middle && opener <= s;
    assert s[2] == opener[2] && "<<'EOF'"[2] == '\'' && "<<\"EOF\""[2] == '"' && "<<EOF"[2] == 'E';
  }

  /** Any other text is only stripped, but for an opener that is its own end. */
  lemma NoFrameIsTaken(text: string)
    requires forall opener, middle :: IsOpener(opener) ==> Strip(text) != opener + middle + "EOF"
    ensures StripHeredoc(text) == if Strip(text) == "<<EOF" then "" else Strip(text)
  {
    var s := Strip(text);
    StripTrims(text);
    hide Strip, Trimmed;
    if StripHeredoc(text) != s {
      var opener := if "<<'EOF'" <= s then "<<'EOF'" else if "<<\"EOF\"" <= s then "<<\"EOF\"" else "<<EOF";
      var n := |opener|;
      if |s| < n + 3 { OpenerOverlaps(s, opener); } else { var _ := MiddleOf(s, opener); }
    }
  }

  lemma MiddleOf(s: string, opener: string) returns (middle: string)
    requires opener <= s && |s| >= |opener| + 3 && s[|s| - 3..] == "EOF"
    ensures s == opener + middle + "EOF"
  {
    middle := s[|opener|..|s| - 3];
  }

  lemma OpenerOverlaps(s: string, opener: string)
    requires IsOpener(opener) && opener <= s && |s| >= 3 && s[|s| - 3..] == "EOF" && |s| < |opener| + 3
    ensures s == "<<EOF"
  {
    var tail := s[|s| - 3..];
    assert s[|s| - 3] == tail[0] == 'E' && s[|s| - 2] == tail[1] == 'O' && s[|s| - 1] == tail[2] == 'F';
    OpenerLetters(opener);
  }

  lemma OpenerLetters(opener: string)
    requires IsOpener(opener)
    ensures if opener == "<<EOF" then opener[4] == 'F' && opener[3] == 'O'
            else |opener| == 7 && opener[6] in {'\'', '"'} && opener[5] == 'F' && opener[4] == 'O'
  {
  }

  // ----- What is refused -----

  /** The line an error names, and why it cannot stand where it does. */
  ghost predicate Deserves(e: PatchError, body: seq<string>)
  {
    match e
    case BadUpdateLine(line) => line in body && !IsStop(line) && !IsMark(line) && !IsEnd(line) && !IsPlain(line)
    case ContextAfterEnd(line) => line in body && !IsStop(line) && !IsMark(line) && !IsBlank(line)
    case UnexpectedEmptyChunk(line) => line in body && IsMark(line)
    case BadAddLine(line) => line in body && !("*** " <= Strip(line)) && !("+" <= line)
    case UnexpectedLine(line) => line in body && !IsHead(line)
    case EmptyUpdate => exists line :: line in body && IsEnd(line)
    case NoChanges(_) => true
    case _ => false
  }

  lemma DeservesInMore(e: PatchError, body: seq<string>, more: seq<string>)
    requires Deserves(e, body) && forall line :: line in body ==> line in more
    ensures Deserves(e, more)
  {
    hide IsStop, IsMark, IsEnd, IsPlain, IsBlank, IsHead, Strip;
  }

  lemma LineIsRefused(raw: string, chunks: seq<Chunk>)
    requires !IsStop(raw) && TakeLine(raw, chunks).Err?
    ensures Deserves(TakeLine(raw, chunks).error, [raw])
  {
    LineIsTaken(raw);
    hide BodyLineOf, Strip, RStrip, IsMark, IsPlain, IsStop, IsEnd, AddLine;
    assert raw in [raw];
    assert IsBlank(raw) <==> RStrip(raw) == "";
  }

  lemma {:induction false} UpdateBodyRefuses(body: seq<string>, chunks: seq<Chunk>)
    requires UpdateBody(body, chunks).Err?
    ensures Deserves(UpdateBody(body, chunks).error, body)
    decreases |body|
  {
    LineIsTaken(body[0]);
    hide TakeLine, BodyLineOf, Deserves, IsStop;
    if TakeLine(body[0], chunks).Err? {
      LineIsRefused(body[0], chunks);
      DeservesInMore(TakeLine(body[0], chunks).error, [body[0]], body);
    } else {
      UpdateBodyRefuses(body[1..], TakeLine(body[0], chunks).value);
      DeservesInMore(UpdateBody(body, chunks).error, body[1..], body);
    }
  }

  lemma {:induction false} AddLinesRefuse(body: seq<string>, done: seq<string>)
    requires AddLines(body, done).Err?
    ensures Deserves(AddLines(body, done).error, body)
    decreases |body|
  {
    if "+" <= body[0] {
      hide Deserves, Starred;
      AddLinesRefuse(body[1..], done + [body[0][1..]]);
      DeservesInMore(AddLines(body, done).error, body[1..], body);
    } else {
      hide Strip, IsStop, IsMark, IsEnd, IsPlain, IsBlank, IsHead;
    }
  }

  lemma OneHunkRefuses(body: seq<string>)
    requires body != [] && OneHunk(body).Err?
    ensures Deserves(OneHunk(body).error, body)
  {
    var head, tail := body[0], body[1..];
    HeadIsTaken(head);
    HeadHasPath(head);
    HeadIsHead(head);
    hide HeadingOf, MoveOf, AddLines, UpdateBody, NothingChanges, Strip, IsHead, PathAfter, IsStop, IsMark, IsEnd, IsPlain, IsBlank;
    match HeadingOf(head)
    case NoHeading =>
    case AddTo(_) =>
      AddLinesRefuse(tail, []);
      DeservesInMore(AddLines(tail, []).error, tail, body);
    case DeleteOf(_) =>
    case UpdateOf(_) =>
      var move := if |body| > 1 then MoveOf(body[1]) else None;
      var lines := body[if move.Some? then 2 else 1..];
      if UpdateBody(lines, []).Err? {
        UpdateBodyRefuses(lines, []);
        DeservesInMore(UpdateBody(lines, []).error, lines, body);
      }
  }

  lemma HeadIsHead(line: string)
    ensures IsHead(line) <==> HeadingOf(line) != NoHeading
  {
    HeadIsTaken(line);
  }

  lemma {:induction false} HunksRefuse(body: seq<string>, done: seq<Hunk>)
    requires Hunks(body, done).Err?
    ensures Deserves(Hunks(body, done).error, body)
    decreases |body|
  {
    hide OneHunk, Deserves;
    if OneHunk(body).Err? {
      OneHunkRefuses(body);
    } else {
      var item, rest := OneHunkIsOfTheGrammar(body);
      HunksRefuse(rest, done + [OneHunk(body).value.item]);
      DeservesInMore(Hunks(body, done).error, rest, body);
    }
  }

  /** Why a text is refused: it is too long, or not an envelope, or around nothing, or a line in it, which the
      error names, cannot stand where it does. */
  lemma RefusedFor(text: string)
    requires Parse(text).Err?
    ensures match Parse(text).error
            case TooLong => |text| > 2_000_000
            case NoBegin => Strip(Split(StripHeredoc(text), '\n')[0]) != "*** Begin Patch"
            case NoEnd => forall body :: !Envelops(text, body)
            case NoHunks => Envelops(text, [])
            case e => exists body :: Envelops(text, body) && Deserves(e, body)
  {
    var lines := Split(StripHeredoc(text), '\n');
    if Body(lines).Ok? {
      hide Frames, Body, Hunks, Split, StripHeredoc, Deserves, Strip;
      var begin, env, end, blank := BodyIsFramed(lines);
      var body := Body(lines).value;
      assert Envelops(text, body);
      if Hunks(body, []).Err? {
        HunksRefuse(body, []);
        NotTheEnvelope(Hunks(body, []).error, body);
      } else {
        var items := HunksAreOfTheGrammar(body, []);
        assert HunksOf(items) == [] ==> items == [];
      }
    } else {
      hide Frames, Hunks, Split, StripHeredoc, Deserves, Strip;
      forall body ensures !Envelops(text, body) {
        forall begin, env, end, blank ensures !Frames(lines, begin, env, body, end, blank) {
          if Frames(lines, begin, env, body, end, blank) { FrameIsRead(lines, begin, env, body, end, blank); }
        }
      }
    }
  }

  lemma NotTheEnvelope(e: PatchError, body: seq<string>)
    requires Deserves(e, body)
    ensures !e.TooLong? && !e.NoBegin? && !e.NoEnd? && !e.NoHunks?
  {
  }
}
