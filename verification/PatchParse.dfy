/** The patch envelope: its line grammar and its printed form (agent/ollama_code/codex_patch.py). */
module PatchParse {
  import opened Options
  import opened Text
  import opened PatchSplice

  const BEGIN_MARKER := "*** Begin Patch"
  const END_MARKER := "*** End Patch"
  const ADD_MARKER := "*** Add File: "
  const DELETE_MARKER := "*** Delete File: "
  const UPDATE_MARKER := "*** Update File: "
  const MOVE_MARKER := "*** Move to: "
  const EOF_MARKER := "*** End of File"
  const ENVIRONMENT_MARKER := "*** Environment ID: "
  const STARS := "*** "
  const MAX_PATCH_CHARS := 2_000_000

  datatype Hunk =
    | Add(path: string, contents: string)
    | Delete(path: string)
    | Update(path: string, movePath: Option<string>, chunks: seq<Chunk>)

  // ----- What a line says -----

  datatype Heading = AddTo(path: string) | DeleteOf(path: string) | UpdateOf(path: string) | NoHeading

  function HeadingOf(line: string): Heading
  {
    var marker := Strip(line);
    if ADD_MARKER <= marker then AddTo(Strip(marker[|ADD_MARKER|..]))
    else if DELETE_MARKER <= marker then DeleteOf(Strip(marker[|DELETE_MARKER|..]))
    else if UPDATE_MARKER <= marker then UpdateOf(Strip(marker[|UPDATE_MARKER|..]))
    else NoHeading
  }

  function MoveOf(line: string): Option<string>
  {
    if MOVE_MARKER <= Strip(line) then Some(Strip(Strip(line)[|MOVE_MARKER|..])) else None
  }

  predicate Starred(line: string) { STARS <= Strip(line) }

  datatype BodyLine =
    | Stop | At(context: Option<string>) | EndMark | Both(text: string) | New(text: string) | Old(text: string) | Bad

  function BodyLineOf(raw: string): BodyLine
  {
    var line := RStrip(raw);
    if Starred(raw) && Strip(raw) != EOF_MARKER then Stop
    else if line == "@@" then At(None)
    else if "@@ " <= line then At(Some(line[3..]))
    else if Strip(raw) == EOF_MARKER then EndMark
    else if raw == "" then Both("")
    else if raw[0] == ' ' then Both(raw[1..])
    else if raw[0] == '+' then New(raw[1..])
    else if raw[0] == '-' then Old(raw[1..])
    else Bad
  }

  // ----- Parsing -----

  /** What was taken off the front of the lines, and the lines after it. */
  datatype Taken<T> = Taken(item: T, rest: seq<string>)

  function AddLines(body: seq<string>, contents: seq<string>): (r: Result<Taken<seq<string>>>)
    ensures r.Ok? ==> |r.value.rest| <= |body|
    decreases |body|
  {
    if body == [] || Starred(body[0]) then Ok(Taken(contents, body))
    else if !("+" <= body[0]) then Err(BadAddLine(body[0]))
    else AddLines(body[1..], contents + [body[0][1..]])
  }

  function Last(chunks: seq<Chunk>): Chunk
    requires chunks != []
  {
    chunks[|chunks| - 1]
  }

  function WithLast(chunks: seq<Chunk>, chunk: Chunk): seq<Chunk>
    requires chunks != []
  {
    chunks[..|chunks| - 1] + [chunk]
  }

  predicate AfterEnd(chunks: seq<Chunk>) { chunks != [] && Last(chunks).endOfFile }

  predicate LastIsEmpty(chunks: seq<Chunk>) { chunks != [] && EmptyChunk(Last(chunks)) }

  const FIRST_CHUNK := Chunk(None, [], [], false)

  function AddLine(chunks: seq<Chunk>, removed: seq<string>, added: seq<string>): seq<Chunk>
  {
    var started := if chunks == [] then [FIRST_CHUNK] else chunks;
    var last := Last(started);
    WithLast(started, last.(oldLines := last.oldLines + removed, newLines := last.newLines + added))
  }

  /** One line of an update hunk. */
  function TakeLine(raw: string, chunks: seq<Chunk>): Result<seq<Chunk>>
  {
    var kind := BodyLineOf(raw);
    if AfterEnd(chunks) && RStrip(raw) == "" then Ok(chunks)
    else if AfterEnd(chunks) && !kind.At? then Err(ContextAfterEnd(raw))
    else
      match kind
      case At(context) =>
        if LastIsEmpty(chunks) then Err(UnexpectedEmptyChunk(raw)) else Ok(chunks + [Chunk(context, [], [], false)])
      case EndMark =>
        if chunks == [] || LastIsEmpty(chunks) then Err(EmptyUpdate)
        else Ok(WithLast(chunks, Last(chunks).(endOfFile := true)))
      case Both(text) => Ok(AddLine(chunks, [text], [text]))
      case New(text) => Ok(AddLine(chunks, [], [text]))
      case Old(text) => Ok(AddLine(chunks, [text], []))
      case _ => Err(BadUpdateLine(raw))
  }

  function UpdateBody(body: seq<string>, chunks: seq<Chunk>): (r: Result<Taken<seq<Chunk>>>)
    ensures r.Ok? ==> |r.value.rest| <= |body|
    decreases |body|
  {
    if body == [] || BodyLineOf(body[0]).Stop? then Ok(Taken(chunks, body))
    else
      match TakeLine(body[0], chunks)
      case Err(e) => Err(e)
      case Ok(more) => UpdateBody(body[1..], more)
  }

  predicate NothingChanges(chunks: seq<Chunk>) { forall c :: c in chunks ==> EmptyChunk(c) }

  function OneHunk(body: seq<string>): (r: Result<Taken<Hunk>>)
    requires body != []
    ensures r.Ok? ==> |r.value.rest| < |body|
  {
    match HeadingOf(body[0])
    case NoHeading => Err(UnexpectedLine(body[0]))
    case AddTo(path) =>
      if path == "" then Err(MissingPath)
      else
        (match AddLines(body[1..], [])
         case Err(e) => Err(e)
         case Ok(t) => Ok(Taken(Add(path, Join(t.item, '\n') + ['\n']), t.rest)))
    case DeleteOf(path) => if path == "" then Err(MissingPath) else Ok(Taken(Delete(path), body[1..]))
    case UpdateOf(path) =>
      if path == "" then Err(MissingPath)
      else
        var move := if |body| > 1 then MoveOf(body[1]) else None;
        match UpdateBody(body[if move.Some? then 2 else 1..], [])
        case Err(e) => Err(e)
        case Ok(t) => if NothingChanges(t.item) then Err(NoChanges(path)) else Ok(Taken(Update(path, move, t.item), t.rest))
  }

  function Hunks(body: seq<string>, hunks: seq<Hunk>): Result<seq<Hunk>>
    decreases |body|
  {
    if body == [] then Ok(hunks)
    else
      match OneHunk(body)
      case Err(e) => Err(e)
      case Ok(t) => Hunks(t.rest, hunks + [t.item])
  }

  /** Strips a text and unwraps the heredoc framing around it, if there is one. */
  function StripHeredoc(text: string): string
  {
    var stripped := Strip(text);
    if |stripped| < 3 || stripped[|stripped| - 3..] != "EOF" then stripped
    else if "<<'EOF'" <= stripped then Unwrap(stripped, 7)
    else if "<<\"EOF\"" <= stripped then Unwrap(stripped, 7)
    else if "<<EOF" <= stripped then Unwrap(stripped, 5)
    else stripped
  }

  function Unwrap(stripped: string, opener: nat): string
    requires |stripped| >= 3
  {
    if opener <= |stripped| - 3 then Strip(stripped[opener..|stripped| - 3]) else ""
  }

  /** The lines between the begin and end markers, without the environment line. */
  function Body(lines: seq<string>): Result<seq<string>>
    requires lines != []
  {
    if Strip(lines[0]) != BEGIN_MARKER then Err(NoBegin)
    else
      var kept := if Strip(lines[|lines| - 1]) == "" then lines[..|lines| - 1] else lines;
      if kept == [] || Strip(kept[|kept| - 1]) != END_MARKER then Err(NoEnd)
      else
        var body := if |kept| > 1 then kept[1..|kept| - 1] else [];
        Ok(if body != [] && ENVIRONMENT_MARKER <= body[0] then body[1..] else body)
  }

  function Parse(text: string): Result<seq<Hunk>>
  {
    if |text| > MAX_PATCH_CHARS then Err(TooLong)
    else
      match Body(Split(StripHeredoc(text), '\n'))
      case Err(e) => Err(e)
      case Ok(body) =>
        match Hunks(body, [])
        case Err(e) => Err(e)
        case Ok(hunks) => if hunks == [] then Err(NoHunks) else Ok(hunks)
  }

  // ----- Printing -----

  function Prefixed(c: char, lines: seq<string>): seq<string>
  {
    if lines == [] then [] else [[c] + lines[0]] + Prefixed(c, lines[1..])
  }

  function ChunkHeading(c: Chunk): string
  {
    match c.context case None => "@@" case Some(context) => "@@ " + context
  }

  function ChunkLines(c: Chunk): seq<string>
  {
    [ChunkHeading(c)] + (Prefixed('-', c.oldLines) + (Prefixed('+', c.newLines) + if c.endOfFile then [EOF_MARKER] else []))
  }

  function AllChunkLines(chunks: seq<Chunk>): seq<string>
  {
    if chunks == [] then [] else ChunkLines(chunks[0]) + AllChunkLines(chunks[1..])
  }

  function MoveLines(movePath: Option<string>): seq<string>
  {
    match movePath case None => [] case Some(path) => [MOVE_MARKER + path]
  }

  function HunkLines(h: Hunk): (r: seq<string>)
    ensures r != []
  {
    match h
    case Add(path, contents) =>
      [ADD_MARKER + path] + Prefixed('+', Split(if contents == "" then "" else contents[..|contents| - 1], '\n'))
    case Delete(path) => [DELETE_MARKER + path]
    case Update(path, movePath, chunks) => [UPDATE_MARKER + path] + (MoveLines(movePath) + AllChunkLines(chunks))
  }

  function AllHunkLines(hunks: seq<Hunk>): seq<string>
  {
    if hunks == [] then [] else HunkLines(hunks[0]) + AllHunkLines(hunks[1..])
  }

  function PatchLines(hunks: seq<Hunk>): seq<string> { [BEGIN_MARKER] + AllHunkLines(hunks) + [END_MARKER] }

  /** The canonical text of a patch. */
  function Render(hunks: seq<Hunk>): string
  {
    Join(PatchLines(hunks), '\n')
  }

  // ----- Well-formed hunks -----

  ghost predicate GoodPath(path: string) { Trimmed(path) && Without(path, '\n') }

  ghost predicate GoodContext(context: Option<string>)
  {
    match context
    case None => true
    case Some(text) => text != "" && !IsSpace(text[|text| - 1]) && Without(text, '\n')
  }

  ghost predicate GoodChunk(c: Chunk)
  {
    && GoodContext(c.context) && AllWithout(c.oldLines, '\n') && AllWithout(c.newLines, '\n')
    && (c.endOfFile ==> !EmptyChunk(c))
  }

  /** Only the last chunk may hold no line. */
  ghost predicate GoodChunks(chunks: seq<Chunk>)
  {
    && (forall i :: 0 <= i < |chunks| ==> GoodChunk(chunks[i]))
    && (forall i :: 0 <= i < |chunks| - 1 ==> !EmptyChunk(chunks[i]))
  }

  ghost predicate GoodHunk(h: Hunk)
  {
    match h
    case Add(path, contents) => GoodPath(path) && contents != "" && contents[|contents| - 1] == '\n'
    case Delete(path) => GoodPath(path)
    case Update(path, movePath, chunks) =>
      GoodPath(path) && (movePath.Some? ==> GoodPath(movePath.value)) && GoodChunks(chunks) && !NothingChanges(chunks)
  }

  ghost predicate GoodHunks(hunks: seq<Hunk>) { forall i :: 0 <= i < |hunks| ==> GoodHunk(hunks[i]) }

  // ----- Printed lines are read back -----

  ghost predicate IsMarker(m: string) { |m| > 6 && m[0] == '*' && STARS <= m && Without(m, '\n') }

  /** How the markers begin: enough to tell them apart. */
  lemma MarkerLetters()
    ensures IsMarker(BEGIN_MARKER) && IsMarker(END_MARKER) && IsMarker(ADD_MARKER) && IsMarker(DELETE_MARKER)
    ensures IsMarker(UPDATE_MARKER) && IsMarker(MOVE_MARKER) && IsMarker(EOF_MARKER) && IsMarker(ENVIRONMENT_MARKER)
    ensures ADD_MARKER[4] == 'A' && DELETE_MARKER[4] == 'D' && UPDATE_MARKER[4] == 'U' && MOVE_MARKER[4] == 'M'
    ensures EOF_MARKER[4] == 'E' && EOF_MARKER[5] == 'n' && ENVIRONMENT_MARKER[4] == 'E' && ENVIRONMENT_MARKER[5] == 'n'
    ensures EOF_MARKER[6] == 'd' && ENVIRONMENT_MARKER[6] == 'v' && STARS[0] == '*' && |STARS| > 0
    ensures END_MARKER[4] == 'E' && BEGIN_MARKER[4] == 'B'
    ensures Trimmed(BEGIN_MARKER) && Trimmed(END_MARKER) && Trimmed(EOF_MARKER)
    ensures ADD_MARKER[|ADD_MARKER| - 1] == DELETE_MARKER[|DELETE_MARKER| - 1] == ' '
    ensures UPDATE_MARKER[|UPDATE_MARKER| - 1] == MOVE_MARKER[|MOVE_MARKER| - 1] == ' '
  {
  }

  lemma PrintedHeadings(path: string)
    requires Trimmed(path)
    ensures HeadingOf(ADD_MARKER + path) == AddTo(path)
    ensures HeadingOf(DELETE_MARKER + path) == DeleteOf(path)
    ensures HeadingOf(UPDATE_MARKER + path) == UpdateOf(path)
    ensures MoveOf(MOVE_MARKER + path) == Some(path)
  {
    MarkerLetters();
    hide ADD_MARKER, DELETE_MARKER, UPDATE_MARKER, MOVE_MARKER, STARS, Strip;
    TrimmedTogether(ADD_MARKER, path);
    TrimmedTogether(DELETE_MARKER, path);
    TrimmedTogether(UPDATE_MARKER, path);
    TrimmedTogether(MOVE_MARKER, path);
    TrimmedIsStripped(path);
  }

  /** A line at which the lines of an add or update hunk end. */
  ghost predicate StopsAt(body: seq<string>)
  {
    body == [] || (Starred(body[0]) && BodyLineOf(body[0]).Stop? && MoveOf(body[0]).None?)
  }

  /** A marker followed by a path ends the lines before it, unless it announces a move. */
  lemma MarkerStops(marker: string, path: string)
    requires IsMarker(marker) && GoodPath(path) && marker[4] in {'A', 'D', 'U'}
    ensures StopsAt([marker + path])
  {
    MarkerLetters();
    hide MOVE_MARKER, EOF_MARKER, STARS, Strip;
    TrimmedTogether(marker, path);
  }

  lemma PrintedHunkStops(h: Hunk, rest: seq<string>)
    requires GoodHunk(h)
    ensures StopsAt(HunkLines(h) + rest)
  {
    MarkerLetters();
    hide ADD_MARKER, DELETE_MARKER, UPDATE_MARKER, MOVE_MARKER, EOF_MARKER, STARS, Strip, Starred, BodyLineOf, MoveOf;
    MarkerStops(if h.Add? then ADD_MARKER else if h.Delete? then DELETE_MARKER else UPDATE_MARKER, h.path);
    assert (HunkLines(h) + rest)[0] == HunkLines(h)[0];
  }

  /** Lines that do not begin with a star or white space are not markers. */
  lemma PlainLine(raw: string)
    requires raw != "" && !IsSpace(raw[0]) && raw[0] != '*'
    ensures !Starred(raw) && Strip(raw) != EOF_MARKER && MoveOf(raw).None? && RStrip(raw) != "" && RStrip(raw)[0] == raw[0]
  {
    MarkerLetters();
    hide EOF_MARKER, STARS, MOVE_MARKER, Strip;
    StripTrims(raw);
    RStripEnds(raw);
  }

  lemma PrintedLines(text: string)
    ensures !Starred(['+'] + text) && ["+"][0] <= ['+'] + text && (['+'] + text)[1..] == text
    ensures BodyLineOf(['+'] + text) == New(text) && RStrip(['+'] + text) != ""
    ensures BodyLineOf(['-'] + text) == Old(text) && RStrip(['-'] + text) != ""
  {
    hide Strip, RStrip, Starred, EOF_MARKER;
    PlainLine(['+'] + text);
    PlainLine(['-'] + text);
  }

  lemma PrintedChunkHeading(c: Chunk)
    requires GoodContext(c.context)
    ensures BodyLineOf(ChunkHeading(c)) == At(c.context) && RStrip(ChunkHeading(c)) != "" && MoveOf(ChunkHeading(c)).None?
    ensures Without(ChunkHeading(c), '\n')
  {
    hide Strip, RStrip, Starred, EOF_MARKER;
    PlainLine(ChunkHeading(c));
    TrimmedIsStripped(ChunkHeading(c));
    match c.context
    case None =>
    case Some(context) => assert ("@@ " + context)[3..] == context;
  }

  lemma PrintedEnd()
    ensures BodyLineOf(EOF_MARKER) == EndMark && RStrip(EOF_MARKER) != ""
  {
    MarkerLetters();
    hide EOF_MARKER, Strip, STARS;
    TrimmedIsStripped(EOF_MARKER);
  }

  // ----- Printed hunks are read back -----

  lemma UpdateStep(raw: string, tail: seq<string>, chunks: seq<Chunk>, more: seq<Chunk>)
    requires !BodyLineOf(raw).Stop? && TakeLine(raw, chunks) == Ok(more)
    ensures UpdateBody([raw] + tail, chunks) == UpdateBody(tail, more)
  {
    hide TakeLine, BodyLineOf;
    assert ([raw] + tail)[1..] == tail;
  }

  lemma AddLineToLast(done: seq<Chunk>, c: Chunk, removed: seq<string>, added: seq<string>)
    ensures AddLine(done + [c], removed, added) ==
            done + [c.(oldLines := c.oldLines + removed, newLines := c.newLines + added)]
  {
    assert (done + [c])[..|done|] == done && Last(done + [c]) == c;
  }

  lemma PrefixedFirst(c: char, lines: seq<string>, tail: seq<string>)
    requires lines != []
    ensures Prefixed(c, lines) + tail == [[c] + lines[0]] + (Prefixed(c, lines[1..]) + tail)
  {
  }

  lemma ReadOldLine(line: string, tail: seq<string>, done: seq<Chunk>, c: Chunk)
    requires !c.endOfFile
    ensures UpdateBody([['-'] + line] + tail, done + [c]) ==
            UpdateBody(tail, done + [c.(oldLines := c.oldLines + [line])])
  {
    hide UpdateBody, BodyLineOf, AddLine, RStrip;
    PrintedLines(line);
    AddLineToLast(done, c, [line], []);
    assert c.newLines + [] == c.newLines;
    UpdateStep(['-'] + line, tail, done + [c], done + [c.(oldLines := c.oldLines + [line])]);
  }

  lemma {:induction false} ReadOldLines(lines: seq<string>, tail: seq<string>, done: seq<Chunk>, c: Chunk)
    requires !c.endOfFile
    ensures UpdateBody(Prefixed('-', lines) + tail, done + [c]) ==
            UpdateBody(tail, done + [c.(oldLines := c.oldLines + lines)])
    decreases |lines|
  {
    hide UpdateBody;
    if lines == [] {
      assert Prefixed('-', lines) + tail == tail && c.oldLines + lines == c.oldLines;
    } else {
      hide Prefixed;
      PrefixedFirst('-', lines, tail);
      ReadOldLine(lines[0], Prefixed('-', lines[1..]) + tail, done, c);
      ReadOldLines(lines[1..], tail, done, c.(oldLines := c.oldLines + [lines[0]]));
      assert c.oldLines + [lines[0]] + lines[1..] == c.oldLines + lines;
    }
  }

  lemma ReadNewLine(line: string, tail: seq<string>, done: seq<Chunk>, c: Chunk)
    requires !c.endOfFile
    ensures UpdateBody([['+'] + line] + tail, done + [c]) ==
            UpdateBody(tail, done + [c.(newLines := c.newLines + [line])])
  {
    hide UpdateBody, BodyLineOf, AddLine, RStrip;
    PrintedLines(line);
    AddLineToLast(done, c, [], [line]);
    assert c.oldLines + [] == c.oldLines;
    UpdateStep(['+'] + line, tail, done + [c], done + [c.(newLines := c.newLines + [line])]);
  }

  lemma {:induction false} ReadNewLines(lines: seq<string>, tail: seq<string>, done: seq<Chunk>, c: Chunk)
    requires !c.endOfFile
    ensures UpdateBody(Prefixed('+', lines) + tail, done + [c]) ==
            UpdateBody(tail, done + [c.(newLines := c.newLines + lines)])
    decreases |lines|
  {
    hide UpdateBody;
    if lines == [] {
      assert Prefixed('+', lines) + tail == tail && c.newLines + lines == c.newLines;
    } else {
      hide Prefixed;
      PrefixedFirst('+', lines, tail);
      ReadNewLine(lines[0], Prefixed('+', lines[1..]) + tail, done, c);
      ReadNewLines(lines[1..], tail, done, c.(newLines := c.newLines + [lines[0]]));
      assert c.newLines + [lines[0]] + lines[1..] == c.newLines + lines;
    }
  }

  lemma ReadEnd(tail: seq<string>, done: seq<Chunk>, c: Chunk)
    requires !c.endOfFile && !EmptyChunk(c)
    ensures UpdateBody([EOF_MARKER] + tail, done + [c]) == UpdateBody(tail, done + [c.(endOfFile := true)])
  {
    hide UpdateBody, BodyLineOf, EOF_MARKER;
    PrintedEnd();
    assert Last(done + [c]) == c && (done + [c])[..|done|] == done;
    UpdateStep(EOF_MARKER, tail, done + [c], done + [c.(endOfFile := true)]);
  }

  lemma ReadChunkHeading(c: Chunk, tail: seq<string>, done: seq<Chunk>)
    requires GoodContext(c.context) && !LastIsEmpty(done)
    ensures UpdateBody([ChunkHeading(c)] + tail, done) == UpdateBody(tail, done + [Chunk(c.context, [], [], false)])
  {
    hide UpdateBody, BodyLineOf, ChunkHeading, RStrip;
    PrintedChunkHeading(c);
    UpdateStep(ChunkHeading(c), tail, done, done + [Chunk(c.context, [], [], false)]);
  }

  lemma ReadChunk(c: Chunk, tail: seq<string>, done: seq<Chunk>)
    requires GoodChunk(c) && !LastIsEmpty(done)
    ensures UpdateBody(ChunkLines(c) + tail, done) == UpdateBody(tail, done + [c])
  {
    hide UpdateBody, LastIsEmpty, ChunkHeading, Prefixed, EOF_MARKER;
    var end := if c.endOfFile then [EOF_MARKER] else [];
    var afterOld := Prefixed('+', c.newLines) + (end + tail);
    var afterHeading := Prefixed('-', c.oldLines) + afterOld;
    assert ChunkLines(c) + tail == [ChunkHeading(c)] + afterHeading by {
      ChunkLinesThen(c, tail);
    }
    ReadChunkHeading(c, afterHeading, done);
    ReadOldLines(c.oldLines, afterOld, done, Chunk(c.context, [], [], false));
    ReadNewLines(c.newLines, end + tail, done, Chunk(c.context, c.oldLines, [], false));
    assert [] + c.oldLines == c.oldLines && [] + c.newLines == c.newLines;
    if c.endOfFile {
      ReadEnd(tail, done, c.(endOfFile := false));
    } else {
      assert end + tail == tail;
    }
  }

  lemma ChunkLinesThen(c: Chunk, tail: seq<string>)
    ensures ChunkLines(c) + tail == [ChunkHeading(c)] + (Prefixed('-', c.oldLines) + (Prefixed('+', c.newLines) +
                                    ((if c.endOfFile then [EOF_MARKER] else []) + tail)))
  {
    hide ChunkHeading, Prefixed, EOF_MARKER;
  }

  lemma GoodChunksAfterFirst(chunks: seq<Chunk>)
    requires GoodChunks(chunks) && chunks != []
    ensures GoodChunk(chunks[0]) && GoodChunks(chunks[1..]) && (|chunks| > 1 ==> !EmptyChunk(chunks[0]))
  {
    hide GoodChunk;
    var rest := chunks[1..];
    forall i | 0 <= i < |rest| ensures GoodChunk(rest[i]) && (i < |rest| - 1 ==> !EmptyChunk(rest[i])) {
      assert rest[i] == chunks[i + 1];
    }
  }

  lemma AllChunkLinesThen(chunks: seq<Chunk>, tail: seq<string>)
    requires chunks != []
    ensures AllChunkLines(chunks) + tail == ChunkLines(chunks[0]) + (AllChunkLines(chunks[1..]) + tail)
  {
    hide ChunkLines;
  }

  lemma MoveFirst<T>(done: seq<T>, items: seq<T>)
    requires items != []
    ensures done + [items[0]] + items[1..] == done + items
    ensures (done + [items[0]])[|done + [items[0]]| - 1] == items[0]
  {
  }

  lemma ReadNoChunks(tail: seq<string>, done: seq<Chunk>)
    requires StopsAt(tail)
    ensures UpdateBody(AllChunkLines([]) + tail, done) == Ok(Taken(done + [], tail))
  {
    hide BodyLineOf;
    assert AllChunkLines([]) + tail == tail && done + [] == done;
  }

  lemma {:induction false} ReadChunks(chunks: seq<Chunk>, tail: seq<string>, done: seq<Chunk>)
    requires GoodChunks(chunks) && (chunks != [] ==> !LastIsEmpty(done)) && StopsAt(tail)
    ensures UpdateBody(AllChunkLines(chunks) + tail, done) == Ok(Taken(done + chunks, tail))
    decreases |chunks|
  {
    hide GoodChunks, GoodChunk, ChunkLines, EmptyChunk, UpdateBody, StopsAt, AllChunkLines;
    if chunks == [] {
      ReadNoChunks(tail, done);
    } else {
      GoodChunksAfterFirst(chunks);
      AllChunkLinesThen(chunks, tail);
      ReadChunk(chunks[0], AllChunkLines(chunks[1..]) + tail, done);
      MoveFirst(done, chunks);
      ReadChunks(chunks[1..], tail, done + [chunks[0]]);
    }
  }

  lemma {:induction false} ReadAddLines(lines: seq<string>, tail: seq<string>, done: seq<string>)
    requires StopsAt(tail)
    ensures AddLines(Prefixed('+', lines) + tail, done) == Ok(Taken(done + lines, tail))
    decreases |lines|
  {
    hide Starred, BodyLineOf;
    if lines == [] {
      assert Prefixed('+', lines) + tail == tail && done + lines == done;
    } else {
      var all := Prefixed('+', lines) + tail;
      PrintedLines(lines[0]);
      PrefixedFirst('+', lines, tail);
      assert all[0] == ['+'] + lines[0] && all[1..] == Prefixed('+', lines[1..]) + tail;
      ReadAddLines(lines[1..], tail, done + [lines[0]]);
      assert done + [lines[0]] + lines[1..] == done + lines;
    }
  }

  lemma AddedContents(contents: string)
    requires contents != "" && contents[|contents| - 1] == '\n'
    ensures Join(Split(contents[..|contents| - 1], '\n'), '\n') + ['\n'] == contents
  {
    hide Join, Split;
    JoinOfSplit(contents[..|contents| - 1], '\n');
  }

  lemma ReadAdd(path: string, contents: string, tail: seq<string>)
    requires GoodHunk(Add(path, contents)) && StopsAt(tail)
    ensures OneHunk(HunkLines(Add(path, contents)) + tail) == Ok(Taken(Add(path, contents), tail))
  {
    hide ADD_MARKER, HeadingOf, StopsAt, Prefixed, AddLines, Split, Join;
    var pieces := Split(contents[..|contents| - 1], '\n');
    PrintedHeadings(path);
    assert HunkLines(Add(path, contents)) == [ADD_MARKER + path] + Prefixed('+', pieces);
    assert (HunkLines(Add(path, contents)) + tail)[1..] == Prefixed('+', pieces) + tail;
    ReadAddLines(pieces, tail, []);
    assert [] + pieces == pieces;
    AddedContents(contents);
  }

  lemma ReadDelete(path: string, tail: seq<string>)
    requires GoodPath(path)
    ensures OneHunk(HunkLines(Delete(path)) + tail) == Ok(Taken(Delete(path), tail))
  {
    hide DELETE_MARKER, HeadingOf;
    PrintedHeadings(path);
    assert (HunkLines(Delete(path)) + tail)[1..] == tail;
  }

  lemma FirstChunkLine(chunks: seq<Chunk>)
    requires chunks != [] && GoodChunks(chunks)
    ensures AllChunkLines(chunks) != [] && MoveOf(AllChunkLines(chunks)[0]).None?
  {
    hide MoveOf, GoodChunk;
    GoodChunksAfterFirst(chunks);
    ContextIsGood(chunks[0]);
    PrintedChunkHeading(chunks[0]);
    assert AllChunkLines(chunks)[0] == ChunkLines(chunks[0])[0] == ChunkHeading(chunks[0]);
  }

  lemma AfterMove(moved: seq<string>, lines: seq<string>, tail: seq<string>)
    requires |moved| <= 1 && lines != []
    ensures (moved + lines + tail)[|moved|..] == lines + tail
    ensures (moved + lines + tail)[0] == (if moved == [] then lines[0] else moved[0])
  {
  }

  lemma ReadMove(movePath: Option<string>, chunks: seq<Chunk>, tail: seq<string>)
    requires movePath.Some? ==> GoodPath(movePath.value)
    requires chunks != [] && GoodChunks(chunks)
    ensures var lines := MoveLines(movePath) + AllChunkLines(chunks) + tail;
            lines != [] && MoveOf(lines[0]) == movePath
            && lines[if movePath.Some? then 1 else 0..] == AllChunkLines(chunks) + tail
  {
    FirstChunkLine(chunks);
    hide MOVE_MARKER, MoveOf, GoodChunks, AllChunkLines;
    AfterMove(MoveLines(movePath), AllChunkLines(chunks), tail);
    if movePath.Some? { MoveIsRead(movePath.value); }
  }

  lemma MoveIsRead(path: string)
    requires GoodPath(path)
    ensures MoveOf(MOVE_MARKER + path) == Some(path)
  {
    PrintedHeadings(path);
  }

  lemma ContextIsGood(c: Chunk)
    requires GoodChunk(c)
    ensures GoodContext(c.context)
  {
  }

  lemma ReadUpdate(path: string, movePath: Option<string>, chunks: seq<Chunk>, tail: seq<string>)
    requires GoodHunk(Update(path, movePath, chunks)) && StopsAt(tail)
    ensures OneHunk(HunkLines(Update(path, movePath, chunks)) + tail) == Ok(Taken(Update(path, movePath, chunks), tail))
  {
    hide UPDATE_MARKER, HeadingOf, MoveOf, MoveLines, AllChunkLines, UpdateBody, StopsAt, GoodChunks;
    var lines := MoveLines(movePath) + AllChunkLines(chunks) + tail;
    var body := HunkLines(Update(path, movePath, chunks)) + tail;
    assert body == [UPDATE_MARKER + path] + lines;
    PrintedHeadings(path);
    ReadMove(movePath, chunks, tail);
    assert body[1..] == lines && body[2..] == lines[1..];
    ReadChunks(chunks, tail, []);
    assert [] + chunks == chunks;
  }

  lemma {:induction false} ReadHunks(hunks: seq<Hunk>, done: seq<Hunk>)
    requires GoodHunks(hunks)
    ensures StopsAt(AllHunkLines(hunks)) && Hunks(AllHunkLines(hunks), done) == Ok(done + hunks)
    decreases |hunks|
  {
    hide OneHunk, GoodHunk, StopsAt, HunkLines;
    if hunks == [] {
      assert done + hunks == done;
      assert StopsAt([]) by { NothingStops(); }
    } else {
      var h, rest := hunks[0], hunks[1..];
      assert GoodHunk(h);
      ReadHunks(rest, done + [h]);
      PrintedHunkStops(h, AllHunkLines(rest));
      match h {
        case Add(path, contents) => ReadAdd(path, contents, AllHunkLines(rest));
        case Delete(path) => assert GoodPath(path) by { PathIsGood(h); } ReadDelete(path, AllHunkLines(rest));
        case Update(path, movePath, chunks) => ReadUpdate(path, movePath, chunks, AllHunkLines(rest));
      }
      MoveFirst(done, hunks);
    }
  }

  lemma NothingStops()
    ensures StopsAt([])
  {
  }

  lemma PathIsGood(h: Hunk)
    requires GoodHunk(h)
    ensures GoodPath(h.path)
  {
  }

  // ----- Printed patches are read back -----

  lemma AllWithoutTogether(a: seq<string>, b: seq<string>, c: char)
    ensures AllWithout(a + b, c) <==> AllWithout(a, c) && AllWithout(b, c)
  {
    hide Without;
    if AllWithout(a + b, c) {
      forall i | 0 <= i < |a| ensures Without(a[i], c) { assert (a + b)[i] == a[i]; }
      forall i | 0 <= i < |b| ensures Without(b[i], c) { assert (a + b)[|a| + i] == b[i]; }
    }
  }

  lemma {:induction false} PrefixedWithout(c: char, lines: seq<string>)
    requires c != '\n' && AllWithout(lines, '\n')
    ensures AllWithout(Prefixed(c, lines), '\n')
    decreases |lines|
  {
    if lines != [] {
      assert Without(lines[0], '\n');
      assert Without([c] + lines[0], '\n');
      PrefixedWithout(c, lines[1..]);
      AllWithoutTogether([[c] + lines[0]], Prefixed(c, lines[1..]), '\n');
    }
  }

  lemma ChunkLinesWithout(c: Chunk)
    requires GoodChunk(c)
    ensures AllWithout(ChunkLines(c), '\n')
  {
    MarkerLetters();
    PrintedChunkHeading(c);
    PrefixedWithout('-', c.oldLines);
    PrefixedWithout('+', c.newLines);
    hide AllWithout, EOF_MARKER, ChunkHeading, Prefixed;
    var end := if c.endOfFile then [EOF_MARKER] else [];
    OneWithout(ChunkHeading(c));
    OneWithout(EOF_MARKER);
    NoneWithout();
    AllWithoutTogether(Prefixed('+', c.newLines), end, '\n');
    AllWithoutTogether(Prefixed('-', c.oldLines), Prefixed('+', c.newLines) + end, '\n');
    AllWithoutTogether([ChunkHeading(c)], Prefixed('-', c.oldLines) + (Prefixed('+', c.newLines) + end), '\n');
  }

  lemma OneWithout(line: string)
    ensures Without(line, '\n') ==> AllWithout([line], '\n')
  {
  }

  lemma NoneWithout()
    ensures AllWithout([], '\n')
  {
  }

  lemma {:induction false} AllChunkLinesWithout(chunks: seq<Chunk>)
    requires GoodChunks(chunks)
    ensures AllWithout(AllChunkLines(chunks), '\n')
    decreases |chunks|
  {
    hide GoodChunk, ChunkLines;
    if chunks != [] {
      GoodChunksAfterFirst(chunks);
      ChunkLinesWithout(chunks[0]);
      AllChunkLinesWithout(chunks[1..]);
      AllWithoutTogether(ChunkLines(chunks[0]), AllChunkLines(chunks[1..]), '\n');
    }
  }

  lemma HeadingWithout(marker: string, path: string)
    requires IsMarker(marker) && GoodPath(path)
    ensures AllWithout([marker + path], '\n')
  {
    assert Without(marker + path, '\n');
  }

  lemma HunkLinesWithout(h: Hunk)
    requires GoodHunk(h)
    ensures AllWithout(HunkLines(h), '\n')
  {
    MarkerLetters();
    hide ADD_MARKER, DELETE_MARKER, UPDATE_MARKER, MOVE_MARKER, AllWithout, IsMarker, GoodPath;
    match h
    case Add(path, contents) =>
      var pieces := Split(contents[..|contents| - 1], '\n');
      HeadingWithout(ADD_MARKER, path);
      SplitPiecesWithout(contents[..|contents| - 1], '\n');
      PrefixedWithout('+', pieces);
      AllWithoutTogether([ADD_MARKER + path], Prefixed('+', pieces), '\n');
    case Delete(path) => HeadingWithout(DELETE_MARKER, path);
    case Update(path, movePath, chunks) =>
      HeadingWithout(UPDATE_MARKER, path);
      NoneWithout();
      if movePath.Some? { HeadingWithout(MOVE_MARKER, movePath.value); }
      AllChunkLinesWithout(chunks);
      AllWithoutTogether(MoveLines(movePath), AllChunkLines(chunks), '\n');
      AllWithoutTogether([UPDATE_MARKER + path], MoveLines(movePath) + AllChunkLines(chunks), '\n');
  }

  lemma {:induction false} AllHunkLinesWithout(hunks: seq<Hunk>)
    requires GoodHunks(hunks)
    ensures AllWithout(AllHunkLines(hunks), '\n')
    decreases |hunks|
  {
    hide GoodHunk, HunkLines;
    if hunks != [] {
      assert GoodHunk(hunks[0]);
      HunkLinesWithout(hunks[0]);
      AllHunkLinesWithout(hunks[1..]);
      AllWithoutTogether(HunkLines(hunks[0]), AllHunkLines(hunks[1..]), '\n');
    }
  }

  lemma PatchLinesWithout(hunks: seq<Hunk>)
    requires GoodHunks(hunks)
    ensures AllWithout(PatchLines(hunks), '\n')
  {
    MarkerLetters();
    AllHunkLinesWithout(hunks);
    hide BEGIN_MARKER, END_MARKER, AllWithout, AllHunkLines;
    OneWithout(BEGIN_MARKER);
    OneWithout(END_MARKER);
    AllWithoutTogether([BEGIN_MARKER], AllHunkLines(hunks), '\n');
    AllWithoutTogether([BEGIN_MARKER] + AllHunkLines(hunks), [END_MARKER], '\n');
  }

  lemma {:induction false} JoinEnds(parts: seq<string>, sep: char)
    requires parts != [] && parts[|parts| - 1] != ""
    ensures var j, last := Join(parts, sep), parts[|parts| - 1];
            j != "" && j[|j| - 1] == last[|last| - 1] && (parts[0] != "" ==> j[0] == parts[0][0])
    decreases |parts|
  {
    if |parts| > 1 {
      var rest := parts[1..];
      assert rest[|rest| - 1] == parts[|parts| - 1];
      JoinEnds(rest, sep);
      JoinTwo(parts[0], Join(rest, sep), sep);
      assert Join(parts, sep) == parts[0] + [sep] + Join(rest, sep);
    }
  }

  lemma JoinTwo(a: string, b: string, sep: char)
    requires b != ""
    ensures var j := a + [sep] + b; j[|j| - 1] == b[|b| - 1] && (a != "" ==> j[0] == a[0])
  {
  }

  /** Nothing is stripped off a printed patch. */
  lemma PrintedIsBare(hunks: seq<Hunk>)
    ensures StripHeredoc(Render(hunks)) == Join(PatchLines(hunks), '\n')
  {
    hide Strip;
    RenderIsTrimmed(hunks);
    TrimmedIsStripped(Render(hunks));
  }

  lemma RenderIsTrimmed(hunks: seq<Hunk>)
    ensures Trimmed(Render(hunks)) && Render(hunks)[0] == '*'
  {
    MarkerLetters();
    hide BEGIN_MARKER, END_MARKER, AllHunkLines, Join, Strip;
    JoinEnds(PatchLines(hunks), '\n');
  }

  lemma PrintedBody(hunks: seq<Hunk>)
    requires GoodHunks(hunks) && hunks != []
    ensures Body(PatchLines(hunks)) == Ok(AllHunkLines(hunks))
  {
    MarkerLetters();
    hide BEGIN_MARKER, END_MARKER, ENVIRONMENT_MARKER, AllHunkLines, Strip;
    TrimmedIsStripped(BEGIN_MARKER);
    TrimmedIsStripped(END_MARKER);
    var lines := PatchLines(hunks);
    assert lines[1..|lines| - 1] == AllHunkLines(hunks);
    NoEnvironment(hunks);
  }

  lemma NoEnvironment(hunks: seq<Hunk>)
    requires GoodHunks(hunks) && hunks != []
    ensures AllHunkLines(hunks) != [] && !(ENVIRONMENT_MARKER <= AllHunkLines(hunks)[0])
  {
    MarkerLetters();
    hide ENVIRONMENT_MARKER, ADD_MARKER, DELETE_MARKER, UPDATE_MARKER;
    assert GoodHunk(hunks[0]);
    assert AllHunkLines(hunks)[0] == HunkLines(hunks[0])[0];
  }

  /** Parsing undoes printing. */
  lemma ParseOfRender(hunks: seq<Hunk>)
    requires hunks != [] && GoodHunks(hunks) && |Render(hunks)| <= MAX_PATCH_CHARS
    ensures Parse(Render(hunks)) == Ok(hunks)
  {
    hide GoodHunks, PatchLines, AllHunkLines, Hunks, Body, Split, Join, StripHeredoc, Render;
    PrintedIsBare(hunks);
    PatchLinesWithout(hunks);
    assert PatchLines(hunks) != [] by { PatchLinesExist(hunks); }
    SplitOfJoin(PatchLines(hunks), '\n');
    PrintedBody(hunks);
    ReadHunks(hunks, []);
    assert [] + hunks == hunks;
  }

  lemma PatchLinesExist(hunks: seq<Hunk>)
    ensures PatchLines(hunks) != []
  {
  }

  lemma StripBlankEnds(text: string)
    requires Trimmed(text)
    ensures Strip(['\n'] + text + ['\n']) == text
  {
    var s := ['\n'] + text + ['\n'];
    assert s[..|s| - 1] == ['\n'] + text;
    assert RStrip(s) == RStrip(['\n'] + text) == ['\n'] + text;
    assert (['\n'] + text)[1..] == text;
    assert LStrip(['\n'] + text) == LStrip(text) == text;
  }

  lemma UnwrapMiddle(opener: string, middle: string, closer: string)
    requires |closer| == 3
    ensures Unwrap(opener + middle + closer, |opener|) == Strip(middle)
  {
    var s := opener + middle + closer;
    assert s[|opener|..|s| - 3] == middle;
  }

  lemma WrappedStrips(opener: string, text: string)
    requires opener in {"<<'EOF'", "<<\"EOF\"", "<<EOF"} && Trimmed(text)
    ensures StripHeredoc(opener + (['\n'] + text + ['\n']) + "EOF") == text
  {
    hide Strip, Unwrap;
    var middle := ['\n'] + text + ['\n'];
    var s := opener + middle + "EOF";
    assert s[|s| - 3..] == "EOF";
    assert s[2] == opener[2] && s[|opener|] == '\n' && opener <= s;
    TrimmedIsStripped(s);
    StripBlankEnds(text);
    UnwrapMiddle(opener, middle, "EOF");
  }

  /** Parsing undoes printing inside a heredoc frame too. */
  lemma ParseOfWrapped(opener: string, hunks: seq<Hunk>)
    requires opener in {"<<'EOF'", "<<\"EOF\"", "<<EOF"} && hunks != [] && GoodHunks(hunks)
    requires |Render(hunks)| + 12 <= MAX_PATCH_CHARS
    ensures Parse(opener + (['\n'] + Render(hunks) + ['\n']) + "EOF") == Ok(hunks)
  {
    ParseOfRender(hunks);
    PrintedIsBare(hunks);
    hide GoodHunks, PatchLines, Hunks, Body, Split, Join, StripHeredoc, Render;
    RenderIsTrimmed(hunks);
    WrappedStrips(opener, Render(hunks));
    assert StripHeredoc(Render(hunks)) == Render(hunks) by { RenderJoins(hunks); }
  }

  lemma RenderJoins(hunks: seq<Hunk>)
    ensures Render(hunks) == Join(PatchLines(hunks), '\n')
  {
  }

  // ----- What is parsed is well-formed -----

  lemma AllWithoutSlice(parts: seq<string>, c: char, i: nat, j: nat)
    requires i <= j <= |parts| && AllWithout(parts, c)
    ensures AllWithout(parts[i..j], c)
  {
    forall k | 0 <= k < j - i ensures Without(parts[i..j][k], c) { assert parts[i..j][k] == parts[i + k]; }
  }

  lemma AllWithoutRest(parts: seq<string>, c: char)
    requires parts != [] && AllWithout(parts, c)
    ensures Without(parts[0], c) && AllWithout(parts[1..], c)
  {
    AllWithoutSlice(parts, c, 1, |parts|);
  }

  /** A marker ends in a space and a stripped line does not, so something follows the marker. */
  lemma AfterMarker(line: string, marker: string)
    requires marker != "" && IsSpace(marker[|marker| - 1]) && marker <= Strip(line) && Without(line, '\n')
    ensures GoodPath(Strip(Strip(line)[|marker|..]))
  {
    hide Strip;
    StripTrims(line);
    var path := Strip(line)[|marker|..];
    assert path != "" && !IsSpace(path[|path| - 1]);
    assert Without(path, '\n');
    StripTrims(path);
  }

  lemma HeadingPathsAreGood(line: string)
    requires Without(line, '\n')
    ensures match HeadingOf(line)
            case NoHeading => true
            case AddTo(path) => GoodPath(path)
            case DeleteOf(path) => GoodPath(path)
            case UpdateOf(path) => GoodPath(path)
    ensures MoveOf(line).Some? ==> GoodPath(MoveOf(line).value)
  {
    MarkerLetters();
    hide ADD_MARKER, DELETE_MARKER, UPDATE_MARKER, MOVE_MARKER, STARS, Strip, GoodPath;
    if ADD_MARKER <= Strip(line) { AfterMarker(line, ADD_MARKER); }
    if DELETE_MARKER <= Strip(line) { AfterMarker(line, DELETE_MARKER); }
    if UPDATE_MARKER <= Strip(line) { AfterMarker(line, UPDATE_MARKER); }
    if MOVE_MARKER <= Strip(line) { AfterMarker(line, MOVE_MARKER); }
  }

  lemma BodyLinesAreGood(raw: string)
    requires Without(raw, '\n')
    ensures match BodyLineOf(raw)
            case At(context) => GoodContext(context)
            case Both(text) => Without(text, '\n')
            case New(text) => Without(text, '\n')
            case Old(text) => Without(text, '\n')
            case _ => true
  {
    hide Strip, RStrip, EOF_MARKER, STARS;
    StripTrims(raw);
    RStripEnds(raw);
    var line := RStrip(raw);
    assert "@@ " <= line ==> line[2] == ' ';
  }

  lemma AppendedIsGood(chunks: seq<Chunk>, c: Chunk)
    requires GoodChunks(chunks) && GoodChunk(c) && !LastIsEmpty(chunks)
    ensures GoodChunks(chunks + [c])
  {
    hide GoodChunk;
  }

  lemma WithLastIsGood(chunks: seq<Chunk>, c: Chunk)
    requires GoodChunks(chunks) && chunks != [] && GoodChunk(c)
    ensures GoodChunks(WithLast(chunks, c))
  {
    hide GoodChunk;
  }

  lemma AddLineIsGood(chunks: seq<Chunk>, removed: seq<string>, added: seq<string>)
    requires GoodChunks(chunks) && AllWithout(removed, '\n') && AllWithout(added, '\n')
    ensures GoodChunks(AddLine(chunks, removed, added))
  {
    var started := if chunks == [] then [FIRST_CHUNK] else chunks;
    assert GoodChunk(FIRST_CHUNK) && GoodChunks([FIRST_CHUNK]);
    hide GoodChunks, Without;
    assert GoodChunk(Last(started)) by { LastIsGood(started); }
    var last := Last(started);
    AllWithoutTogether(last.oldLines, removed, '\n');
    AllWithoutTogether(last.newLines, added, '\n');
    WithLastIsGood(started, last.(oldLines := last.oldLines + removed, newLines := last.newLines + added));
  }

  lemma LastIsGood(chunks: seq<Chunk>)
    requires GoodChunks(chunks) && chunks != []
    ensures GoodChunk(Last(chunks))
  {
  }

  lemma TakeLineKeepsGood(raw: string, chunks: seq<Chunk>)
    requires Without(raw, '\n') && GoodChunks(chunks)
    ensures match TakeLine(raw, chunks) case Err(e) => !e.MissingPath? case Ok(more) => GoodChunks(more)
  {
    BodyLinesAreGood(raw);
    NoneWithout();
    hide BodyLineOf, GoodChunks, RStrip, Without;
    match BodyLineOf(raw)
    case At(context) => if !LastIsEmpty(chunks) { AppendedIsGood(chunks, Chunk(context, [], [], false)); }
    case EndMark =>
      if chunks != [] {
        LastIsGood(chunks);
        if !LastIsEmpty(chunks) { WithLastIsGood(chunks, Last(chunks).(endOfFile := true)); }
      }
    case Both(text) => OneWithout(text); AddLineIsGood(chunks, [text], [text]);
    case New(text) => OneWithout(text); AddLineIsGood(chunks, [], [text]);
    case Old(text) => OneWithout(text); AddLineIsGood(chunks, [text], []);
    case _ =>
  }

  lemma {:induction false} UpdateBodyIsGood(body: seq<string>, chunks: seq<Chunk>)
    requires AllWithout(body, '\n') && GoodChunks(chunks)
    ensures match UpdateBody(body, chunks)
            case Err(e) => !e.MissingPath?
            case Ok(t) => GoodChunks(t.item) && AllWithout(t.rest, '\n')
    decreases |body|
  {
    hide TakeLine, BodyLineOf, GoodChunks, AllWithout;
    if body != [] {
      AllWithoutRest(body, '\n');
      if !BodyLineOf(body[0]).Stop? {
        TakeLineKeepsGood(body[0], chunks);
        match TakeLine(body[0], chunks)
        case Err(_) =>
        case Ok(more) => UpdateBodyIsGood(body[1..], more);
      }
    }
  }

  lemma {:induction false} AddLinesRest(body: seq<string>, contents: seq<string>)
    requires AllWithout(body, '\n')
    ensures match AddLines(body, contents)
            case Err(e) => !e.MissingPath?
            case Ok(t) => AllWithout(t.rest, '\n')
    decreases |body|
  {
    hide Starred, AllWithout;
    if body != [] {
      AllWithoutRest(body, '\n');
      if "+" <= body[0] { AddLinesRest(body[1..], contents + [body[0][1..]]); }
    }
  }

  lemma OneHunkIsGood(body: seq<string>)
    requires body != [] && AllWithout(body, '\n')
    ensures match OneHunk(body)
            case Err(e) => !e.MissingPath?
            case Ok(t) => GoodHunk(t.item) && AllWithout(t.rest, '\n')
  {
    AllWithoutRest(body, '\n');
    HeadingPathsAreGood(body[0]);
    hide HeadingOf, MoveOf, AddLines, UpdateBody, AllWithout, NothingChanges, Without, GoodChunks;
    match HeadingOf(body[0])
    case NoHeading =>
    case AddTo(path) => AddLinesRest(body[1..], []);
    case DeleteOf(path) =>
    case UpdateOf(path) =>
      if |body| > 1 {
        AllWithoutRest(body[1..], '\n');
        HeadingPathsAreGood(body[1]);
        assert body[1..][1..] == body[2..];
      }
      var move := if |body| > 1 then MoveOf(body[1]) else None;
      NoChunksAreGood();
      UpdateBodyIsGood(body[if move.Some? then 2 else 1..], []);
  }

  lemma NoChunksAreGood()
    ensures GoodChunks([])
  {
  }

  lemma {:induction false} HunksAreGood(body: seq<string>, hunks: seq<Hunk>)
    requires AllWithout(body, '\n') && GoodHunks(hunks)
    ensures match Hunks(body, hunks) case Err(e) => !e.MissingPath? case Ok(all) => GoodHunks(all)
    decreases |body|
  {
    hide OneHunk, GoodHunk, AllWithout;
    if body != [] {
      OneHunkIsGood(body);
      match OneHunk(body)
      case Err(_) =>
      case Ok(t) => HunksAreGood(t.rest, hunks + [t.item]);
    }
  }

  /** Every patch that parses yields well-formed hunks; no heading is ever found to lack a path, because a
      stripped line cannot end in the space that closes the marker. */
  lemma ParsedIsWellFormed(text: string)
    ensures match Parse(text) case Err(e) => !e.MissingPath? case Ok(hunks) => hunks != [] && GoodHunks(hunks)
  {
    hide Hunks, GoodHunk, Strip, StripHeredoc, Split, BEGIN_MARKER, END_MARKER, ENVIRONMENT_MARKER;
    var lines := Split(StripHeredoc(text), '\n');
    SplitPiecesWithout(StripHeredoc(text), '\n');
    BodyWithout(lines);
    match Body(lines)
    case Err(_) =>
    case Ok(body) => HunksAreGood(body, []);
  }

  lemma BodyWithout(lines: seq<string>)
    requires lines != [] && AllWithout(lines, '\n')
    ensures match Body(lines) case Err(e) => !e.MissingPath? case Ok(body) => AllWithout(body, '\n')
  {
    hide Strip, AllWithout, BEGIN_MARKER, END_MARKER, ENVIRONMENT_MARKER;
    AllWithoutSlice(lines, '\n', 0, |lines| - 1);
    var kept := if Strip(lines[|lines| - 1]) == "" then lines[..|lines| - 1] else lines;
    assert AllWithout(kept, '\n');
    NoneWithout();
    if |kept| > 1 { AllWithoutSlice(kept, '\n', 1, |kept| - 1); }
    var body := if |kept| > 1 then kept[1..|kept| - 1] else [];
    if body != [] { AllWithoutRest(body, '\n'); }
  }

  /** Printing is a normal form: a patch printed from what was parsed parses to the same hunks. */
  lemma ReprintedParsesAlike(text: string)
    requires Parse(text).Ok? && |Render(Parse(text).value)| <= MAX_PATCH_CHARS
    ensures Parse(Render(Parse(text).value)) == Parse(text)
  {
    ParsedIsWellFormed(text);
    ParseOfRender(Parse(text).value);
  }

  /** A context line is an unchanged line: one removed and added again. A blank line stands for an empty one.
      A line whose text begins with a marker is never context. */
  lemma ContextLineIsUnchanged(raw: string, text: string, tail: seq<string>, chunks: seq<Chunk>)
    requires raw == [' '] + text || (raw == text == "")
    requires !Starred(raw) && !AfterEnd(chunks)
    ensures UpdateBody([raw] + tail, chunks) == UpdateBody([['-'] + text] + ([['+'] + text] + tail), chunks)
  {
    hide UpdateBody, Strip, RStrip, Starred, AddLine, EOF_MARKER;
    ContextLine(raw, text);
    PrintedLines(text);
    AddLineTwice(chunks, text);
    UpdateStep(raw, tail, chunks, AddLine(chunks, [text], [text]));
    var once := AddLine(chunks, [text], []);
    UpdateStep(['-'] + text, [['+'] + text] + tail, chunks, once);
    UpdateStep(['+'] + text, tail, once, AddLine(once, [], [text]));
  }

  lemma ContextLine(raw: string, text: string)
    requires raw == [' '] + text || (raw == text == "")
    requires !Starred(raw)
    ensures BodyLineOf(raw) == Both(text)
  {
    MarkerLetters();
    hide Strip, EOF_MARKER, STARS;
    RStripEnds(raw);
    TrimmedIsStripped(EOF_MARKER);
    assert Strip(raw) != EOF_MARKER;
  }

  lemma AddLineTwice(chunks: seq<Chunk>, text: string)
    requires !AfterEnd(chunks)
    ensures AddLine(AddLine(chunks, [text], []), [], [text]) == AddLine(chunks, [text], [text])
    ensures !AfterEnd(AddLine(chunks, [text], []))
  {
    var started := if chunks == [] then [FIRST_CHUNK] else chunks;
    var last := Last(started);
    assert started == started[..|started| - 1] + [last];
    var front := started[..|started| - 1];
    AddLineToLast(front, last, [text], []);
    AddLineToLast(front, last, [text], [text]);
    AddLineToLast(front, last.(oldLines := last.oldLines + [text], newLines := last.newLines + []), [], [text]);
    assert last.oldLines + [text] + [] == last.oldLines + [text];
    assert last.newLines + [] + [text] == last.newLines + [text];
  }

  // ----- The loops -----

  lemma UpdateBodyStep(body: seq<string>, index: nat, chunks: seq<Chunk>)
    requires index < |body| && !BodyLineOf(body[index]).Stop?
    ensures var step := TakeLine(body[index], chunks);
            UpdateBody(body[index..], chunks) == if step.Err? then Err(step.error) else UpdateBody(body[index + 1..], step.value)
  {
    hide TakeLine, BodyLineOf;
    assert body[index..][1..] == body[index + 1..];
  }

  lemma UpdateBodyStops(body: seq<string>, index: nat, chunks: seq<Chunk>)
    requires index <= |body| && (index < |body| ==> BodyLineOf(body[index]).Stop?)
    ensures UpdateBody(body[index..], chunks) == Ok(Taken(chunks, body[index..]))
  {
    hide BodyLineOf;
  }

  /** The loop's result is the specified one, the next unread index standing for the lines after it. */
  ghost predicate ReadUpTo<T>(body: seq<string>, start: nat, taken: Result<Taken<T>>, r: Result<(T, nat)>)
  {
    match taken
    case Err(e) => r == Err(e)
    case Ok(t) => r.Ok? && start <= r.value.1 <= |body| && t.item == r.value.0 && t.rest == body[r.value.1..]
  }

  /** Consumes the chunk lines of one update hunk; returns the next unread index. */
  method ParseUpdateBody(body: seq<string>, start: nat) returns (r: Result<(seq<Chunk>, nat)>)
    requires start <= |body|
    ensures ReadUpTo(body, start, UpdateBody(body[start..], []), r)
  {
    hide UpdateBody, Starred, Strip, RStrip, AddLine, EOF_MARKER;
    var chunks: seq<Chunk> := [];
    var index := start;
    while index < |body|
      invariant start <= index <= |body|
      invariant UpdateBody(body[start..], []) == UpdateBody(body[index..], chunks)
    {
      var raw := body[index];
      var line := RStrip(raw);
      if Starred(raw) && Strip(raw) != EOF_MARKER {
        UpdateBodyStops(body, index, chunks);
        return Ok((chunks, index));
      }
      UpdateBodyStep(body, index, chunks);
      if AfterEnd(chunks) {
        if line == "" {
          index := index + 1;
          continue;
        }
        if line != "@@" && !("@@ " <= line) { return Err(ContextAfterEnd(raw)); }
      }
      if line == "@@" || "@@ " <= line {
        if LastIsEmpty(chunks) { return Err(UnexpectedEmptyChunk(raw)); }
        var context := if "@@ " <= line then Some(line[3..]) else None;
        chunks := chunks + [Chunk(context, [], [], false)];
      } else if Strip(raw) == EOF_MARKER {
        if chunks == [] || LastIsEmpty(chunks) { return Err(EmptyUpdate); }
        chunks := WithLast(chunks, Last(chunks).(endOfFile := true));
      } else if raw == "" {
        chunks := AddLine(chunks, [""], [""]);
      } else if raw[0] == ' ' {
        chunks := AddLine(chunks, [raw[1..]], [raw[1..]]);
      } else if raw[0] == '+' {
        chunks := AddLine(chunks, [], [raw[1..]]);
      } else if raw[0] == '-' {
        chunks := AddLine(chunks, [raw[1..]], []);
      } else {
        return Err(BadUpdateLine(raw));
      }
      index := index + 1;
    }
    UpdateBodyStops(body, index, chunks);
    r := Ok((chunks, index));
  }

  /** Consumes the lines of one add hunk; returns the next unread index. */
  method ParseAddLines(body: seq<string>, start: nat) returns (r: Result<(seq<string>, nat)>)
    requires start <= |body|
    ensures ReadUpTo(body, start, AddLines(body[start..], []), r)
  {
    hide Starred;
    var contents: seq<string> := [];
    var index := start;
    while index < |body| && !Starred(body[index])
      invariant start <= index <= |body|
      invariant AddLines(body[start..], []) == AddLines(body[index..], contents)
    {
      assert body[index..][1..] == body[index + 1..];
      if !("+" <= body[index]) { return Err(BadAddLine(body[index])); }
      contents := contents + [body[index][1..]];
      index := index + 1;
    }
    r := Ok((contents, index));
  }

  lemma HunksStep(body: seq<string>, index: nat, hunks: seq<Hunk>)
    requires index < |body|
    ensures var one := OneHunk(body[index..]);
            Hunks(body[index..], hunks) == if one.Err? then Err(one.error) else Hunks(one.value.rest, hunks + [one.value.item])
  {
    hide OneHunk;
  }

  lemma HunksEnd(hunks: seq<Hunk>)
    ensures Hunks([], hunks) == Ok(hunks)
  {
  }

  /** Parses an envelope into hunks. */
  method ParsePatch(text: string) returns (r: Result<seq<Hunk>>)
    ensures r == Parse(text)
  {
    hide Hunks, StripHeredoc, Split, HeadingOf, MoveOf, AddLines, UpdateBody, Body, Join, NothingChanges;
    if |text| > MAX_PATCH_CHARS { return Err(TooLong); }
    var between := Body(Split(StripHeredoc(text), '\n'));
    if between.Err? { return Err(between.error); }
    var body := between.value;
    var hunks: seq<Hunk> := [];
    var index := 0;
    assert body[0..] == body;
    while index < |body|
      invariant index <= |body|
      invariant Hunks(body, []) == Hunks(body[index..], hunks)
    {
      HunksStep(body, index, hunks);
      assert body[index..][1..] == body[index + 1..];
      assert index + 2 <= |body| ==> body[index..][2..] == body[index + 2..];
      match HeadingOf(body[index])
      case NoHeading => return Err(UnexpectedLine(body[index]));
      case AddTo(path) =>
        if path == "" { return Err(MissingPath); }
        var added := ParseAddLines(body, index + 1);
        if added.Err? { return Err(added.error); }
        hunks := hunks + [Add(path, Join(added.value.0, '\n') + ['\n'])];
        index := added.value.1;
      case DeleteOf(path) =>
        if path == "" { return Err(MissingPath); }
        hunks := hunks + [Delete(path)];
        index := index + 1;
      case UpdateOf(path) =>
        if path == "" { return Err(MissingPath); }
        var move := None;
        index := index + 1;
        if index < |body| && MoveOf(body[index]).Some? {
          move := MoveOf(body[index]);
          index := index + 1;
        }
        var updated := ParseUpdateBody(body, index);
        if updated.Err? { return Err(updated.error); }
        if NothingChanges(updated.value.0) { return Err(NoChanges(path)); }
        hunks := hunks + [Update(path, move, updated.value.0)];
        index := updated.value.1;
    }
    assert body[index..] == [];
    HunksEnd(hunks);
    if hunks == [] { return Err(NoHunks); }
    r := Ok(hunks);
  }
}
