/** Locating and splicing the chunks of an update hunk (agent/ollama_code/codex_patch.py). */
module PatchSplice {
  import opened Options
  import opened Text

  datatype Chunk = Chunk(context: Option<string>, oldLines: seq<string>, newLines: seq<string>, endOfFile: bool)

  predicate EmptyChunk(c: Chunk) { c.oldLines == [] && c.newLines == [] }

  datatype PatchError =
    | TooLong | NoBegin | NoEnd | NoHunks | MissingPath | BadAddLine(line: string) | NoChanges(path: string)
    | UnexpectedLine(line: string) | BadUpdateLine(line: string) | UnexpectedEmptyChunk(line: string)
    | EmptyUpdate | ContextAfterEnd(line: string)
    | ContextNotFound(context: string) | LinesNotFound(lines: seq<string>)
    | PassesSymlink(path: string) | NotFound(path: string) | AlreadyExists(path: string)
    | TooLarge(path: string) | LooksBinary(path: string)

  datatype Result<+T> = Ok(value: T) | Err(error: PatchError)

  // ----- Searching -----

  const PASSES := 4
  const LOOSEST := 3

  /** ASCII-folds the punctuation the most permissive pass tolerates. */
  function Fold(c: char): char
  {
    if '\U{2010}' <= c <= '\U{2015}' || c == '\U{2212}' then '-'
    else if '\U{2018}' <= c <= '\U{201B}' then '\''
    else if '\U{201C}' <= c <= '\U{201F}' then '"'
    else if c == '\U{A0}' || '\U{2002}' <= c <= '\U{200A}' || c == '\U{202F}' || c == '\U{205F}' || c == '\U{3000}' then ' '
    else c
  }

  function Normalise(line: string): string
  {
    var s := Strip(line);
    seq(|s|, i requires 0 <= i < |s| => Fold(s[i]))
  }

  /** The four comparisons, strictest first. */
  predicate Matches(strictness: nat, a: string, b: string)
  {
    if strictness == 0 then a == b
    else if strictness == 1 then RStrip(a) == RStrip(b)
    else if strictness == 2 then Strip(a) == Strip(b)
    else Normalise(a) == Normalise(b)
  }

  /** Each pass accepts all that a stricter one accepts. */
  lemma PassesAreNested(p: nat, q: nat, a: string, b: string)
    requires p <= q && Matches(p, a, b)
    ensures Matches(q, a, b)
  {
  }

  ghost predicate AllSpace(s: string) { forall i :: 0 <= i < |s| ==> IsSpace(s[i]) }

  lemma {:induction false} RStripIgnoresEnd(s: string, space: string)
    requires AllSpace(space)
    ensures RStrip(s + space) == RStrip(s)
    decreases |space|
  {
    if space == "" {
      assert s + space == s;
    } else {
      assert (s + space)[..|s + space| - 1] == s + space[..|space| - 1];
      RStripIgnoresEnd(s, space[..|space| - 1]);
    }
  }

  lemma {:induction false} LStripIgnoresFront(space: string, s: string)
    requires AllSpace(space)
    ensures LStrip(space + s) == LStrip(s)
    decreases |space|
  {
    if space == "" {
      assert space + s == s;
    } else {
      assert (space + s)[1..] == space[1..] + s;
      LStripIgnoresFront(space[1..], s);
    }
  }

  lemma {:induction false} EndIsSpace(s: string) returns (space: string)
    ensures s == RStrip(s) + space && AllSpace(space)
  {
    if s != "" && IsSpace(s[|s| - 1]) {
      space := EndIsSpace(s[..|s| - 1]);
      space := space + [s[|s| - 1]];
    } else {
      space := "";
    }
  }

  lemma {:induction false} FrontIsSpace(s: string) returns (space: string)
    ensures s == space + LStrip(s) && AllSpace(space)
  {
    if s != "" && IsSpace(s[0]) {
      space := FrontIsSpace(s[1..]);
      space := [s[0]] + space;
    } else {
      space := "";
    }
  }

  /** White space in front of a text that ends in something else, or of nothing, goes when both ends are stripped. */
  lemma StripIgnoresSpace(front: string, s: string, end: string)
    requires AllSpace(front) && AllSpace(end)
    ensures Strip(front + s + end) == Strip(s)
  {
    RStripIgnoresEnd(front + s, end);
    var tail := EndIsSpace(s);
    var core := RStrip(s);
    assert front + s == front + core + tail;
    RStripIgnoresEnd(front + core, tail);
    RStripEnds(s);
    if core == "" {
      RStripIgnoresEnd("", front);
      assert front + core == "" + front;
    } else {
      assert (front + core)[|front + core| - 1] == core[|core| - 1];
      LStripIgnoresFront(front, core);
    }
  }

  /** The second comparison accepts exactly texts that differ only in white space at their ends. */
  lemma TrailingSpaceIff(a: string, b: string)
    ensures Matches(1, a, b) <==> exists s, u, v :: a == s + u && b == s + v && AllSpace(u) && AllSpace(v)
  {
    var u := EndIsSpace(a);
    var v := EndIsSpace(b);
    forall s, u, v | a == s + u && b == s + v && AllSpace(u) && AllSpace(v) ensures RStrip(a) == RStrip(b) {
      RStripIgnoresEnd(s, u);
      RStripIgnoresEnd(s, v);
    }
    hide AllSpace;
    if RStrip(a) == RStrip(b) { assert a == RStrip(a) + u && b == RStrip(a) + v; }
  }

  /** The third, exactly texts that differ only in white space at both ends. */
  lemma SurroundingSpaceIff(a: string, b: string)
    ensures Matches(2, a, b) <==>
            exists s, t, u, v, w :: a == t + s + u && b == v + s + w && AllSpace(t) && AllSpace(u) && AllSpace(v) && AllSpace(w)
  {
    var u := EndIsSpace(a);
    var w := EndIsSpace(b);
    var t := FrontIsSpace(RStrip(a));
    var v := FrontIsSpace(RStrip(b));
    forall s, t, u, v, w | a == t + s + u && b == v + s + w && AllSpace(t) && AllSpace(u) && AllSpace(v) && AllSpace(w)
      ensures Strip(a) == Strip(b)
    {
      StripIgnoresSpace(t, s, u);
      StripIgnoresSpace(v, s, w);
    }
    hide AllSpace, Strip;
    assert a == t + LStrip(RStrip(a)) + u && b == v + LStrip(RStrip(b)) + w;
    if Strip(a) == Strip(b) { StripIsBoth(a); StripIsBoth(b); assert a == t + Strip(a) + u && b == v + Strip(a) + w; }
  }

  lemma StripIsBoth(s: string)
    ensures Strip(s) == LStrip(RStrip(s))
  {
  }

  const DASHES := {'-', '\U{2010}', '\U{2011}', '\U{2012}', '\U{2013}', '\U{2014}', '\U{2015}', '\U{2212}'}
  const QUOTES := {'\'', '\U{2018}', '\U{2019}', '\U{201A}', '\U{201B}'}
  const DOUBLE_QUOTES := {'"', '\U{201C}', '\U{201D}', '\U{201E}', '\U{201F}'}
  const SPACES := {' ', '\U{A0}', '\U{2002}', '\U{2003}', '\U{2004}', '\U{2005}', '\U{2006}', '\U{2007}', '\U{2008}', '\U{2009}',
                   '\U{200A}', '\U{202F}', '\U{205F}', '\U{3000}'}

  /** The two are the same character, or the same dash, quote or space in different dress. */
  predicate Alike(a: char, b: char)
  {
    || a == b || (a in DASHES && b in DASHES) || (a in QUOTES && b in QUOTES) || (a in DOUBLE_QUOTES && b in DOUBLE_QUOTES)
    || (a in SPACES && b in SPACES)
  }

  lemma FoldIsAlike(a: char, b: char)
    ensures Fold(a) == Fold(b) <==> Alike(a, b)
  {
    FoldsInto(a);
    FoldsInto(b);
  }

  lemma FoldsInto(a: char)
    ensures Fold(a) == if a in DASHES then '-' else if a in QUOTES then '\'' else if a in DOUBLE_QUOTES then '"'
                       else if a in SPACES then ' ' else a
  {
  }

  /** The last comparison accepts exactly texts that are alike character by character once both ends are stripped. */
  lemma PunctuationIff(a: string, b: string)
    ensures Matches(3, a, b) <==>
            |Strip(a)| == |Strip(b)| && forall i :: 0 <= i < |Strip(a)| ==> Alike(Strip(a)[i], Strip(b)[i])
  {
    hide Strip, Fold, Alike;
    forall i | 0 <= i < |Strip(a)| && |Strip(a)| == |Strip(b)|
      ensures Fold(Strip(a)[i]) == Fold(Strip(b)[i]) <==> Alike(Strip(a)[i], Strip(b)[i])
    {
      FoldIsAlike(Strip(a)[i], Strip(b)[i]);
    }
    var x, y := Normalise(a), Normalise(b);
    if x == y {
      forall i | 0 <= i < |Strip(a)| ensures Alike(Strip(a)[i], Strip(b)[i]) { assert x[i] == y[i]; }
    }
  }

  predicate MatchesAt(lines: seq<string>, pattern: seq<string>, p: nat, i: int)
  {
    0 <= i && i + |pattern| <= |lines| && forall j :: 0 <= j < |pattern| ==> Matches(p, lines[i + j], pattern[j])
  }

  /** A pattern matches where the line there matches its first line and the rest matches behind it. */
  lemma MatchesLineByLine(lines: seq<string>, pattern: seq<string>, p: nat, i: int)
    ensures pattern == [] ==> (MatchesAt(lines, pattern, p, i) <==> 0 <= i <= |lines|)
    ensures pattern != [] ==>
              (MatchesAt(lines, pattern, p, i) <==>
               0 <= i < |lines| && Matches(p, lines[i], pattern[0]) && MatchesAt(lines, pattern[1..], p, i + 1))
  {
    hide Matches;
    if pattern != [] && 0 <= i < |lines| && Matches(p, lines[i], pattern[0]) && MatchesAt(lines, pattern[1..], p, i + 1) {
      forall j | 0 <= j < |pattern| ensures Matches(p, lines[i + j], pattern[j]) {
        if j > 0 { assert Matches(p, lines[i + 1 + (j - 1)], pattern[1..][j - 1]); }
      }
    }
    if pattern != [] && MatchesAt(lines, pattern, p, i) {
      assert Matches(p, lines[i + 0], pattern[0]);
      forall j | 0 <= j < |pattern| - 1 ensures Matches(p, lines[i + 1 + j], pattern[1..][j]) {
        assert Matches(p, lines[i + (j + 1)], pattern[j + 1]);
      }
    }
  }

  /** One pass: the first position from `i` to `last` that matches. */
  function SeekPass(lines: seq<string>, pattern: seq<string>, p: nat, i: nat, last: int): (r: Option<nat>)
    ensures r.Some? ==> i <= r.value <= last && MatchesAt(lines, pattern, p, r.value)
    ensures forall k :: i <= k <= last && (r.Some? ==> k < r.value) ==> !MatchesAt(lines, pattern, p, k)
    decreases last + 1 - i
  {
    if i > last then None
    else if MatchesAt(lines, pattern, p, i) then Some(i)
    else SeekPass(lines, pattern, p, i + 1, last)
  }

  function SeekFrom(lines: seq<string>, pattern: seq<string>, p: nat, start: nat, last: int): Option<nat>
    decreases PASSES - p
  {
    if p >= PASSES then None
    else
      var found := SeekPass(lines, pattern, p, start, last);
      if found.Some? then found else SeekFrom(lines, pattern, p + 1, start, last)
  }

  function Seek(lines: seq<string>, pattern: seq<string>, start: nat, eof: bool): Option<nat>
  {
    if pattern == [] then Some(start)
    else if |pattern| > |lines| then None
    else SeekFrom(lines, pattern, 0, if eof then |lines| - |pattern| else start, |lines| - |pattern|)
  }

  /** `i` is the least match, at or after `from`, of the strictest pass that has any. */
  ghost predicate IsBestMatch(lines: seq<string>, pattern: seq<string>, from: nat, i: nat)
  {
    exists p :: 0 <= p < PASSES && from <= i && MatchesAt(lines, pattern, p, i)
      && (forall k :: from <= k < i ==> !MatchesAt(lines, pattern, p, k))
      && (forall q, k :: 0 <= q < p && from <= k ==> !MatchesAt(lines, pattern, q, k))
  }

  lemma SeekFromFindsBest(lines: seq<string>, pattern: seq<string>, p: nat, start: nat)
    requires p <= PASSES
    requires forall q, k :: 0 <= q < p && start <= k ==> !MatchesAt(lines, pattern, q, k)
    ensures var r := SeekFrom(lines, pattern, p, start, |lines| - |pattern|);
            if r.Some? then IsBestMatch(lines, pattern, start, r.value)
            else forall q, k :: 0 <= q < PASSES && start <= k ==> !MatchesAt(lines, pattern, q, k)
    decreases PASSES - p
  {
    if p < PASSES && SeekPass(lines, pattern, p, start, |lines| - |pattern|).None? {
      SeekFromFindsBest(lines, pattern, p + 1, start);
    }
  }

  /** A search finds the least match of the strictest pass that has one at or after the start (the end of
      the file when anchored there), and finds nothing exactly when even the most permissive pass has
      no match. */
  lemma SeekFindsBest(lines: seq<string>, pattern: seq<string>, start: nat, eof: bool)
    requires pattern != []
    ensures var from := if eof && |pattern| <= |lines| then |lines| - |pattern| else start;
            match Seek(lines, pattern, start, eof)
            case Some(i) => IsBestMatch(lines, pattern, from, i)
            case None => forall k :: from <= k ==> !MatchesAt(lines, pattern, LOOSEST, k)
  {
    if |pattern| <= |lines| {
      SeekFromFindsBest(lines, pattern, 0, if eof then |lines| - |pattern| else start);
    }
  }

  // ----- Replacements -----

  /** Lines from `start` on, `len` of them, give way to `lines`. */
  datatype Replacement = Replacement(start: nat, len: nat, lines: seq<string>)

  function End(r: Replacement): nat { r.start + r.len }

  /** What one chunk replaces when located from line `index` on, and the line to go on from. */
  datatype Placed = Placed(replacement: Replacement, next: nat)

  function InsertionPoint(original: seq<string>): nat
  {
    if original != [] && original[|original| - 1] == "" then |original| - 1 else |original|
  }

  function AfterContext(original: seq<string>, chunk: Chunk, index: nat): Result<nat>
  {
    match chunk.context
    case None => Ok(index)
    case Some(context) =>
      match Seek(original, [context], index, false)
      case None => Err(ContextNotFound(context))
      case Some(found) => Ok(found + 1)
  }

  /** Whether the pattern ends in a blank line, which may stand for the final newline of the file. */
  predicate EndsBlank(lines: seq<string>) { lines != [] && lines[|lines| - 1] == "" }

  function DropBlank(lines: seq<string>): seq<string> { if EndsBlank(lines) then lines[..|lines| - 1] else lines }

  function PlaceOld(original: seq<string>, chunk: Chunk, index: nat): Result<Placed>
  {
    match Seek(original, chunk.oldLines, index, chunk.endOfFile)
    case Some(found) =>
      Ok(Placed(Replacement(found, |chunk.oldLines|, chunk.newLines), found + |chunk.oldLines|))
    case None =>
      if !EndsBlank(chunk.oldLines) then Err(LinesNotFound(chunk.oldLines))
      else
        var shorter := DropBlank(chunk.oldLines);
        match Seek(original, shorter, index, chunk.endOfFile)
        case Some(found) =>
          Ok(Placed(Replacement(found, |shorter|, DropBlank(chunk.newLines)), found + |shorter|))
        case None => Err(LinesNotFound(chunk.oldLines))
  }

  function Place(original: seq<string>, chunk: Chunk, index: nat): Result<Placed>
  {
    match AfterContext(original, chunk, index)
    case Err(e) => Err(e)
    case Ok(at) =>
      if chunk.oldLines == [] then Ok(Placed(Replacement(InsertionPoint(original), 0, chunk.newLines), at))
      else PlaceOld(original, chunk, at)
  }

  /** The replacements of the chunks, in the order of the chunks. */
  function PlaceAll(original: seq<string>, chunks: seq<Chunk>, index: nat): Result<seq<Replacement>>
    decreases |chunks|
  {
    if chunks == [] then Ok([])
    else match Place(original, chunks[0], index)
      case Err(e) => Err(e)
      case Ok(placed) =>
        match PlaceAll(original, chunks[1..], placed.next)
        case Err(e) => Err(e)
        case Ok(rest) => Ok([placed.replacement] + rest)
  }

  /** Stable insertion by start. */
  function Insert(r: Replacement, sorted: seq<Replacement>): seq<Replacement>
  {
    if sorted == [] || r.start <= sorted[0].start then [r] + sorted else [sorted[0]] + Insert(r, sorted[1..])
  }

  function SortByStart(rs: seq<Replacement>): seq<Replacement>
  {
    if rs == [] then [] else Insert(rs[0], SortByStart(rs[1..]))
  }

  // ----- Splicing -----

  function Splice(lines: seq<string>, r: Replacement): seq<string>
  {
    var start := if r.start <= |lines| then r.start else |lines|;
    var end := if End(r) <= |lines| then End(r) else |lines|;
    lines[..start] + r.lines + lines[end..]
  }

  /** The replacements applied one after another from the back of the list. */
  function SpliceBack(lines: seq<string>, rs: seq<Replacement>): seq<string>
    decreases |rs|
  {
    if rs == [] then lines else SpliceBack(Splice(lines, rs[|rs| - 1]), rs[..|rs| - 1])
  }

  /** One pass from the front: untouched lines are copied, each span is replaced. */
  function OnePass(lines: seq<string>, rs: seq<Replacement>, pos: nat): seq<string>
    requires pos <= |lines| && Ordered(rs, pos, |lines|)
    decreases |rs|
  {
    if rs == [] then lines[pos..]
    else lines[pos..rs[0].start] + rs[0].lines + OnePass(lines, rs[1..], End(rs[0]))
  }

  /** The spans follow one another without overlap, from `pos` to `limit`. */
  predicate Ordered(rs: seq<Replacement>, pos: nat, limit: nat): (ordered: bool)
    ensures ordered ==> pos <= limit
    decreases |rs|
  {
    if rs == [] then pos <= limit else pos <= rs[0].start && Ordered(rs[1..], End(rs[0]), limit)
  }

  lemma {:induction false} OrderedSplit(rs: seq<Replacement>, pos: nat, limit: nat)
    requires rs != [] && Ordered(rs, pos, limit)
    ensures var last := rs[|rs| - 1];
            Ordered(rs[..|rs| - 1], pos, last.start) && End(last) <= limit && pos <= last.start
    decreases |rs|
  {
    if |rs| > 1 {
      OrderedSplit(rs[1..], End(rs[0]), limit);
      assert rs[1..][..|rs| - 2] == rs[..|rs| - 1][1..];
    } else {
      assert rs[1..] == [];
    }
  }

  lemma {:induction false} OrderedWeaken(rs: seq<Replacement>, pos: nat, limit: nat, more: nat)
    requires Ordered(rs, pos, limit) && limit <= more
    ensures Ordered(rs, pos, more)
    decreases |rs|
  {
    if rs != [] { OrderedWeaken(rs[1..], End(rs[0]), limit, more); }
  }

  /** Lines behind the last span do not matter to the pass before them. */
  lemma {:induction false} OnePassStops(lines: seq<string>, tail: seq<string>, rs: seq<Replacement>, pos: nat)
    requires pos <= |lines| && Ordered(rs, pos, |lines|)
    ensures Ordered(rs, pos, |lines + tail|)
    ensures OnePass(lines + tail, rs, pos) == OnePass(lines, rs, pos) + tail
    decreases |rs|
  {
    OrderedWeaken(rs, pos, |lines|, |lines + tail|);
    if rs != [] {
      OnePassStops(lines, tail, rs[1..], End(rs[0]));
      assert (lines + tail)[pos..rs[0].start] == lines[pos..rs[0].start];
      var copied, rest := lines[pos..rs[0].start] + rs[0].lines, OnePass(lines, rs[1..], End(rs[0]));
      assert copied + (rest + tail) == copied + rest + tail;
    } else {
      assert (lines + tail)[pos..] == lines[pos..] + tail;
    }
  }

  /** The last span of a pass can be replaced separately, at the end. */
  lemma {:induction false} OnePassLast(lines: seq<string>, rs: seq<Replacement>, pos: nat)
    requires rs != [] && pos <= |lines| && Ordered(rs, pos, |lines|)
    ensures var last, front := rs[|rs| - 1], rs[..|rs| - 1];
            && pos <= last.start <= End(last) <= |lines| && Ordered(front, pos, last.start)
            && OnePass(lines, rs, pos) == OnePass(lines[..last.start], front, pos) + last.lines + lines[End(last)..]
    decreases |rs|
  {
    OrderedSplit(rs, pos, |lines|);
    var last, front := rs[|rs| - 1], rs[..|rs| - 1];
    var head := lines[..last.start];
    if |rs| == 1 {
      assert rs[1..] == [] && front == [];
      assert head[pos..] == lines[pos..last.start];
    } else {
      var rest := rs[1..];
      OnePassLast(lines, rest, End(rs[0]));
      assert rest[..|rest| - 1] == front[1..] && rest[|rest| - 1] == last;
      assert front[0] == rs[0];
      assert head[pos..rs[0].start] == lines[pos..rs[0].start];
      var copied, middle := lines[pos..rs[0].start] + rs[0].lines, OnePass(head, front[1..], End(rs[0]));
      assert copied + (middle + last.lines + lines[End(last)..]) == copied + middle + last.lines + lines[End(last)..];
    }
  }

  /** Back-to-front splicing of ordered spans is the single pass from the front. */
  lemma {:induction false} SpliceBackIsOnePass(lines: seq<string>, rs: seq<Replacement>)
    requires Ordered(rs, 0, |lines|)
    ensures SpliceBack(lines, rs) == OnePass(lines, rs, 0)
    decreases |rs|
  {
    if rs != [] {
      var last, front := rs[|rs| - 1], rs[..|rs| - 1];
      OnePassLast(lines, rs, 0);
      var head, tail := lines[..last.start], last.lines + lines[End(last)..];
      assert Splice(lines, last) == head + tail;
      OnePassStops(head, tail, front, 0);
      SpliceBackIsOnePass(Splice(lines, last), front);
    } else {
      assert lines[0..] == lines;
    }
  }

  // ----- When the spans are ordered -----

  /** `a`, placed before `b`, and `b` do not overlap once both are sorted: on equal starts `a` stays first. */
  predicate Apart(a: Replacement, b: Replacement)
  {
    End(a) <= b.start || (b.start < a.start && End(b) <= a.start)
  }

  /** No two replacements, in the order of the chunks, overlap. */
  ghost predicate Compatible(rs: seq<Replacement>)
    decreases |rs|
  {
    rs == [] || ((forall b :: b in rs[1..] ==> Apart(rs[0], b)) && Compatible(rs[1..]))
  }

  ghost predicate InBounds(rs: seq<Replacement>, from: nat, limit: nat)
  {
    forall r :: r in rs ==> from <= r.start && End(r) <= limit
  }

  lemma {:induction false} OrderedLater(rs: seq<Replacement>, pos: nat, limit: nat)
    requires Ordered(rs, pos, limit)
    ensures forall r :: r in rs ==> pos <= r.start
    decreases |rs|
  {
    if rs != [] {
      OrderedLater(rs[1..], End(rs[0]), limit);
      assert forall r :: r in rs ==> r == rs[0] || r in rs[1..];
    }
  }

  lemma {:induction false} InsertOrdered(r: Replacement, rs: seq<Replacement>, pos: nat, limit: nat)
    ensures Ordered(Insert(r, rs), pos, limit) <==>
            Ordered(rs, pos, limit) && pos <= r.start && End(r) <= limit && forall b :: b in rs ==> Apart(r, b)
    decreases |rs|
  {
    if rs == [] {
      assert Insert(r, rs)[1..] == [];
    } else {
      assert forall b :: b in rs <==> b == rs[0] || b in rs[1..];
      assert rs[0] in rs;
      if r.start <= rs[0].start {
        assert Insert(r, rs)[1..] == rs;
        if Ordered(rs, End(r), limit) { OrderedLater(rs, End(r), limit); }
      } else {
        assert Insert(r, rs)[1..] == Insert(r, rs[1..]);
        InsertOrdered(r, rs[1..], End(rs[0]), limit);
      }
    }
  }

  lemma {:induction false} InsertMembers(r: Replacement, rs: seq<Replacement>, b: Replacement)
    ensures b in Insert(r, rs) <==> b == r || b in rs
    decreases |rs|
  {
    if rs != [] && r.start > rs[0].start { InsertMembers(r, rs[1..], b); }
  }

  lemma {:induction false} SortMembers(rs: seq<Replacement>, b: Replacement)
    ensures b in SortByStart(rs) <==> b in rs
    decreases |rs|
  {
    if rs != [] {
      SortMembers(rs[1..], b);
      InsertMembers(rs[0], SortByStart(rs[1..]), b);
    }
  }

  /** The sorted spans follow one another without overlap exactly when no two replacements overlap. */
  lemma {:induction false} SortedIsOrderedIff(rs: seq<Replacement>, limit: nat)
    requires InBounds(rs, 0, limit)
    ensures Ordered(SortByStart(rs), 0, limit) <==> Compatible(rs)
    decreases |rs|
  {
    if rs != [] {
      var rest := SortByStart(rs[1..]);
      SortedIsOrderedIff(rs[1..], limit);
      InsertOrdered(rs[0], rest, 0, limit);
      forall b ensures b in rest <==> b in rs[1..] { SortMembers(rs[1..], b); }
    }
  }

  // ----- Where the chunks are placed -----

  lemma SeekInBounds(lines: seq<string>, pattern: seq<string>, start: nat, eof: bool)
    requires start <= |lines|
    ensures var r := Seek(lines, pattern, start, eof);
            r.Some? ==> r.value + |pattern| <= |lines| && (!eof ==> start <= r.value)
  {
    if pattern != [] { SeekFindsBest(lines, pattern, start, eof); }
  }

  lemma PlaceInBounds(original: seq<string>, chunk: Chunk, index: nat)
    requires index <= |original|
    ensures match Place(original, chunk, index)
            case Err(_) => true
            case Ok(p) =>
              && End(p.replacement) <= |original| && p.next <= |original|
              && (!chunk.endOfFile ==> index <= p.next)
              && (chunk.oldLines == [] ==>
                    p.replacement == Replacement(InsertionPoint(original), 0, chunk.newLines) && index <= p.next)
              && (chunk.oldLines != [] ==> p.next == End(p.replacement))
              && (chunk.oldLines != [] && !chunk.endOfFile ==> index <= p.replacement.start)
  {
    if chunk.context.Some? { SeekInBounds(original, [chunk.context.value], index, false); }
    match AfterContext(original, chunk, index)
    case Err(_) =>
    case Ok(at) =>
      SeekInBounds(original, chunk.oldLines, at, chunk.endOfFile);
      SeekInBounds(original, DropBlank(chunk.oldLines), at, chunk.endOfFile);
  }

  /** How a chunk is placed: a pure addition at the insertion point; any other from the line reached on, or, when
      anchored at the end of the file with lines to replace, over its last lines. */
  ghost predicate PlacedWell(original: seq<string>, chunk: Chunk, index: nat, p: Placed)
  {
    var r, n := p.replacement, |original|;
    && End(r) <= n && index <= p.next <= n
    && (chunk.oldLines == [] ==> r.start == InsertionPoint(original) && r.len == 0)
    && (chunk.oldLines != [] ==> p.next == End(r))
    && (chunk.oldLines != [] && !(chunk.endOfFile && r.len > 0) ==> index <= r.start)
    && (chunk.oldLines != [] && chunk.endOfFile && r.len > 0 ==> End(r) == n)
  }

  lemma SeekEof(lines: seq<string>, pattern: seq<string>, start: nat)
    requires pattern != []
    ensures var r := Seek(lines, pattern, start, true); r.Some? ==> r.value + |pattern| == |lines|
  {
    SeekFindsBest(lines, pattern, start, true);
  }

  lemma EveryChunkIsPlacedWell(original: seq<string>, chunk: Chunk, index: nat)
    requires index <= |original|
    ensures match Place(original, chunk, index) case Err(_) => true case Ok(p) => PlacedWell(original, chunk, index, p)
  {
    PlaceInBounds(original, chunk, index);
    hide Seek;
    if chunk.context.Some? { SeekInBounds(original, [chunk.context.value], index, false); }
    match AfterContext(original, chunk, index)
    case Err(_) =>
    case Ok(at) =>
      if chunk.oldLines != [] {
        SeekEof(original, chunk.oldLines, at);
        if DropBlank(chunk.oldLines) != [] { SeekEof(original, DropBlank(chunk.oldLines), at); }
        SeekInBounds(original, chunk.oldLines, at, chunk.endOfFile);
        SeekInBounds(original, DropBlank(chunk.oldLines), at, chunk.endOfFile);
        SeekNothing(original, at, chunk.endOfFile);
      }
  }

  /** An empty pattern is found where the search starts. */
  lemma SeekNothing(original: seq<string>, at: nat, eof: bool)
    ensures Seek(original, [], at, eof) == Some(at)
  {
  }

  /** An anchored span begins before the end of what the earlier chunk `a` replaces, or inserts, above the end of
      the file. */
  predicate Overruns(original: seq<string>, a: Chunk, r: Replacement, b: Chunk, q: Replacement)
  {
    a.oldLines != [] && b.endOfFile && b.oldLines != [] && q.start < End(r) && r.start < |original|
  }

  /** The file ends in a blank line; of two chunks one is a pure addition before it, and the span of the other
      reaches over it, starting earlier unless it is the earlier chunk. */
  predicate Swallows(original: seq<string>, a: Chunk, r: Replacement, b: Chunk, q: Replacement)
  {
    EndsBlank(original) &&
    (|| (a.oldLines == [] && b.oldLines != [] && q.start < |original| - 1 && End(q) == |original|)
     || (a.oldLines != [] && b.oldLines == [] && r.len > 0 && End(r) == |original|))
  }

  predicate Clash(original: seq<string>, a: Chunk, r: Replacement, b: Chunk, q: Replacement)
  {
    Overruns(original, a, r, b, q) || Swallows(original, a, r, b, q)
  }

  /** Two placed chunks overlap exactly when they clash. */
  lemma OverlapIsClash(original: seq<string>, a: Chunk, at: nat, p: Placed, b: Chunk, later: nat, q: Placed)
    requires PlacedWell(original, a, at, p) && PlacedWell(original, b, later, q) && p.next <= later
    ensures Apart(p.replacement, q.replacement) <==> !Clash(original, a, p.replacement, b, q.replacement)
  {
  }

  /** Each chunk has its replacement, and no two clash. */
  ghost predicate NoClash(original: seq<string>, chunks: seq<Chunk>, rs: seq<Replacement>)
  {
    |chunks| == |rs| && forall i, j :: 0 <= i < j < |chunks| ==> !Clash(original, chunks[i], rs[i], chunks[j], rs[j])
  }

  /** Where the k-th chunk is looked for, and how it is placed. */
  lemma {:induction false} PlacedLater(original: seq<string>, chunks: seq<Chunk>, index: nat, k: nat)
    returns (at: nat, p: Placed)
    requires index <= |original| && k < |chunks| && PlaceAll(original, chunks, index).Ok?
    ensures index <= at && PlacedWell(original, chunks[k], at, p)
    ensures |PlaceAll(original, chunks, index).value| == |chunks|
    ensures PlaceAll(original, chunks, index).value[k] == p.replacement
    decreases |chunks|
  {
    hide Place;
    EveryChunkIsPlacedWell(original, chunks[0], index);
    var first := Place(original, chunks[0], index).value;
    if |chunks| == 1 {
      assert chunks[1..] == [];
      at, p := index, first;
    } else if k == 0 {
      at, p := index, first;
      var _, _ := PlacedLater(original, chunks[1..], first.next, 0);
    } else {
      at, p := PlacedLater(original, chunks[1..], first.next, k - 1);
    }
  }

  lemma {:induction false} PlacedInBounds(original: seq<string>, chunks: seq<Chunk>, index: nat)
    requires index <= |original| && PlaceAll(original, chunks, index).Ok?
    ensures var rs := PlaceAll(original, chunks, index).value; |rs| == |chunks| && InBounds(rs, 0, |original|)
  {
    hide PlaceAll;
    var rs := PlaceAll(original, chunks, index).value;
    if chunks == [] {
      PlaceNone(original, index);
    } else {
      var _, _ := PlacedLater(original, chunks, index, 0);
      forall k | 0 <= k < |rs| ensures End(rs[k]) <= |original| {
        var _, _ := PlacedLater(original, chunks, index, k);
      }
    }
  }

  lemma FirstIsApartIff(original: seq<string>, chunks: seq<Chunk>, index: nat)
    requires index <= |original| && chunks != [] && PlaceAll(original, chunks, index).Ok?
    requires var rs := PlaceAll(original, chunks, index).value; |rs| == |chunks|
    ensures var rs := PlaceAll(original, chunks, index).value;
            forall k :: 0 < k < |rs| ==>
              (Apart(rs[0], rs[k]) <==> !Clash(original, chunks[0], rs[0], chunks[k], rs[k]))
  {
    var rs := PlaceAll(original, chunks, index).value;
    EveryChunkIsPlacedWell(original, chunks[0], index);
    hide Place, Apart, Clash, PlacedWell;
    var first := Place(original, chunks[0], index).value;
    forall k | 0 < k < |rs|
      ensures Apart(rs[0], rs[k]) <==> !Clash(original, chunks[0], rs[0], chunks[k], rs[k])
    {
      assert first.next <= |original| by { NextInBounds(original, chunks[0], index, first); }
      var later, q := PlacedLater(original, chunks[1..], first.next, k - 1);
      OverlapIsClash(original, chunks[0], index, first, chunks[k], later, q);
    }
  }

  lemma NextInBounds(original: seq<string>, chunk: Chunk, index: nat, p: Placed)
    requires PlacedWell(original, chunk, index, p)
    ensures p.next <= |original|
  {
  }

  /** The chunks after the first are placed by themselves, from where the first one leaves off. */
  lemma RestIsPlaced(original: seq<string>, chunks: seq<Chunk>, index: nat) returns (next: nat)
    requires index <= |original| && chunks != [] && PlaceAll(original, chunks, index).Ok?
    ensures next <= |original| && PlaceAll(original, chunks[1..], next).Ok?
    ensures PlaceAll(original, chunks, index).value != []
    ensures PlaceAll(original, chunks[1..], next).value == PlaceAll(original, chunks, index).value[1..]
  {
    EveryChunkIsPlacedWell(original, chunks[0], index);
    hide Place;
    var first := Place(original, chunks[0], index).value;
    NextInBounds(original, chunks[0], index, first);
    next := first.next;
  }

  /** The replacements are compatible exactly when no two chunks clash. */
  lemma {:induction false} CompatibleIffNoClash(original: seq<string>, chunks: seq<Chunk>, index: nat)
    requires index <= |original| && PlaceAll(original, chunks, index).Ok?
    ensures var rs := PlaceAll(original, chunks, index).value;
            |rs| == |chunks| && (Compatible(rs) <==> NoClash(original, chunks, rs))
    decreases |chunks|
  {
    hide PlaceAll, Place, Apart, Clash, NoClash, Compatible, InBounds;
    var rs := PlaceAll(original, chunks, index).value;
    PlacedInBounds(original, chunks, index);
    if chunks == [] {
      NothingClashes(original, chunks, rs);
    } else {
      var next := RestIsPlaced(original, chunks, index);
      FirstIsApartIff(original, chunks, index);
      CompatibleIffNoClash(original, chunks[1..], next);
      NoClashSplits(original, chunks, rs);
      MembersOfRest(rs);
      CompatibleSplits(rs);
    }
  }

  lemma NothingClashes(original: seq<string>, chunks: seq<Chunk>, rs: seq<Replacement>)
    requires chunks == [] && rs == []
    ensures Compatible(rs) && NoClash(original, chunks, rs)
  {
  }

  lemma CompatibleSplits(rs: seq<Replacement>)
    requires rs != []
    ensures Compatible(rs) <==> (forall b :: b in rs[1..] ==> Apart(rs[0], b)) && Compatible(rs[1..])
  {
  }

  lemma MembersOfRest(rs: seq<Replacement>)
    requires rs != []
    ensures forall b :: b in rs[1..] <==> exists k :: 0 < k < |rs| && rs[k] == b
  {
    forall b ensures b in rs[1..] <==> exists k :: 0 < k < |rs| && rs[k] == b {
      if b in rs[1..] {
        var k :| 0 <= k < |rs| - 1 && rs[1..][k] == b;
        assert rs[k + 1] == b;
      }
    }
  }

  lemma NoClashSplits(original: seq<string>, chunks: seq<Chunk>, rs: seq<Replacement>)
    requires |chunks| == |rs| > 0
    ensures NoClash(original, chunks, rs) <==>
            NoClash(original, chunks[1..], rs[1..])
            && forall k :: 0 < k < |rs| ==> !Clash(original, chunks[0], rs[0], chunks[k], rs[k])
  {
    hide Clash;
    var cs, qs := chunks[1..], rs[1..];
    assert forall k :: 0 < k < |rs| ==> cs[k - 1] == chunks[k] && qs[k - 1] == rs[k];
    if NoClash(original, cs, qs) && forall k :: 0 < k < |rs| ==> !Clash(original, chunks[0], rs[0], chunks[k], rs[k]) {
      forall i, j | 0 <= i < j < |chunks| ensures !Clash(original, chunks[i], rs[i], chunks[j], rs[j]) {
        if i > 0 { assert !Clash(original, cs[i - 1], qs[i - 1], cs[j - 1], qs[j - 1]); }
      }
    }
  }

  /** For every patch of a file the replacements are in bounds, and once sorted they are disjoint and in order
      exactly when no two chunks clash. Splicing them from the back of the list is then one pass from the
      front that copies untouched lines and replaces each span. */
  lemma SpliceRefinesOnePass(original: seq<string>, chunks: seq<Chunk>)
    requires PlaceAll(original, chunks, 0).Ok?
    ensures var rs := PlaceAll(original, chunks, 0).value;
            var sorted := SortByStart(rs);
            && |rs| == |chunks| && InBounds(rs, 0, |original|)
            && (Ordered(sorted, 0, |original|) <==> NoClash(original, chunks, rs))
            && (NoClash(original, chunks, rs) ==> SpliceBack(original, sorted) == OnePass(original, sorted, 0))
  {
    hide PlaceAll, SortByStart, Ordered, OnePass, SpliceBack, NoClash, Compatible, InBounds;
    var rs := PlaceAll(original, chunks, 0).value;
    PlacedInBounds(original, chunks, 0);
    CompatibleIffNoClash(original, chunks, 0);
    SortedIsOrderedIff(rs, |original|);
    if NoClash(original, chunks, rs) { SpliceBackIsOnePass(original, SortByStart(rs)); }
  }

  /** No chunk is anchored at the end of the file, and no pure addition meets a blank last line. */
  ghost predicate Steady(original: seq<string>, chunks: seq<Chunk>)
  {
    forall c :: c in chunks ==> !c.endOfFile && (c.oldLines == [] ==> !EndsBlank(original))
  }

  /** Such chunks never clash, wherever they are placed. */
  lemma SteadyChunksNeverClash(original: seq<string>, chunks: seq<Chunk>, rs: seq<Replacement>)
    requires |chunks| == |rs| && Steady(original, chunks)
    ensures NoClash(original, chunks, rs)
  {
    forall i, j | 0 <= i < j < |chunks| ensures !Clash(original, chunks[i], rs[i], chunks[j], rs[j]) {
      assert chunks[i] in chunks && chunks[j] in chunks;
    }
  }

  /** Where a search for a pattern starts when the line reached is `at`. */
  function SearchStart(original: seq<string>, pattern: seq<string>, at: nat, eof: bool): nat
  {
    if eof && |pattern| <= |original| then |original| - |pattern| else at
  }

  /** The old lines of a chunk are replaced where they match best at or after the line reached, or at the end of
      the file when anchored there: after the best match of the context, if there is one, and without a
      final blank only when the full lines match nowhere. */
  lemma PlacedAtBestMatch(original: seq<string>, chunk: Chunk, index: nat) returns (at: nat)
    requires chunk.oldLines != [] && Place(original, chunk, index).Ok?
    ensures match chunk.context
            case None => at == index
            case Some(context) => at > 0 && IsBestMatch(original, [context], index, at - 1)
    ensures var r, full, shorter := Place(original, chunk, index).value.replacement, chunk.oldLines, DropBlank(chunk.oldLines);
            var eof := chunk.endOfFile;
            || (r.len == |full| && r.lines == chunk.newLines
                && IsBestMatch(original, full, SearchStart(original, full, at, eof), r.start))
            || (r.len == |full| - 1 && EndsBlank(full) && r.lines == DropBlank(chunk.newLines)
                && (forall k :: SearchStart(original, full, at, eof) <= k ==> !MatchesAt(original, full, LOOSEST, k))
                && if r.len == 0 then r.start == at
                   else IsBestMatch(original, shorter, SearchStart(original, shorter, at, eof), r.start))
  {
    hide IsBestMatch, MatchesAt;
    if chunk.context.Some? { SeekFindsBest(original, [chunk.context.value], index, false); }
    at := AfterContext(original, chunk, index).value;
    SeekFindsBest(original, chunk.oldLines, at, chunk.endOfFile);
    if DropBlank(chunk.oldLines) != [] { SeekFindsBest(original, DropBlank(chunk.oldLines), at, chunk.endOfFile); }
  }

  /** Where the search for the next chunk goes on: behind the lines replaced, or behind the context of an addition,
      which goes to the end of the file, before a final blank line. */
  lemma SearchGoesOn(original: seq<string>, chunk: Chunk, index: nat)
    requires Place(original, chunk, index).Ok?
    ensures var placed := Place(original, chunk, index).value;
            var r := placed.replacement;
            if chunk.oldLines != [] then placed.next == r.start + r.len
            else
              && r.len == 0 && r.lines == chunk.newLines
              && r.start == (if |original| > 0 && original[|original| - 1] == "" then |original| - 1 else |original|)
              && (chunk.context.None? ==> placed.next == index)
              && (chunk.context.Some? ==> placed.next > 0 && IsBestMatch(original, [chunk.context.value], index, placed.next - 1))
  {
    hide IsBestMatch, MatchesAt;
    if chunk.context.Some? { SeekFindsBest(original, [chunk.context.value], index, false); }
  }

  /** A chunk has no place only if even the loosest comparison finds its context nowhere ahead, or its lines nowhere
      behind the context, with or without a final blank. */
  lemma NoPlace(original: seq<string>, chunk: Chunk, index: nat) returns (at: nat)
    requires Place(original, chunk, index).Err?
    ensures match Place(original, chunk, index).error
            case ContextNotFound(context) =>
              chunk.context == Some(context) && forall k :: index <= k ==> !MatchesAt(original, [context], LOOSEST, k)
            case LinesNotFound(lines) =>
              var shorter := DropBlank(lines);
              && lines == chunk.oldLines != []
              && (match chunk.context
                  case None => at == index
                  case Some(context) => at > 0 && IsBestMatch(original, [context], index, at - 1))
              && (forall k :: SearchStart(original, lines, at, chunk.endOfFile) <= k ==> !MatchesAt(original, lines, LOOSEST, k))
              && (EndsBlank(lines) ==>
                    && shorter != []
                    && forall k :: SearchStart(original, shorter, at, chunk.endOfFile) <= k ==> !MatchesAt(original, shorter, LOOSEST, k))
            case _ => false
  {
    hide IsBestMatch, MatchesAt;
    if chunk.context.Some? { SeekFindsBest(original, [chunk.context.value], index, false); }
    at := index;
    if AfterContext(original, chunk, index).Ok? {
      at := AfterContext(original, chunk, index).value;
      SeekFindsBest(original, chunk.oldLines, at, chunk.endOfFile);
      if DropBlank(chunk.oldLines) != [] { SeekFindsBest(original, DropBlank(chunk.oldLines), at, chunk.endOfFile); }
    }
  }

  /** Each chunk is looked for from where the one before it was placed. */
  lemma {:induction false} ChunksFollow(original: seq<string>, chunks: seq<Chunk>, index: nat) returns (at: seq<nat>)
    requires PlaceAll(original, chunks, index).Ok?
    ensures var rs := PlaceAll(original, chunks, index).value;
            && |rs| == |chunks| && |at| == |chunks| + 1 && at[0] == index
            && forall k :: 0 <= k < |chunks| ==> Place(original, chunks[k], at[k]) == Ok(Placed(rs[k], at[k + 1]))
    decreases |chunks|
  {
    hide Place;
    if chunks == [] {
      at := [index];
    } else {
      var rest := ChunksFollow(original, chunks[1..], Place(original, chunks[0], index).value.next);
      at := [index] + rest;
    }
  }

  // ----- Where the refinement fails -----

  /** Where a chunk without context whose lines match exactly is placed. */
  lemma PlaceExact(original: seq<string>, chunk: Chunk, index: nat) returns (at: nat)
    requires chunk.context.None? && chunk.oldLines != [] && |chunk.oldLines| <= |original|
    requires MatchesAt(original, chunk.oldLines, 0, if chunk.endOfFile then |original| - |chunk.oldLines| else index)
    ensures at == if chunk.endOfFile then |original| - |chunk.oldLines| else index
    ensures Place(original, chunk, index) ==
            Ok(Placed(Replacement(at, |chunk.oldLines|, chunk.newLines), at + |chunk.oldLines|))
  {
    at := if chunk.endOfFile then |original| - |chunk.oldLines| else index;
    assert SeekPass(original, chunk.oldLines, 0, at, |original| - |chunk.oldLines|) == Some(at);
    assert Seek(original, chunk.oldLines, index, chunk.endOfFile) == Some(at);
  }

  /** An End-of-File chunk ignores the line reached: its span can cover one already replaced, and then
      only the first of the two edits is in the result. */
  lemma EndOfFileChunkCanOverlap(a: string, b: string, c: string)
    ensures var chunks := [Chunk(None, [a], [b], false), Chunk(None, [a], [c], true)];
            var rs := [Replacement(0, 1, [b]), Replacement(0, 1, [c])];
            PlaceAll([a], chunks, 0) == Ok(rs) && !NoClash([a], chunks, rs) && SpliceBack([a], SortByStart(rs)) == [b]
  {
    hide Place, PlaceAll, SortByStart, SpliceBack, Splice;
    var first, second := Chunk(None, [a], [b], false), Chunk(None, [a], [c], true);
    var r, q := Replacement(0, 1, [b]), Replacement(0, 1, [c]);
    var _ := PlaceExact([a], first, 0);
    var _ := PlaceExact([a], second, 1);
    PlaceTwo([a], first, second, Placed(r, 1), Placed(q, 1));
    FirstTwoClash([a], first, second, r, q);
    SortTwo(r, q);
    SpliceTwo([a], r, q);
    SpliceOnlyLine([a], q);
    SpliceOnlyLine([c], r);
  }

  lemma SpliceOnlyLine(lines: seq<string>, r: Replacement)
    requires |lines| == 1 && r.start == 0 && r.len == 1
    ensures Splice(lines, r) == r.lines
  {
  }

  /** In a file that ends in a blank line, a pure addition lands inside a span that reaches over that line: of
      what it adds the first line is lost, and the blank line is kept though it was replaced. */
  lemma AdditionCanLandInASpan(original: seq<string>, newLines: seq<string>, added: seq<string>)
    requires EndsBlank(original) && added != []
    ensures var chunks := [Chunk(None, original, newLines, false), Chunk(None, [], added, false)];
            var rs := [Replacement(0, |original|, newLines), Replacement(|original| - 1, 0, added)];
            && PlaceAll(original, chunks, 0) == Ok(rs) && !NoClash(original, chunks, rs)
            && SpliceBack(original, SortByStart(rs)) == newLines + added[1..] + [""]
  {
    hide PlaceAll, SortByStart, SpliceBack, PlaceOld, Splice;
    var n := |original|;
    var first, second := Chunk(None, original, newLines, false), Chunk(None, [], added, false);
    var r, q := Replacement(0, n, newLines), Replacement(n - 1, 0, added);
    var _ := PlaceExact(original, first, 0);
    PlaceTwo(original, first, second, Placed(r, n), Placed(q, n));
    assert Clash(original, first, r, second, q);
    FirstTwoClash(original, first, second, r, q);
    SortTwo(r, q);
    SpliceTwo(original, r, q);
    AdditionIsCut(original, newLines, added);
  }

  lemma FirstTwoClash(original: seq<string>, a: Chunk, b: Chunk, r: Replacement, q: Replacement)
    requires Clash(original, a, r, b, q)
    ensures !NoClash(original, [a, b], [r, q])
  {
    hide Clash;
    assert [a, b][0] == a && [a, b][1] == b && [r, q][0] == r && [r, q][1] == q;
  }

  lemma AdditionIsCut(original: seq<string>, newLines: seq<string>, added: seq<string>)
    requires EndsBlank(original) && added != []
    ensures var r, q := Replacement(0, |original|, newLines), Replacement(|original| - 1, 0, added);
            Splice(Splice(original, q), r) == newLines + added[1..] + [""]
  {
    var n := |original|;
    var once := original[..n - 1] + added + original[n - 1..];
    assert Splice(original, Replacement(n - 1, 0, added)) == once;
    assert original[n - 1..] == [""];
    assert once[n..] == added[1..] + [""];
  }

  lemma PlaceTwo(original: seq<string>, first: Chunk, second: Chunk, p: Placed, q: Placed)
    requires Place(original, first, 0) == Ok(p) && Place(original, second, p.next) == Ok(q)
    ensures PlaceAll(original, [first, second], 0) == Ok([p.replacement, q.replacement])
  {
    hide Place;
    assert [first, second][1..] == [second] && [second][1..] == [];
    assert PlaceAll(original, [], q.next) == Ok([]);
    assert [q.replacement] + [] == [q.replacement];
    assert PlaceAll(original, [second], p.next) == Ok([q.replacement]);
    assert [p.replacement] + [q.replacement] == [p.replacement, q.replacement];
  }

  lemma SortTwo(a: Replacement, b: Replacement)
    requires a.start <= b.start
    ensures SortByStart([a, b]) == [a, b]
  {
    assert [a, b][1..] == [b] && [b][1..] == [];
    assert SortByStart([]) == [] && [b] + [] == [b];
    assert SortByStart([b]) == Insert(b, []) == [b];
    assert [a] + [b] == [a, b];
  }

  lemma SpliceTwo(lines: seq<string>, a: Replacement, b: Replacement)
    ensures SpliceBack(lines, [a, b]) == Splice(Splice(lines, b), a)
  {
    hide Splice;
    assert [a, b][..1] == [a] && [a][..0] == [];
    var once := Splice(lines, b);
    var twice := Splice(once, a);
    assert SpliceBack(twice, []) == twice;
    assert SpliceBack(once, [a]) == twice;
  }

  // ----- Whole files -----

  function FileLines(contents: string): seq<string> { DropBlank(Split(contents, '\n')) }

  function WithFinalNewline(lines: seq<string>): seq<string>
  {
    if EndsBlank(lines) then lines else lines + [""]
  }

  /** A file is its lines, each but perhaps the last with its newline; and the lines written get a final one. */
  lemma FileIsItsLines(contents: string)
    ensures var lines := FileLines(contents);
            && AllWithout(lines, '\n')
            && (contents == (if lines == [] then "" else Join(lines, '\n') + "\n") || (lines != [] && contents == Join(lines, '\n')))
  {
    hide Split, Join, AllWithout;
    var pieces := Split(contents, '\n');
    JoinOfSplit(contents, '\n');
    SplitPiecesWithout(contents, '\n');
    LinesOfPieces(pieces);
  }

  lemma LinesOfPieces(pieces: seq<string>)
    requires pieces != [] && AllWithout(pieces, '\n')
    ensures var lines := DropBlank(pieces);
            && AllWithout(lines, '\n')
            && (Join(pieces, '\n') == (if lines == [] then "" else Join(lines, '\n') + "\n") || (lines != [] && lines == pieces))
  {
    hide Without;
    if EndsBlank(pieces) {
      var lines := pieces[..|pieces| - 1];
      assert pieces == lines + [""];
      if lines != [] { JoinBlank(lines); }
    }
  }

  lemma {:induction false} JoinBlank(lines: seq<string>)
    requires lines != []
    ensures Join(lines + [""], '\n') == Join(lines, '\n') + "\n"
    decreases |lines|
  {
    var all := lines + [""];
    assert all[1..] == lines[1..] + [""] && all[0] == lines[0];
    if |lines| == 1 {
      assert all[1..] == [""] && Join([""], '\n') == "";
    } else {
      JoinBlank(lines[1..]);
      assert lines[0] + ['\n'] + (Join(lines[1..], '\n') + "\n") == lines[0] + ['\n'] + Join(lines[1..], '\n') + "\n";
    }
  }

  lemma DropBlankDrops(lines: seq<string>)
    ensures DropBlank(lines + [""]) == lines
    ensures lines == [] || lines[|lines| - 1] != "" ==> DropBlank(lines) == lines && WithFinalNewline(lines) == lines + [""]
    ensures WithFinalNewline(lines + [""]) == lines + [""]
  {
  }

  function UpdatedContents(contents: string, chunks: seq<Chunk>): Result<string>
  {
    match PlaceAll(FileLines(contents), chunks, 0)
    case Err(e) => Err(e)
    case Ok(rs) => Ok(Join(WithFinalNewline(SpliceBack(FileLines(contents), SortByStart(rs))), '\n'))
  }

  /** What a caller reads: when no two chunks clash, the new text is the untouched lines of the file in order
      with each span replaced, and a final newline. */
  lemma UpdateIsOnePass(contents: string, chunks: seq<Chunk>)
    requires PlaceAll(FileLines(contents), chunks, 0).Ok?
    requires NoClash(FileLines(contents), chunks, PlaceAll(FileLines(contents), chunks, 0).value)
    ensures var lines := FileLines(contents);
            var sorted := SortByStart(PlaceAll(lines, chunks, 0).value);
            Ordered(sorted, 0, |lines|)
            && UpdatedContents(contents, chunks) == Ok(Join(WithFinalNewline(OnePass(lines, sorted, 0)), '\n'))
  {
    hide PlaceAll, SortByStart, Ordered, OnePass, SpliceBack, NoClash, InBounds, FileLines, Join, WithFinalNewline;
    SpliceRefinesOnePass(FileLines(contents), chunks);
  }

  lemma {:induction false} JoinEndsWithNewline(lines: seq<string>)
    requires EndsBlank(lines)
    ensures |lines| == 1 || (Join(lines, '\n') != "" && Join(lines, '\n')[|Join(lines, '\n')| - 1] == '\n')
    decreases |lines|
  {
    if |lines| > 2 {
      JoinEndsWithNewline(lines[1..]);
    } else if |lines| == 2 {
      assert Join(lines[1..], '\n') == "";
    }
  }

  /** An updated file is empty or ends with a newline. */
  lemma UpdatedEndsWithNewline(contents: string, chunks: seq<Chunk>)
    ensures match UpdatedContents(contents, chunks)
            case Err(_) => true
            case Ok(text) => text == "" || text[|text| - 1] == '\n'
  {
    hide PlaceAll, SortByStart, SpliceBack, FileLines;
    match PlaceAll(FileLines(contents), chunks, 0)
    case Err(_) =>
    case Ok(rs) => JoinEndsWithNewline(WithFinalNewline(SpliceBack(FileLines(contents), SortByStart(rs))));
  }

  // ----- The loops -----

  function Prepend(rs: seq<Replacement>, rest: Result<seq<Replacement>>): Result<seq<Replacement>>
  {
    match rest case Err(e) => Err(e) case Ok(more) => Ok(rs + more)
  }

  method ComputeReplacements(original: seq<string>, chunks: seq<Chunk>) returns (r: Result<seq<Replacement>>)
    ensures match PlaceAll(original, chunks, 0)
            case Err(e) => r == Err(e)
            case Ok(rs) => r == Ok(SortByStart(rs))
  {
    hide PlaceAll, Seek, SortByStart;
    PrependNothing(PlaceAll(original, chunks, 0));
    var replacements: seq<Replacement> := [];
    var lineIndex: nat := 0;
    assert chunks[0..] == chunks;
    for i := 0 to |chunks|
      invariant PlaceAll(original, chunks, 0) == Prepend(replacements, PlaceAll(original, chunks[i..], lineIndex))
    {
      var chunk := chunks[i];
      assert chunks[i..][1..] == chunks[i + 1..];
      ghost var before, index := replacements, lineIndex;
      if chunk.context.Some? {
        var found := Seek(original, [chunk.context.value], lineIndex, false);
        if found.None? {
          PlaceFails(original, chunks[i..], index, before);
          return Err(ContextNotFound(chunk.context.value));
        }
        lineIndex := found.value + 1;
      }
      if chunk.oldLines == [] {
        replacements := replacements + [Replacement(InsertionPoint(original), 0, chunk.newLines)];
      } else {
        var pattern, newLines := chunk.oldLines, chunk.newLines;
        var found := Seek(original, pattern, lineIndex, chunk.endOfFile);
        if found.None? && pattern[|pattern| - 1] == "" {
          pattern, newLines := pattern[..|pattern| - 1], DropBlank(newLines);
          found := Seek(original, pattern, lineIndex, chunk.endOfFile);
        }
        if found.None? {
          PlaceFails(original, chunks[i..], index, before);
          return Err(LinesNotFound(chunk.oldLines));
        }
        replacements := replacements + [Replacement(found.value, |pattern|, newLines)];
        lineIndex := found.value + |pattern|;
      }
      PrependStep(original, chunks[i..], index, before);
    }
    PlaceNone(original, lineIndex);
    assert chunks[|chunks|..] == [] && replacements + [] == replacements;
    r := Ok(SortByStart(replacements));
  }

  lemma PrependNothing(r: Result<seq<Replacement>>)
    ensures Prepend([], r) == r
  {
    if r.Ok? { assert [] + r.value == r.value; }
  }

  lemma PlaceNone(original: seq<string>, index: nat)
    ensures PlaceAll(original, [], index) == Ok([])
  {
  }

  lemma PlaceFails(original: seq<string>, chunks: seq<Chunk>, index: nat, rs: seq<Replacement>)
    requires chunks != [] && Place(original, chunks[0], index).Err?
    ensures Prepend(rs, PlaceAll(original, chunks, index)) == Err(Place(original, chunks[0], index).error)
  {
  }

  lemma PrependStep(original: seq<string>, chunks: seq<Chunk>, index: nat, rs: seq<Replacement>)
    requires chunks != [] && Place(original, chunks[0], index).Ok?
    ensures var placed := Place(original, chunks[0], index).value;
            Prepend(rs, PlaceAll(original, chunks, index)) ==
            Prepend(rs + [placed.replacement], PlaceAll(original, chunks[1..], placed.next))
  {
    var placed := Place(original, chunks[0], index).value;
    match PlaceAll(original, chunks[1..], placed.next)
    case Err(_) =>
    case Ok(rest) => assert rs + ([placed.replacement] + rest) == rs + [placed.replacement] + rest;
  }

  /** The new text of a file after one update hunk. */
  method UpdateFile(contents: string, chunks: seq<Chunk>) returns (r: Result<string>)
    ensures r == UpdatedContents(contents, chunks)
  {
    hide PlaceAll, SortByStart, SpliceBack, Ordered, OnePass, Split, Join;
    var lines := Split(contents, '\n');
    if lines[|lines| - 1] == "" { lines := lines[..|lines| - 1]; }
    assert lines == FileLines(contents);
    var replacements := ComputeReplacements(lines, chunks);
    if replacements.Err? { return Err(replacements.error); }
    lines := SpliceAll(lines, replacements.value);
    if lines == [] || lines[|lines| - 1] != "" { lines := lines + [""]; }
    r := Ok(Join(lines, '\n'));
  }

  /** Splices the replacements in place, from the back of the list. */
  method SpliceAll(original: seq<string>, rs: seq<Replacement>) returns (lines: seq<string>)
    ensures lines == SpliceBack(original, rs)
    ensures Ordered(rs, 0, |original|) ==> lines == OnePass(original, rs, 0)
  {
    lines := original;
    var i: nat := |rs|;
    assert rs[..i] == rs;
    while i > 0
      invariant i <= |rs| && SpliceBack(original, rs) == SpliceBack(lines, rs[..i])
    {
      i := i - 1;
      SpliceBackStep(lines, rs[..i + 1]);
      assert rs[..i + 1][..i] == rs[..i];
      lines := Splice(lines, rs[i]);
    }
    if Ordered(rs, 0, |original|) { SpliceBackIsOnePass(original, rs); }
  }

  lemma SpliceBackStep(lines: seq<string>, rs: seq<Replacement>)
    requires rs != []
    ensures SpliceBack(lines, rs) == SpliceBack(Splice(lines, rs[|rs| - 1]), rs[..|rs| - 1])
  {
  }
}
