/** Cutting a file into overlapping chunks (agent/ollama_code/knowledge.py). */
module Chunker {
  import opened Streams
  import opened Text

  const CHUNK_CHARS := 6_000
  const CHUNK_OVERLAP_LINES := 8

  /** A chunk as it is stored: 1-based first line, last line, and the stripped text between. */
  datatype Piece = Piece(first: nat, last: nat, text: string)

  /** Lines `start` to `end`, the last excluded. */
  datatype Window = Window(start: nat, end: nat)

  /** Characters in the lines, each with its newline. */
  function Size(lines: seq<string>, start: nat, end: nat): nat
    requires start <= end <= |lines|
    decreases end
  {
    if start == end then 0 else Size(lines, start, end - 1) + |lines[end - 1]| + 1
  }

  /** A window takes lines until it is full; it always takes one. */
  function WindowEnd(lines: seq<string>, start: nat, end: nat): (r: nat)
    requires start <= end <= |lines|
    ensures end <= r <= |lines| && (start < |lines| ==> start < r)
    decreases |lines| - end
  {
    if end < |lines| && (Size(lines, start, end) < CHUNK_CHARS || end == start) then WindowEnd(lines, start, end + 1)
    else end
  }

  function NextStart(w: Window): nat
  {
    if w.start + 1 < w.end - CHUNK_OVERLAP_LINES then w.end - CHUNK_OVERLAP_LINES else w.start + 1
  }

  /** All windows from `start` on, those that hold only blanks too. */
  function Windows(lines: seq<string>, start: nat): (r: seq<Window>)
    requires start <= |lines|
    ensures start < |lines| ==> r != [] && r[0].start == start
    ensures forall k :: 0 <= k < |r| ==> r[k].start < r[k].end <= |lines|
    decreases |lines| - start
  {
    if start == |lines| then []
    else
      var w := Window(start, WindowEnd(lines, start, start));
      if w.end == |lines| then [w] else [w] + Windows(lines, NextStart(w))
  }

  function WindowText(lines: seq<string>, w: Window): string
    requires w.start <= w.end <= |lines|
  {
    Strip(Join(lines[w.start..w.end], '\n'))
  }

  /** The chunk of a window, unless its text is blank. */
  function KeptAlone(lines: seq<string>, w: Window): seq<Piece>
    requires w.start < w.end <= |lines|
  {
    if WindowText(lines, w) == "" then [] else [Piece(w.start + 1, w.end, WindowText(lines, w))]
  }

  /** The chunks of the windows. */
  function Kept(lines: seq<string>, windows: seq<Window>): seq<Piece>
    requires forall k :: 0 <= k < |windows| ==> windows[k].start < windows[k].end <= |lines|
  {
    if windows == [] then [] else KeptAlone(lines, windows[0]) + Kept(lines, windows[1..])
  }

  function Chunks(lines: seq<string>): seq<Piece> { Kept(lines, Windows(lines, 0)) }

  // ----- The windows -----

  /** One line, or filled short of the limit by all lines but the last; and closed only when full or at the end. */
  ghost predicate WellSized(lines: seq<string>, w: Window)
    requires w.start < w.end <= |lines|
  {
    && (w.end == w.start + 1 || Size(lines, w.start, w.end - 1) < 6_000)
    && (w.end == |lines| || Size(lines, w.start, w.end) >= 6_000)
  }

  /** The next window starts later, leaves no line out, and repeats eight lines, or all but the first of fewer. */
  ghost predicate Follows(w: Window, next: Window)
  {
    w.start < next.start <= w.end && w.end - next.start == if w.end - w.start > 8 then 8 else w.end - w.start - 1
  }

  lemma {:induction false} JoinLast(lines: seq<string>, last: string)
    requires lines != []
    ensures Join(lines + [last], '\n') == Join(lines, '\n') + ['\n'] + last
    decreases |lines|
  {
    var all := lines + [last];
    assert all[1..] == lines[1..] + [last] && all[0] == lines[0];
    if |lines| == 1 {
      assert all[1..] == [last] && Join([last], '\n') == last;
    } else {
      JoinLast(lines[1..], last);
      assert lines[0] + ['\n'] + (Join(lines[1..], '\n') + ['\n'] + last) == lines[0] + ['\n'] + Join(lines[1..], '\n') + ['\n'] + last;
    }
  }

  /** The size of a window is the length of its joined lines, with a final newline. */
  lemma {:induction false} SizeIsLength(lines: seq<string>, start: nat, end: nat)
    requires start < end <= |lines|
    ensures Size(lines, start, end) == |Join(lines[start..end], '\n')| + 1
    decreases end
  {
    if end == start + 1 {
      assert lines[start..end] == [lines[start]] && Size(lines, start, start) == 0;
    } else {
      SizeIsLength(lines, start, end - 1);
      assert lines[start..end] == lines[start..end - 1] + [lines[end - 1]];
      JoinLast(lines[start..end - 1], lines[end - 1]);
    }
  }

  lemma {:induction false} WindowEndIsWellSized(lines: seq<string>, start: nat, end: nat)
    requires start <= end <= |lines| && start < |lines|
    requires end > start + 1 ==> Size(lines, start, end - 1) < CHUNK_CHARS
    ensures WellSized(lines, Window(start, WindowEnd(lines, start, end)))
    decreases |lines| - end
  {
    if end < |lines| && (Size(lines, start, end) < CHUNK_CHARS || end == start) {
      WindowEndIsWellSized(lines, start, end + 1);
    }
  }

  lemma {:induction false} WindowsTile(lines: seq<string>, start: nat)
    requires start < |lines|
    ensures var ws := Windows(lines, start);
            && ws[|ws| - 1].end == |lines|
            && (forall k :: 0 <= k < |ws| ==> WellSized(lines, ws[k]))
            && (forall k :: 0 < k < |ws| ==> Follows(ws[k - 1], ws[k]))
    decreases |lines| - start
  {
    var w := Window(start, WindowEnd(lines, start, start));
    WindowEndIsWellSized(lines, start, start);
    if w.end < |lines| {
      hide WellSized, WindowEnd;
      WindowsTile(lines, NextStart(w));
      var rest := Windows(lines, NextStart(w));
      assert Follows(w, rest[0]);
      var ws := [w] + rest;
      assert forall k :: 0 < k < |ws| ==> Follows(ws[k - 1], ws[k]) by {
        forall k | 0 < k < |ws| ensures Follows(ws[k - 1], ws[k]) {
          if k > 1 { assert Follows(rest[k - 2], rest[k - 1]); }
        }
      }
    }
  }

  // ----- Coverage -----

  ghost predicate Visible(s: string) { exists i :: 0 <= i < |s| && !IsSpace(s[i]) }

  lemma {:induction false} VisibleIsNotStripped(s: string)
    ensures Strip(s) != "" <==> Visible(s)
  {
    RStripKeepsVisible(s);
    LStripKeepsVisible(RStrip(s));
    StripTrims(s);
    if Strip(s) != "" { assert !IsSpace(Strip(s)[0]); }
  }

  lemma VisibleEither(a: string, b: string)
    ensures Visible(a + b) <==> Visible(a) || Visible(b)
  {
    var s := a + b;
    assert forall i :: 0 <= i < |s| ==> s[i] == if i < |a| then a[i] else b[i - |a|];
    assert forall i :: 0 <= i < |a| ==> s[i] == a[i];
    assert forall i :: 0 <= i < |b| ==> s[|a| + i] == b[i];
  }

  lemma {:induction false} RStripKeepsVisible(s: string)
    ensures Visible(RStrip(s)) <==> Visible(s)
  {
    if s != "" && IsSpace(s[|s| - 1]) {
      RStripKeepsVisible(s[..|s| - 1]);
      assert s == s[..|s| - 1] + [s[|s| - 1]];
      VisibleEither(s[..|s| - 1], [s[|s| - 1]]);
    }
  }

  lemma {:induction false} LStripKeepsVisible(s: string)
    ensures Visible(LStrip(s)) <==> Visible(s)
  {
    if s != "" && IsSpace(s[0]) {
      LStripKeepsVisible(s[1..]);
      assert s == [s[0]] + s[1..];
      VisibleEither([s[0]], s[1..]);
    }
  }

  lemma {:induction false} VisibleLineShows(lines: seq<string>, i: nat)
    requires i < |lines| && Visible(lines[i])
    ensures Visible(Join(lines, '\n'))
    decreases |lines|
  {
    hide Visible;
    if |lines| > 1 {
      var rest := Join(lines[1..], '\n');
      VisibleEither(lines[0] + ['\n'], rest);
      VisibleEither(lines[0], ['\n']);
      if i > 0 { VisibleLineShows(lines[1..], i - 1); }
    }
  }

  /** Some window holds the line. */
  lemma {:induction false} WindowOf(lines: seq<string>, start: nat, i: nat) returns (k: nat)
    requires start <= i < |lines|
    ensures k < |Windows(lines, start)| && Windows(lines, start)[k].start <= i < Windows(lines, start)[k].end
    decreases |lines| - start
  {
    var w := Window(start, WindowEnd(lines, start, start));
    if i < w.end {
      k := 0;
    } else {
      k := WindowOf(lines, NextStart(w), i);
      k := k + 1;
    }
  }

  /** The window is not blank, and the piece is what it becomes. */
  ghost predicate Gives(lines: seq<string>, w: Window, piece: Piece)
    requires w.start < w.end <= |lines|
  {
    piece.text != "" && piece == Piece(w.start + 1, w.end, WindowText(lines, w))
  }

  lemma KeptStep(lines: seq<string>, windows: seq<Window>)
    requires windows != [] && forall k :: 0 <= k < |windows| ==> windows[k].start < windows[k].end <= |lines|
    ensures Kept(lines, windows) == KeptAlone(lines, windows[0]) + Kept(lines, windows[1..])
  {
    hide WindowText;
  }

  /** A window that is not blank becomes a chunk, and every chunk comes from such a window. */
  lemma {:induction false} KeptHas(lines: seq<string>, windows: seq<Window>, piece: Piece)
    requires forall k :: 0 <= k < |windows| ==> windows[k].start < windows[k].end <= |lines|
    ensures piece in Kept(lines, windows) <==>
            exists k :: 0 <= k < |windows| && Gives(lines, windows[k], piece)
    decreases |windows|
  {
    if windows != [] {
      assert piece in KeptAlone(lines, windows[0]) <==> Gives(lines, windows[0], piece);
      hide Kept, KeptAlone, Gives;
      var rest := windows[1..];
      KeptHas(lines, rest, piece);
      KeptStep(lines, windows);
      assert forall k :: 0 <= k < |rest| ==> rest[k] == windows[k + 1];
      if k :| 0 <= k < |windows| && Gives(lines, windows[k], piece) {
        assert k > 0 ==> rest[k - 1] == windows[k];
      }
    }
  }

  /** Every line that is not blank lies in the range of an emitted chunk, whose text is the stripped text of
      its lines. */
  lemma NoLineIsLost(lines: seq<string>, i: nat) returns (piece: Piece)
    requires i < |lines| && Strip(lines[i]) != ""
    ensures piece in Chunks(lines) && 1 <= piece.first <= i + 1 <= piece.last <= |lines|
    ensures piece.text == Strip(Join(lines[piece.first - 1..piece.last], '\n')) && piece.text != ""
  {
    hide Strip, Join, Windows, Kept;
    var k := WindowOf(lines, 0, i);
    var w := Windows(lines, 0)[k];
    piece := Piece(w.start + 1, w.end, WindowText(lines, w));
    VisibleIsNotStripped(lines[i]);
    assert lines[w.start..w.end][i - w.start] == lines[i];
    VisibleLineShows(lines[w.start..w.end], i - w.start);
    VisibleIsNotStripped(Join(lines[w.start..w.end], '\n'));
    KeptHas(lines, Windows(lines, 0), piece);
  }

  // ----- The loops -----

  lemma WindowsStep(lines: seq<string>, start: nat)
    requires start < |lines|
    ensures var w := Window(start, WindowEnd(lines, start, start));
            Windows(lines, start) == if w.end == |lines| then [w] else [w] + Windows(lines, NextStart(w))
  {
  }

  lemma NothingBefore(lines: seq<string>, b: seq<Window>)
    requires forall k :: 0 <= k < |b| ==> b[k].start < b[k].end <= |lines|
    ensures [] + b == b && Kept(lines, []) + Kept(lines, b) == Kept(lines, b)
  {
  }

  lemma {:induction false} KeptTogether(lines: seq<string>, a: seq<Window>, b: seq<Window>)
    requires forall k :: 0 <= k < |a| ==> a[k].start < a[k].end <= |lines|
    requires forall k :: 0 <= k < |b| ==> b[k].start < b[k].end <= |lines|
    ensures Kept(lines, a + b) == Kept(lines, a) + Kept(lines, b)
    decreases |a|
  {
    hide Kept, KeptAlone;
    if a == [] {
      NothingBefore(lines, b);
    } else {
      KeptTogether(lines, a[1..], b);
      assert (a + b)[1..] == a[1..] + b && (a + b)[0] == a[0];
      KeptStep(lines, a);
      KeptStep(lines, a + b);
      Associates(KeptAlone(lines, a[0]), Kept(lines, a[1..]), Kept(lines, b));
    }
  }

  /** The next window joins those done. */
  lemma WindowJoins(lines: seq<string>, done: seq<Window>, start: nat)
    requires start < |lines| && Windows(lines, 0) == done + Windows(lines, start)
    ensures var w := Window(start, WindowEnd(lines, start, start));
            Windows(lines, 0) == if w.end == |lines| then done + [w] else done + [w] + Windows(lines, NextStart(w))
  {
    hide Windows, WindowEnd;
    WindowsStep(lines, start);
    var w := Window(start, WindowEnd(lines, start, start));
    if w.end < |lines| {
      Associates(done, [w], Windows(lines, NextStart(w)));
    } else {
      assert Windows(lines, start) == [w];
    }
  }

  /** Its chunk joins those emitted, unless it is blank. */
  lemma ChunkJoins(lines: seq<string>, done: seq<Window>, w: Window)
    requires w.start < w.end <= |lines| && forall k :: 0 <= k < |done| ==> done[k].start < done[k].end <= |lines|
    ensures Kept(lines, done + [w]) == Kept(lines, done) + KeptAlone(lines, w)
  {
    hide Kept, WindowText;
    KeptOne(lines, w);
    KeptTogether(lines, done, [w]);
  }

  /** Cuts the lines of a file into chunks; the windows tile the file. */
  method ChunkLines(lines: seq<string>) returns (output: seq<Piece>)
    ensures output == Chunks(lines)
  {
    hide Kept, Windows, WindowEnd, Size, Strip, Join;
    output := [];
    var start := 0;
    NothingKept(lines);
    ghost var done: seq<Window> := [];
    while start < |lines|
      invariant start <= |lines|
      invariant forall k :: 0 <= k < |done| ==> done[k].start < done[k].end <= |lines|
      invariant Windows(lines, 0) == done + Windows(lines, start) && output == Kept(lines, done)
    {
      var end, size := start, 0;
      NoSize(lines, start);
      while end < |lines| && (size < CHUNK_CHARS || end == start)
        invariant start <= end <= |lines| && size == Size(lines, start, end)
        invariant WindowEnd(lines, start, start) == WindowEnd(lines, start, end)
      {
        SizeStep(lines, start, end);
        WindowEndStep(lines, start, end);
        size := size + |lines[end]| + 1;
        end := end + 1;
      }
      WindowEndStep(lines, start, end);
      var w := Window(start, end);
      WindowJoins(lines, done, start);
      ChunkJoins(lines, done, w);
      var chunk := Strip(Join(lines[start..end], '\n'));
      if chunk != "" { output := output + [Piece(start + 1, end, chunk)]; }
      done := done + [w];
      if end >= |lines| { return; }
      start := if start + 1 < end - CHUNK_OVERLAP_LINES then end - CHUNK_OVERLAP_LINES else start + 1;
    }
    assert Windows(lines, |lines|) == [] by { NoWindows(lines); }
    assert done + [] == done;
  }

  lemma NothingKept(lines: seq<string>)
    ensures Kept(lines, []) == [] && Windows(lines, 0) == [] + Windows(lines, 0)
  {
  }

  lemma NoSize(lines: seq<string>, start: nat)
    requires start <= |lines|
    ensures Size(lines, start, start) == 0
  {
  }

  lemma NoWindows(lines: seq<string>)
    ensures Windows(lines, |lines|) == []
  {
  }

  lemma KeptOne(lines: seq<string>, w: Window)
    requires w.start < w.end <= |lines|
    ensures Kept(lines, [w]) == KeptAlone(lines, w)
  {
    hide WindowText;
    assert [w][1..] == [];
    assert Kept(lines, []) == [];
  }

  lemma SizeStep(lines: seq<string>, start: nat, end: nat)
    requires start <= end < |lines|
    ensures Size(lines, start, end + 1) == Size(lines, start, end) + |lines[end]| + 1
  {
  }

  lemma WindowEndStep(lines: seq<string>, start: nat, end: nat)
    requires start <= end <= |lines|
    ensures WindowEnd(lines, start, end) ==
            if end < |lines| && (Size(lines, start, end) < CHUNK_CHARS || end == start) then WindowEnd(lines, start, end + 1)
            else end
  {
  }
}
