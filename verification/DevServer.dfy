/** The output ring of a dev server (agent/ollama_code/devserver.py). */
module DevServer {
  import opened Streams
  import opened Text

  const RING_LINES := 400
  const MAX_LINE_CHARS := 2_000

  /** The last `n` items. */
  function LastOf<T>(items: seq<T>, n: nat): seq<T> { if |items| <= n then items else items[|items| - n..] }

  /** Bytes are characters here; `decode` turns the bytes of a line into text. */
  type Decoder = string -> string

  function Shown(decode: Decoder, raw: string): string
  {
    if |decode(raw)| <= MAX_LINE_CHARS then decode(raw) else decode(raw)[..MAX_LINE_CHARS]
  }

  function AllShown(decode: Decoder, lines: seq<string>): seq<string>
  {
    seq(|lines|, i requires 0 <= i < |lines| => Shown(decode, lines[i]))
  }

  function ExitLine(code: int): string
  {
    "[server exited with code " + (if code < 0 then "-" + Decimal(-code) else Decimal(code)) + "]"
  }

  /** The lines of an output: what follows the last newline is a line when it is not empty. */
  function LinesOf(output: string): seq<string>
  {
    var pieces := Split(output, '\n');
    if pieces[|pieces| - 1] == "" then pieces[..|pieces| - 1] else pieces
  }

  /** All that a run appends to its ring. */
  function Entries(decode: Decoder, output: string, code: int): seq<string>
  {
    AllShown(decode, LinesOf(output)) + [ExitLine(code)]
  }

  /** A line is shown up to its 2,000th character, and the exit line tells the code, also a negative one. */
  lemma LinesShown(decode: Decoder, raw: string, code: int)
    ensures Shown(decode, raw) <= decode(raw) && |Shown(decode, raw)| == if |decode(raw)| < 2_000 then |decode(raw)| else 2_000
    ensures code >= 0 ==> ExitLine(code) == "[server exited with code " + Decimal(code) + "]"
    ensures code < 0 ==> ExitLine(code) == "[server exited with code -" + Decimal(-code) + "]"
  {
    if code < 0 { assert "[server exited with code " + ("-" + Decimal(-code)) == "[server exited with code -" + Decimal(-code); }
  }

  lemma LastOfIsTail<T>(items: seq<T>, n: nat)
    ensures |LastOf(items, n)| == (if |items| < n then |items| else n) && LastOf(items, n) == items[|items| - |LastOf(items, n)|..]
  {
  }

  // ----- Splitting as the output arrives -----

  /** Puts a character before the first of the pieces. */
  function Glue(c: char, pieces: seq<string>): seq<string>
    requires pieces != []
  {
    [[c] + pieces[0]] + pieces[1..]
  }

  lemma SplitFirstCharacter(s: string, sep: char)
    requires s != ""
    ensures Split(s, sep) == if s[0] == sep then [""] + Split(s[1..], sep) else Glue(s[0], Split(s[1..], sep))
  {
    assert s[..1] == [s[0]];
  }

  /** All pieces but the last. */
  function Finished(pieces: seq<string>): seq<string>
    requires pieces != []
  {
    pieces[..|pieces| - 1]
  }

  function Growing(pieces: seq<string>): string
    requires pieces != []
  {
    pieces[|pieces| - 1]
  }

  lemma GluedPiecesGrow(c: char, rest: seq<string>, grown: seq<string>)
    requires |rest| > 1
    ensures Finished(rest) + grown != [] && Glue(c, Finished(rest) + grown) == Finished(Glue(c, rest)) + grown
    ensures Growing(Glue(c, rest)) == Growing(rest)
  {
    assert Glue(c, Finished(rest)) == Finished(Glue(c, rest));
  }

  lemma NewPieceGrows(rest: seq<string>, grown: seq<string>)
    requires rest != []
    ensures [""] + (Finished(rest) + grown) == Finished([""] + rest) + grown
    ensures Growing([""] + rest) == Growing(rest)
  {
    assert [""] + Finished(rest) == Finished([""] + rest);
  }

  lemma NothingGrows(b: string, sep: char)
    ensures Split("" + b, sep) == Finished(Split("", sep)) + Split(Growing(Split("", sep)) + b, sep)
  {
    assert "" + b == b && Finished(Split("", sep)) == [] && Growing(Split("", sep)) == "";
    hide Split;
    assert [] + Split(b, sep) == Split(b, sep);
  }

  lemma DropFirst(a: string, b: string)
    requires a != ""
    ensures (a + b)[1..] == a[1..] + b && (a + b)[0] == a[0] && a + b != ""
  {
  }

  /** Only the last piece can still grow. */
  lemma {:induction false} SplitGrows(a: string, b: string, sep: char)
    ensures Split(a + b, sep) == Finished(Split(a, sep)) + Split(Growing(Split(a, sep)) + b, sep)
    decreases |a|
  {
    hide Split, Glue, Finished, Growing;
    if a == "" {
      NothingGrows(b, sep);
    } else {
      var rest := Split(a[1..], sep);
      var grown := Split(Growing(rest) + b, sep);
      SplitGrows(a[1..], b, sep);
      DropFirst(a, b);
      SplitFirstCharacter(a, sep);
      SplitFirstCharacter(a + b, sep);
      if a[0] == sep {
        NewPieceGrows(rest, grown);
      } else if |rest| > 1 {
        GluedPiecesGrow(a[0], rest, grown);
      } else {
        LastPieceGrows(a[0], rest, b, sep);
      }
    }
  }

  lemma LastPieceGrows(c: char, rest: seq<string>, b: string, sep: char)
    requires |rest| == 1 && c != sep
    ensures Glue(c, Finished(rest) + Split(Growing(rest) + b, sep)) ==
            Finished(Glue(c, rest)) + Split(Growing(Glue(c, rest)) + b, sep)
  {
    var s := rest[0] + b;
    assert Glue(c, rest) == [[c] + rest[0]] && Finished(rest) == [];
    assert [c] + rest[0] + b == [c] + s && ([c] + s)[1..] == s;
    SplitFirstCharacter([c] + s, sep);
    hide Split;
    assert [] + Split(s, sep) == Split(s, sep);
    assert Finished([[c] + rest[0]]) == [];
    assert [] + Split([c] + s, sep) == Split([c] + s, sep);
  }

  lemma LastOfGrows<T>(items: seq<T>, n: nat, x: T)
    requires n > 0
    ensures LastOf(LastOf(items, n) + [x], n) == LastOf(items + [x], n)
  {
  }

  lemma AllShownGrows(decode: Decoder, lines: seq<string>, i: nat)
    requires i < |lines|
    ensures AllShown(decode, lines[..i + 1]) == AllShown(decode, lines[..i]) + [Shown(decode, lines[i])]
  {
  }

  lemma AllShownTogether(decode: Decoder, a: seq<string>, b: seq<string>)
    ensures AllShown(decode, a + b) == AllShown(decode, a) + AllShown(decode, b)
  {
  }

  /** The output so far: its finished lines, and the line still growing. */
  ghost predicate CutInto(output: string, lines: seq<string>, growing: string)
  {
    Split(output, '\n') == lines + [growing]
  }

  // ----- The run -----

  class DevServerRun {
    var ring: seq<string>

    constructor ()
      ensures ring == []
    {
      ring := [];
    }

    /** A full ring drops its oldest line. */
    method Append(text: string)
      modifies this
      ensures ring == LastOf(old(ring) + [text], RING_LINES)
    {
      ring := ring + [text];
      if |ring| > RING_LINES { ring := ring[|ring| - RING_LINES..]; }
    }

    method AppendLines(decode: Decoder, lines: seq<string>, ghost before: seq<string>)
      requires ring == LastOf(before, RING_LINES)
      modifies this
      ensures ring == LastOf(before + AllShown(decode, lines), RING_LINES)
    {
      assert before + AllShown(decode, lines[..0]) == before;
      for i := 0 to |lines|
        invariant ring == LastOf(before + AllShown(decode, lines[..i]), RING_LINES)
      {
        AllShownGrows(decode, lines, i);
        LastOfGrows(before + AllShown(decode, lines[..i]), RING_LINES, Shown(decode, lines[i]));
        assert before + AllShown(decode, lines[..i]) + [Shown(decode, lines[i])] == before + AllShown(decode, lines[..i + 1]);
        Append(Shown(decode, lines[i]));
      }
      assert lines[..|lines|] == lines;
    }

    /** Appends the lines a read completes; returns the line still growing. */
    method TakeChunk(decode: Decoder, buffer: string, chunk: string, ghost before: seq<string>) returns (rest: string)
      requires ring == LastOf(before, RING_LINES)
      modifies this
      ensures rest == Growing(Split(buffer + chunk, '\n'))
      ensures ring == LastOf(before + AllShown(decode, Finished(Split(buffer + chunk, '\n'))), RING_LINES)
    {
      hide Split, AllShown, LastOf;
      var parts := Split(buffer + chunk, '\n');
      AppendLines(decode, Finished(parts), before);
      rest := Growing(parts);
    }

    /** Appends the line left over and the exit line. */
    method Finish(decode: Decoder, buffer: string, code: int, ghost before: seq<string>)
      requires ring == LastOf(before, RING_LINES)
      modifies this
      ensures ring == LastOf(before + AllShown(decode, if buffer == "" then [] else [buffer]) + [ExitLine(code)], RING_LINES)
    {
      hide LastOf, ExitLine;
      ghost var all := before + AllShown(decode, if buffer == "" then [] else [buffer]);
      if buffer != "" {
        LastOfGrows(before, RING_LINES, Shown(decode, buffer));
        Append(Shown(decode, buffer));
        assert all == before + [Shown(decode, buffer)];
      } else {
        assert all == before;
      }
      LastOfGrows(all, RING_LINES, ExitLine(code));
      Append(ExitLine(code));
    }

    /** Reads the output of a server into the ring until it ends. The ring does not depend on where the reads
        cut the output: it ends with the last lines, each cut to length, and the exit line. */
    method Pump(decode: Decoder, pieces: seq<string>, code: int)
      requires |ring| <= RING_LINES
      modifies this
      ensures ring == LastOf(old(ring) + Entries(decode, Flatten(UntilEmpty(pieces)), code), 400)
    {
      hide Split, AllShown, LastOf, ExitLine, LinesOf, CutInto, Entries, Finished, Growing, Flatten;
      ghost var start := ring;
      ghost var done: seq<string> := [];
      var buffer := "";
      var i := 0;
      StartOfPump(decode, start);
      assert pieces[..0] == [];
      while i < |pieces|
        invariant i <= |pieces| && UntilEmpty(pieces) == pieces[..i] + UntilEmpty(pieces[i..])
        invariant CutInto(Flatten(pieces[..i]), done, buffer)
        invariant ring == LastOf(start + AllShown(decode, done), RING_LINES)
      {
        var chunk := pieces[i];
        if chunk == "" { break; }
        assert pieces[i..][1..] == pieces[i + 1..];
        FlattenStep(pieces, i);
        ghost var lines := Finished(Split(buffer + chunk, '\n'));
        SplitMovesOn(Flatten(pieces[..i]), done, buffer, chunk);
        ShownMovesOn(decode, start, done, lines);
        buffer := TakeChunk(decode, buffer, chunk, start + AllShown(decode, done));
        done := done + lines;
        i := i + 1;
      }
      assert UntilEmpty(pieces) == pieces[..i];
      Finish(decode, buffer, code, start + AllShown(decode, done));
      PumpEnds(decode, start, Flatten(pieces[..i]), done, buffer, code);
    }
  }

  lemma SplitMovesOn(output: string, done: seq<string>, buffer: string, chunk: string)
    requires CutInto(output, done, buffer)
    ensures var parts := Split(buffer + chunk, '\n'); CutInto(output + chunk, done + Finished(parts), Growing(parts))
  {
    SplitGrows(output, chunk, '\n');
    hide Split;
    assert (done + [buffer])[..|done|] == done;
    var parts := Split(buffer + chunk, '\n');
    assert parts == Finished(parts) + [Growing(parts)];
    assert done + (Finished(parts) + [Growing(parts)]) == done + Finished(parts) + [Growing(parts)];
  }

  lemma ShownMovesOn(decode: Decoder, start: seq<string>, done: seq<string>, lines: seq<string>)
    ensures start + AllShown(decode, done) + AllShown(decode, lines) == start + AllShown(decode, done + lines)
  {
    AllShownTogether(decode, done, lines);
  }

  lemma PumpEnds(decode: Decoder, start: seq<string>, output: string, done: seq<string>, buffer: string, code: int)
    requires CutInto(output, done, buffer)
    ensures start + AllShown(decode, done) + AllShown(decode, if buffer == "" then [] else [buffer]) + [ExitLine(code)] ==
            start + Entries(decode, output, code)
  {
    hide Split, AllShown, ExitLine;
    var left := if buffer == "" then [] else [buffer];
    assert LinesOf(output) == done + left;
    ShownMovesOn(decode, start, done, left);
    assert start + AllShown(decode, done + left) + [ExitLine(code)] == start + (AllShown(decode, done + left) + [ExitLine(code)]);
  }

  lemma StartOfPump(decode: Decoder, ring: seq<string>)
    requires |ring| <= RING_LINES
    ensures ring == LastOf(ring + AllShown(decode, []), RING_LINES)
    ensures CutInto(Flatten([]), [], "")
  {
  }
}
