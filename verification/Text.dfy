/** Text operations the agent's parsers rely on. */
module Text {
  import opened Options

  /** White space as Python's `str.strip` removes it. */
  predicate IsSpace(c: char)
  {
    || '\t' <= c <= '\r' || '\U{1C}' <= c <= ' ' || c == '\U{85}' || c == '\U{A0}' || c == '\U{1680}'
    || '\U{2000}' <= c <= '\U{200A}' || c == '\U{2028}' || c == '\U{2029}' || c == '\U{202F}' || c == '\U{205F}'
    || c == '\U{3000}'
  }

  function LStrip(s: string): string
  {
    if s != "" && IsSpace(s[0]) then LStrip(s[1..]) else s
  }

  function RStrip(s: string): string
  {
    if s != "" && IsSpace(s[|s| - 1]) then RStrip(s[..|s| - 1]) else s
  }

  function Strip(s: string): string { LStrip(RStrip(s)) }

  /** Not empty, and neither end is white space. */
  predicate Trimmed(s: string)
  {
    s != "" && !IsSpace(s[0]) && !IsSpace(s[|s| - 1])
  }

  lemma TrimmedIsStripped(s: string)
    ensures s != "" && !IsSpace(s[|s| - 1]) ==> RStrip(s) == s
    ensures Trimmed(s) ==> Strip(s) == s
  {
  }

  /** What is left on stripping the right end: a beginning of the text that does not end in white space. */
  lemma {:induction false} RStripEnds(s: string)
    ensures RStrip(s) <= s
    ensures RStrip(s) == "" || !IsSpace(RStrip(s)[|RStrip(s)| - 1])
    ensures s != "" && !IsSpace(s[0]) ==> RStrip(s) != "" && RStrip(s)[0] == s[0]
  {
    if s != "" && IsSpace(s[|s| - 1]) { RStripEnds(s[..|s| - 1]); }
  }

  lemma {:induction false} LStripEnds(s: string)
    ensures |LStrip(s)| <= |s| && LStrip(s) == s[|s| - |LStrip(s)|..]
    ensures LStrip(s) == "" || !IsSpace(LStrip(s)[0])
    ensures s != "" && !IsSpace(s[|s| - 1]) ==> LStrip(s) != ""
  {
    if s != "" && IsSpace(s[0]) { LStripEnds(s[1..]); }
  }

  /** Stripping leaves nothing or a trimmed stretch of the text; an end that is not white space stays. */
  lemma StripTrims(s: string)
    ensures Strip(s) == "" || Trimmed(Strip(s))
    ensures s != "" && !IsSpace(s[0]) ==> Strip(s) == RStrip(s) && Strip(s) != "" && Strip(s)[0] == s[0]
    ensures s != "" && !IsSpace(s[|s| - 1]) ==> Strip(s) != ""
    ensures forall c :: Without(s, c) ==> Without(Strip(s), c) && Without(RStrip(s), c)
  {
    RStripEnds(s);
    LStripEnds(RStrip(s));
    StripWithout(s);
  }

  lemma StripWithout(s: string)
    ensures forall c :: Without(s, c) ==> Without(Strip(s), c) && Without(RStrip(s), c)
  {
    RStripEnds(s);
    LStripEnds(RStrip(s));
  }

  lemma TrimmedTogether(a: string, b: string)
    requires a != "" && !IsSpace(a[0]) && Trimmed(b)
    ensures Strip(a + b) == a + b && a <= a + b && (a + b)[|a|..] == b
  {
    TrimmedIsStripped(a + b);
  }

  /** The pieces of a text between separators: at least one piece. */
  function Split(s: string, sep: char): (r: seq<string>)
    ensures |r| >= 1
  {
    if s == "" then [""]
    else
      var rest := Split(s[1..], sep);
      if s[0] == sep then [""] + rest else [s[..1] + rest[0]] + rest[1..]
  }

  function Join(parts: seq<string>, sep: char): string
  {
    if |parts| == 0 then ""
    else if |parts| == 1 then parts[0]
    else parts[0] + [sep] + Join(parts[1..], sep)
  }

  ghost predicate Without(s: string, c: char) { forall i :: 0 <= i < |s| ==> s[i] != c }

  ghost predicate AllWithout(parts: seq<string>, c: char) { forall i :: 0 <= i < |parts| ==> Without(parts[i], c) }

  lemma {:induction false} SplitWithout(s: string, sep: char)
    requires Without(s, sep)
    ensures Split(s, sep) == [s]
  {
    if s != "" {
      assert Without(s[1..], sep);
      SplitWithout(s[1..], sep);
      assert s == s[..1] + s[1..];
    }
  }

  lemma {:induction false} SplitFirst(s: string, rest: string, sep: char)
    requires Without(s, sep)
    ensures Split(s + [sep] + rest, sep) == [s] + Split(rest, sep)
    decreases |s|
  {
    var all := s + [sep] + rest;
    if s == "" {
      assert all[1..] == rest;
    } else {
      assert all[1..] == s[1..] + [sep] + rest;
      SplitFirst(s[1..], rest, sep);
      assert s == s[..1] + s[1..] && all[..1] == s[..1];
    }
  }

  /** Splitting undoes joining pieces that do not contain the separator. */
  lemma {:induction false} SplitOfJoin(parts: seq<string>, sep: char)
    requires parts != [] && AllWithout(parts, sep)
    ensures Split(Join(parts, sep), sep) == parts
    decreases |parts|
  {
    if |parts| == 1 {
      SplitWithout(parts[0], sep);
    } else {
      SplitOfJoin(parts[1..], sep);
      SplitFirst(parts[0], Join(parts[1..], sep), sep);
      assert parts == [parts[0]] + parts[1..];
    }
  }

  lemma {:induction false} SplitPiecesWithout(s: string, sep: char)
    ensures AllWithout(Split(s, sep), sep)
  {
    if s != "" {
      SplitPiecesWithout(s[1..], sep);
      var rest := Split(s[1..], sep);
      assert Without(rest[0], sep);
      assert s[0] != sep ==> Without(s[..1] + rest[0], sep);
    }
  }

  /** Joining undoes splitting. */
  lemma {:induction false} JoinOfSplit(s: string, sep: char)
    ensures Join(Split(s, sep), sep) == s
  {
    if s != "" {
      JoinOfSplit(s[1..], sep);
      var rest := Split(s[1..], sep);
      assert s == s[..1] + s[1..];
      if s[0] == sep {
        assert ([""] + rest)[1..] == rest;
        assert "" + [sep] + s[1..] == s;
      } else {
        assert ([s[..1] + rest[0]] + rest[1..])[1..] == rest[1..];
        if |rest| > 1 {
          assert s[..1] + (rest[0] + [sep] + Join(rest[1..], sep)) == s[..1] + rest[0] + [sep] + Join(rest[1..], sep);
        }
      }
    }
  }

  // ----- Decimals -----

  /** Not empty, and without white space. */
  ghost predicate Solid(s: string) { s != "" && forall i :: 0 <= i < |s| ==> !IsSpace(s[i]) }

  function Digit(d: nat): char
    requires d < 10
  {
    '0' + d as char
  }

  function Decimal(n: nat): (s: string)
    ensures Solid(s) && forall i :: 0 <= i < |s| ==> '0' <= s[i] <= '9'
  {
    if n < 10 then [Digit(n)] else Decimal(n / 10) + [Digit(n % 10)]
  }

  /** The number a text of digits stands for. */
  function Value(s: string): int
  {
    if s == "" then 0 else 10 * Value(s[..|s| - 1]) + (s[|s| - 1] as int - '0' as int)
  }

  lemma {:induction false} DecimalIsTheNumber(n: nat)
    ensures Value(Decimal(n)) == n && (Decimal(n)[0] == '0' ==> n == 0 && Decimal(n) == "0")
  {
    var s := Decimal(n);
    if n < 10 {
      assert s[..0] == "" && Value("") == 0;
    } else {
      DecimalIsTheNumber(n / 10);
      assert s[..|s| - 1] == Decimal(n / 10) && s[|s| - 1] == Digit(n % 10);
    }
  }

  /** The white space characters, one by one. */
  lemma SpacesAre(c: char)
    ensures IsSpace(c) <==>
            c in {'\t', '\n', '\U{B}', '\U{C}', '\r', '\U{1C}', '\U{1D}', '\U{1E}', '\U{1F}', ' ', '\U{85}', '\U{A0}', '\U{1680}',
                  '\U{2000}', '\U{2001}', '\U{2002}', '\U{2003}', '\U{2004}', '\U{2005}', '\U{2006}', '\U{2007}', '\U{2008}',
                  '\U{2009}', '\U{200A}', '\U{2028}', '\U{2029}', '\U{202F}', '\U{205F}', '\U{3000}'}
  {
  }
}
