/** Reading git's NUL-separated output (agent/ollama_code/gitinfo.py). */
module GitInfo {
  import opened Options
  import opened Streams
  import opened Text

  const NUL: char := '\0'

  // ----- Fields -----

  /** The NUL-separated fields of an output, without the empty field after the last NUL. */
  function SplitZ(data: string): seq<string>
  {
    var fields := Split(data, NUL);
    if fields[|fields| - 1] == "" then fields[..|fields| - 1] else fields
  }

  /** Fields as git prints them with `-z`: a NUL after each. */
  function PrintZ(fields: seq<string>): string
  {
    if fields == [] then "" else fields[0] + [NUL] + PrintZ(fields[1..])
  }

  lemma {:induction false} SplitOfPrintZ(fields: seq<string>)
    requires AllWithout(fields, NUL)
    ensures Split(PrintZ(fields), NUL) == fields + [""]
    decreases |fields|
  {
    if fields != [] {
      assert AllWithout(fields[1..], NUL);
      SplitOfPrintZ(fields[1..]);
      SplitFirst(fields[0], PrintZ(fields[1..]), NUL);
      assert [fields[0]] + (fields[1..] + [""]) == fields + [""];
    }
  }

  lemma SplitZOfPrintZ(fields: seq<string>)
    requires AllWithout(fields, NUL)
    ensures SplitZ(PrintZ(fields)) == fields
  {
    SplitOfPrintZ(fields);
  }

  /** Output that does not end in a NUL ends in a field too. */
  lemma SplitZUnterminated(fields: seq<string>, last: string)
    requires AllWithout(fields, NUL) && Without(last, NUL) && last != ""
    ensures SplitZ(PrintZ(fields) + last) == fields + [last]
  {
    SplitOfPrinted(fields, last);
  }

  lemma {:induction false} SplitOfPrinted(fields: seq<string>, last: string)
    requires AllWithout(fields, NUL) && Without(last, NUL)
    ensures Split(PrintZ(fields) + last, NUL) == fields + [last]
    decreases |fields|
  {
    if fields == [] {
      assert PrintZ(fields) + last == last;
      SplitWithout(last, NUL);
    } else {
      assert AllWithout(fields[1..], NUL);
      SplitOfPrinted(fields[1..], last);
      SplitFirst(fields[0], PrintZ(fields[1..]) + last, NUL);
      assert PrintZ(fields) + last == fields[0] + [NUL] + (PrintZ(fields[1..]) + last);
      assert [fields[0]] + (fields[1..] + [last]) == fields + [last];
    }
  }

  /** Pieces of a text after at most `n` cuts. */
  function SplitMax(s: string, sep: char, n: nat): (r: seq<string>)
    ensures 1 <= |r| <= n + 1
    decreases |s|
  {
    if n == 0 || s == "" then [s]
    else if s[0] == sep then [""] + SplitMax(s[1..], sep, n - 1)
    else
      var rest := SplitMax(s[1..], sep, n);
      [s[..1] + rest[0]] + rest[1..]
  }

  lemma {:induction false} SplitMaxFirst(first: string, rest: string, sep: char, n: nat)
    requires Without(first, sep) && n > 0
    ensures SplitMax(first + [sep] + rest, sep, n) == [first] + SplitMax(rest, sep, n - 1)
    decreases |first|
  {
    var all := first + [sep] + rest;
    if first == "" {
      assert all[1..] == rest;
    } else {
      assert all[1..] == first[1..] + [sep] + rest;
      SplitMaxFirst(first[1..], rest, sep, n);
      assert first == first[..1] + first[1..] && all[..1] == first[..1];
    }
  }

  /** Cutting at most as often as there are separators before the last piece gives the pieces back,
      whatever the last piece holds. */
  lemma {:induction false} SplitMaxOfJoin(front: seq<string>, last: string, sep: char)
    requires AllWithout(front, sep)
    ensures SplitMax(Join(front + [last], sep), sep, |front|) == front + [last]
    decreases |front|
  {
    if front == [] {
      assert front + [last] == [last];
    } else {
      var rest := front[1..];
      assert AllWithout(rest, sep);
      SplitMaxOfJoin(rest, last, sep);
      assert (front + [last])[1..] == rest + [last];
      SplitMaxFirst(front[0], Join(rest + [last], sep), sep, |front|);
      assert [front[0]] + (rest + [last]) == front + [last];
    }
  }

  /** No piece but the last holds a separator, and that only if the text was cut as often as allowed. */
  ghost predicate CutAtMost(r: seq<string>, sep: char, n: nat)
  {
    && (forall i :: 0 <= i < |r| - 1 ==> Without(r[i], sep))
    && (0 < |r| <= n ==> Without(r[|r| - 1], sep))
  }

  /** The pieces are those between the first separators, and the text is all of them. */
  lemma {:induction false} SplitMaxPieces(s: string, sep: char, n: nat)
    ensures Join(SplitMax(s, sep, n), sep) == s && CutAtMost(SplitMax(s, sep, n), sep, n)
    decreases |s|
  {
    hide Join, CutAtMost;
    if n == 0 || s == "" {
      OnePiece(s, sep, n);
    } else {
      assert s == s[..1] + s[1..];
      if s[0] == sep {
        SplitMaxPieces(s[1..], sep, n - 1);
        FirstIsCut(SplitMax(s[1..], sep, n - 1), sep, n - 1);
      } else {
        SplitMaxPieces(s[1..], sep, n);
        FirstIsLonger(s[..1], SplitMax(s[1..], sep, n), sep, n);
      }
    }
  }

  lemma OnePiece(s: string, sep: char, n: nat)
    requires n == 0 || s == ""
    ensures Join([s], sep) == s && CutAtMost([s], sep, n)
  {
  }

  lemma FirstIsCut(rest: seq<string>, sep: char, n: nat)
    requires rest != [] && CutAtMost(rest, sep, n)
    ensures Join([""] + rest, sep) == [sep] + Join(rest, sep) && CutAtMost([""] + rest, sep, n + 1)
  {
    var r := [""] + rest;
    assert r[1..] == rest;
    assert "" + [sep] + Join(rest, sep) == [sep] + Join(rest, sep);
    hide Join;
    assert forall i :: 0 < i < |r| ==> r[i] == rest[i - 1];
  }

  lemma FirstIsLonger(c: string, rest: seq<string>, sep: char, n: nat)
    requires rest != [] && Without(c, sep) && CutAtMost(rest, sep, n)
    ensures Join([c + rest[0]] + rest[1..], sep) == c + Join(rest, sep) && CutAtMost([c + rest[0]] + rest[1..], sep, n)
  {
    var r := [c + rest[0]] + rest[1..];
    assert r[1..] == rest[1..] && forall i :: 0 < i < |r| ==> r[i] == rest[i];
    LongerWithout(c, rest[0], sep);
    hide Without;
    if |rest| > 1 {
      var tail := Join(rest[1..], sep);
      assert c + (rest[0] + [sep] + tail) == c + rest[0] + [sep] + tail;
    }
  }

  lemma LongerWithout(a: string, b: string, sep: char)
    requires Without(a, sep)
    ensures Without(b, sep) ==> Without(a + b, sep)
  {
  }

  /** What follows the first separator; nothing if there is none. */
  function Rest(s: string, sep: char): string
  {
    if s == "" then "" else if s[0] == sep then s[1..] else Rest(s[1..], sep)
  }

  lemma {:induction false} RestAfter(first: string, rest: string, sep: char)
    requires Without(first, sep)
    ensures Rest(first + [sep] + rest, sep) == rest
    decreases |first|
  {
    var all := first + [sep] + rest;
    if first == "" {
      assert all[1..] == rest;
    } else {
      assert all[1..] == first[1..] + [sep] + rest;
      RestAfter(first[1..], rest, sep);
    }
  }

  lemma {:induction false} NoRest(s: string, sep: char)
    requires Without(s, sep)
    ensures Rest(s, sep) == ""
  {
    if s != "" {
      assert Without(s[1..], sep);
      NoRest(s[1..], sep);
    }
  }

  /** The words between white space. */
  function Words(s: string): seq<string>
  {
    if s == "" then []
    else if IsSpace(s[0]) then Words(s[1..])
    else if |s| == 1 || IsSpace(s[1]) then [s[..1]] + Words(s[1..])
    else
      var rest := Words(s[1..]);
      if rest == [] then [s[..1]] else [s[..1] + rest[0]] + rest[1..]
  }

  lemma {:induction false} FirstWord(word: string, rest: string)
    requires Solid(word) && (rest == "" || IsSpace(rest[0]))
    ensures Words(word + rest) == [word] + Words(rest)
    decreases |word|
  {
    var s := word + rest;
    if |word| == 1 {
      assert s[1..] == rest && s[..1] == word;
    } else {
      assert s[1..] == word[1..] + rest;
      FirstWord(word[1..], rest);
      assert word == word[..1] + word[1..] && s[..1] == word[..1];
    }
  }

  // ----- Numbers -----

  /** Reads an integer as Python's `int` does, of which only this is used: it reads decimals. */
  type IntReader = string -> Option<int>

  ghost predicate ReadsDecimals(readInt: IntReader) { forall n: nat :: readInt(Decimal(n)) == Some(n) }

  // ----- Status records -----

  datatype FileEntry = FileEntry(path: string, origPath: Option<string>, indexStatus: char, workStatus: char, status: string,
                                 staged: bool, unstaged: bool, untracked: bool)

  datatype Status = Status(branch: Option<string>, detached: bool, upstream: Option<string>, ahead: int, behind: int,
                           files: seq<FileEntry>)

  const NO_STATUS := Status(None, false, None, 0, 0, [])

  /** A status field shorter than two characters is an index error. */
  datatype Outcome = Parsed(status: Status) | IndexError

  function Mapped(code: char): Option<string>
  {
    match code
    case 'M' => Some("modified")
    case 'A' => Some("added")
    case 'D' => Some("deleted")
    case 'R' => Some("renamed")
    case 'C' => Some("copied")
    case 'T' => Some("typechange")
    case _ => None
  }

  function Classify(x: char, y: char): string
  {
    if Mapped(x).Some? then Mapped(x).value else if Mapped(y).Some? then Mapped(y).value else "modified"
  }

  function TrackedEntry(path: string, origPath: Option<string>, x: char, y: char): FileEntry
  {
    FileEntry(path, origPath, x, y, Classify(x, y), x != '.' && x != '?', y != '.' && y != '?', false)
  }

  function UntrackedEntry(path: string): FileEntry
  {
    FileEntry(path, None, '.', '?', "untracked", false, true, true)
  }

  function UnmergedEntry(path: string): FileEntry
  {
    FileEntry(path, None, 'U', 'U', "unmerged", false, true, false)
  }

  /** What an entry tells: the first of the two letters that has a name gives the status, and a letter other than a
      dot or question mark says that something is staged, or unstaged. */
  lemma EntryTells(path: string, origPath: Option<string>, x: char, y: char)
    ensures var names := map['M' := "modified", 'A' := "added", 'D' := "deleted", 'R' := "renamed", 'C' := "copied",
                             'T' := "typechange"];
            var status := if x in names then names[x] else if y in names then names[y] else "modified";
            TrackedEntry(path, origPath, x, y) == FileEntry(path, origPath, x, y, status, x !in {'.', '?'}, y !in {'.', '?'}, false)
    ensures UntrackedEntry(path) == FileEntry(path, None, '.', '?', "untracked", false, true, true)
    ensures UnmergedEntry(path) == FileEntry(path, None, 'U', 'U', "unmerged", false, true, false)
  {
  }

  const HEAD := "branch.head "
  const UPSTREAM := "branch.upstream "
  const AB := "branch.ab "
  const OID := "branch.oid "
  const DETACHED := "(detached)"

  function TakeToken(readInt: IntReader, s: Status, token: string): Status
  {
    if token == "" then s
    else if token[0] == '+' && readInt(token[1..]).Some? then s.(ahead := readInt(token[1..]).value)
    else if token[0] == '-' && readInt(token[1..]).Some? then s.(behind := readInt(token[1..]).value)
    else s
  }

  function TakeTokens(readInt: IntReader, s: Status, tokens: seq<string>): Status
    decreases |tokens|
  {
    if tokens == [] then s else TakeTokens(readInt, TakeToken(readInt, s, tokens[0]), tokens[1..])
  }

  function TakeHeader(readInt: IntReader, s: Status, header: string): Status
  {
    if HEAD <= header then
      var value := Strip(header[|HEAD|..]);
      if value == DETACHED then s.(detached := true) else s.(branch := Some(value))
    else if UPSTREAM <= header then s.(upstream := Some(Strip(header[|UPSTREAM|..])))
    else if AB <= header then TakeTokens(readInt, s, Words(header[|AB|..]))
    else s
  }

  function AddFile(s: Status, file: FileEntry): Status { s.(files := s.files + [file]) }

  /** The text after a two-character mark. */
  function AfterMark(entry: string): string { if |entry| < 2 then "" else entry[2..] }

  function Fields(readInt: IntReader, fields: seq<string>, s: Status): Outcome
    decreases |fields|
  {
    if fields == [] then Parsed(s)
    else
      var entry, rest := fields[0], fields[1..];
      if entry == "" then Fields(readInt, rest, s)
      else if "# " <= entry then Fields(readInt, rest, TakeHeader(readInt, s, entry[2..]))
      else if entry[0] == '?' then Fields(readInt, rest, AddFile(s, UntrackedEntry(AfterMark(entry))))
      else if entry[0] == 'u' then
        var parts := SplitMax(entry, ' ', 10);
        Fields(readInt, rest, AddFile(s, UnmergedEntry(parts[|parts| - 1])))
      else if entry[0] != '1' && entry[0] != '2' then Fields(readInt, rest, s)
      else
        var parts := SplitMax(entry, ' ', 8);
        if |parts| < 9 then Fields(readInt, rest, s)
        else if |parts[1]| < 2 then IndexError
        else if entry[0] == '1' then Fields(readInt, rest, AddFile(s, TrackedEntry(parts[8], None, parts[1][0], parts[1][1])))
        else
          var orig := if rest == [] then None else Some(rest[0]);
          Fields(readInt, if rest == [] then [] else rest[1..],
                 AddFile(s, TrackedEntry(Rest(parts[8], ' '), orig, parts[1][0], parts[1][1])))
  }

  function ParseStatus(readInt: IntReader, data: string): Outcome { Fields(readInt, SplitZ(data), NO_STATUS) }

  // ----- What git prints -----

  /** The records of "Porcelain Format Version 2" of git-status. `middle` holds the fields between the status
      and the path: submodule state, modes and object names. */
  datatype Item =
    | Oid(text: string) | Head(name: string) | Detached | Upstream(name: string) | AheadBehind(ahead: nat, behind: nat)
    | Ordinary(x: char, y: char, middle: seq<string>, path: string)
    | Renamed(x: char, y: char, middle: seq<string>, score: string, path: string, origPath: string)
    | Unmerged(middle: seq<string>, path: string)
    | Untracked(path: string)
    | Ignored(path: string)

  function ItemFields(item: Item): (r: seq<string>)
    ensures r != []
  {
    match item
    case Oid(text) => ["# " + (OID + text)]
    case Head(name) => ["# " + (HEAD + name)]
    case Detached => ["# " + (HEAD + DETACHED)]
    case Upstream(name) => ["# " + (UPSTREAM + name)]
    case AheadBehind(ahead, behind) => ["# " + (AB + ("+" + Decimal(ahead) + (" " + ("-" + Decimal(behind)))))]
    case Ordinary(x, y, middle, path) => [Join(["1", [x, y]] + middle + [path], ' ')]
    case Renamed(x, y, middle, score, path, origPath) =>
      [Join(["2", [x, y]] + middle + [score + [' '] + path], ' '), origPath]
    case Unmerged(middle, path) => [Join(["u"] + middle + [path], ' ')]
    case Untracked(path) => ["? " + path]
    case Ignored(path) => ["! " + path]
  }

  function AllFields(items: seq<Item>): seq<string>
  {
    if items == [] then [] else ItemFields(items[0]) + AllFields(items[1..])
  }

  /** What an item says about the working tree. */
  function Says(s: Status, item: Item): Status
  {
    match item
    case Oid(_) => s
    case Head(name) => s.(branch := Some(name))
    case Detached => s.(detached := true)
    case Upstream(name) => s.(upstream := Some(name))
    case AheadBehind(ahead, behind) => s.(ahead := ahead, behind := behind)
    case Ordinary(x, y, _, path) => AddFile(s, TrackedEntry(path, None, x, y))
    case Renamed(x, y, _, _, path, origPath) => AddFile(s, TrackedEntry(path, Some(origPath), x, y))
    case Unmerged(_, path) => AddFile(s, UnmergedEntry(path))
    case Untracked(path) => AddFile(s, UntrackedEntry(path))
    case Ignored(_) => s
  }

  function AllSay(s: Status, items: seq<Item>): Status
    decreases |items|
  {
    if items == [] then s else AllSay(Says(s, items[0]), items[1..])
  }

  ghost predicate Plain(s: string) { Without(s, ' ') && Without(s, NUL) }

  ghost predicate AllPlain(parts: seq<string>) { AllWithout(parts, ' ') && AllWithout(parts, NUL) }

  ghost predicate GoodItem(item: Item)
  {
    match item
    case Oid(text) => Without(text, NUL)
    case Head(name) => Trimmed(name) && name != DETACHED && Without(name, NUL)
    case Detached => true
    case Upstream(name) => Trimmed(name) && Without(name, NUL)
    case AheadBehind(_, _) => true
    case Ordinary(x, y, middle, path) => Plain([x, y]) && |middle| == 6 && AllPlain(middle) && Without(path, NUL)
    case Renamed(x, y, middle, score, path, origPath) =>
      Plain([x, y]) && |middle| == 6 && AllPlain(middle) && Plain(score) && Without(path, NUL) && Without(origPath, NUL)
    case Unmerged(middle, path) => |middle| == 9 && AllPlain(middle) && Without(path, NUL)
    case Untracked(path) => Without(path, NUL)
    case Ignored(path) => Without(path, NUL)
  }

  /** How git prints its headers. */
  lemma HeadersPrinted(text: string)
    ensures ItemFields(Oid(text)) == ["# branch.oid " + text] && ItemFields(Head(text)) == ["# branch.head " + text]
    ensures ItemFields(Detached) == ["# branch.head (detached)"] && ItemFields(Upstream(text)) == ["# branch.upstream " + text]
  {
    Associates("# ", OID, text);
    Associates("# ", HEAD, text);
    Associates("# ", UPSTREAM, text);
    assert "# " + OID == "# branch.oid " && "# " + HEAD == "# branch.head " && "# " + UPSTREAM == "# branch.upstream ";
    assert "# " + (HEAD + DETACHED) == "# branch.head (detached)";
  }

  lemma DistancePrinted(ahead: nat, behind: nat)
    ensures ItemFields(AheadBehind(ahead, behind)) == ["# branch.ab +" + Decimal(ahead) + " -" + Decimal(behind)]
  {
    hide Decimal;
    assert "# " + (AB + ("+" + Decimal(ahead) + (" " + ("-" + Decimal(behind))))) == "# branch.ab +" + Decimal(ahead) + " -" + Decimal(behind);
  }

  /** What the headers of a branch tell, whatever follows their name. */
  lemma HeaderTells(readInt: IntReader, s: Status, value: string)
    ensures TakeHeader(readInt, s, "branch.head " + value) ==
            if Strip(value) == "(detached)" then s.(detached := true) else s.(branch := Some(Strip(value)))
    ensures TakeHeader(readInt, s, "branch.upstream " + value) == s.(upstream := Some(Strip(value)))
  {
    hide Strip, TakeTokens, Words;
    assert (HEAD + value)[|HEAD|..] == value && (UPSTREAM + value)[|UPSTREAM|..] == value;
    assert (UPSTREAM + value)[7] == 'u';
  }

  /** A record that is not whole adds nothing, but one whose status is cut off is an error. */
  lemma BrokenRecords(readInt: IntReader, entry: string, rest: seq<string>, s: Status)
    requires entry != ""
    ensures entry[0] !in {'1', '2', '?', 'u', '#'} ==> Fields(readInt, [entry] + rest, s) == Fields(readInt, rest, s)
    ensures entry[0] in {'1', '2'} && |SplitMax(entry, ' ', 8)| <= 8 ==> Fields(readInt, [entry] + rest, s) == Fields(readInt, rest, s)
    ensures entry[0] in {'1', '2'} && |SplitMax(entry, ' ', 8)| >= 9 && |SplitMax(entry, ' ', 8)[1]| <= 1 ==>
              Fields(readInt, [entry] + rest, s) == IndexError
  {
    hide SplitMax, Rest, TakeHeader;
    assert ([entry] + rest)[1..] == rest && ([entry] + rest)[0] == entry;
    assert "# " <= entry ==> entry[0] == '#';
  }

  // ----- Headers are read back -----

  lemma HeaderLetters()
    ensures |HEAD| > 8 && |UPSTREAM| > 8 && |AB| > 8 && |OID| > 8
    ensures HEAD[7] == 'h' && UPSTREAM[7] == 'u' && AB[7] == 'a' && OID[7] == 'o'
    ensures Without(HEAD, NUL) && Without(UPSTREAM, NUL) && Without(AB, NUL) && Without(OID, NUL)
    ensures Trimmed(DETACHED) && Without(DETACHED, NUL)
  {
  }

  lemma HeaderStep(readInt: IntReader, s: Status, header: string, tail: seq<string>)
    ensures Fields(readInt, ["# " + header] + tail, s) == Fields(readInt, tail, TakeHeader(readInt, s, header))
  {
    hide TakeHeader;
    assert ("# " + header)[2..] == header && (["# " + header] + tail)[1..] == tail;
  }

  lemma NamesAreRead(readInt: IntReader, s: Status, name: string)
    requires Trimmed(name)
    ensures TakeHeader(readInt, s, HEAD + name) == if name == DETACHED then s.(detached := true) else s.(branch := Some(name))
    ensures TakeHeader(readInt, s, UPSTREAM + name) == s.(upstream := Some(name))
  {
    HeaderLetters();
    hide HEAD, UPSTREAM, AB, DETACHED, Strip;
    TrimmedIsStripped(name);
    assert (HEAD + name)[|HEAD|..] == name && (UPSTREAM + name)[|UPSTREAM|..] == name;
  }

  lemma OidIsSkipped(readInt: IntReader, s: Status, text: string)
    ensures TakeHeader(readInt, s, OID + text) == s
  {
    HeaderLetters();
    hide HEAD, UPSTREAM, AB, OID;
  }

  lemma CountsAreWords(a: string, b: string)
    requires Solid(a) && Solid(b)
    ensures Words(a + (" " + b)) == [a, b]
  {
    FirstWord(a, " " + b);
    assert (" " + b)[1..] == b;
    FirstWord(b, "");
    assert b + "" == b;
    hide Words;
    assert [a] + [b] == [a, b];
  }

  lemma CountsAreRead(readInt: IntReader, s: Status, ahead: nat, behind: nat)
    requires ReadsDecimals(readInt)
    ensures TakeHeader(readInt, s, AB + ("+" + Decimal(ahead) + (" " + ("-" + Decimal(behind))))) ==
            s.(ahead := ahead, behind := behind)
  {
    HeaderLetters();
    hide HEAD, UPSTREAM, AB, Words, Decimal;
    var a, b := "+" + Decimal(ahead), "-" + Decimal(behind);
    CountsAreWords(a, b);
    assert (AB + (a + (" " + b)))[|AB|..] == a + (" " + b);
    assert a[1..] == Decimal(ahead) && b[1..] == Decimal(behind);
    TwoTokens(readInt, s, a, b);
  }

  lemma TwoTokens(readInt: IntReader, s: Status, a: string, b: string)
    ensures TakeTokens(readInt, s, [a, b]) == TakeToken(readInt, TakeToken(readInt, s, a), b)
  {
    hide TakeToken;
    assert [a, b][1..] == [b] && [b][1..] == [];
    var once := TakeToken(readInt, s, a);
    assert TakeTokens(readInt, s, [a, b]) == TakeTokens(readInt, once, [b]);
    assert TakeTokens(readInt, once, [b]) == TakeTokens(readInt, TakeToken(readInt, once, b), []);
  }

  // ----- Records are read back -----

  lemma JoinBegins(parts: seq<string>, sep: char)
    requires parts != [] && parts[0] != ""
    ensures Join(parts, sep) != "" && Join(parts, sep)[0] == parts[0][0]
  {
  }

  lemma {:induction false} JoinWithout(parts: seq<string>, sep: char, c: char)
    requires AllWithout(parts, c) && sep != c
    ensures Without(Join(parts, sep), c)
    decreases |parts|
  {
    if |parts| == 1 {
      assert Without(parts[0], c);
    } else if |parts| > 1 {
      assert Without(parts[0], c) && AllWithout(parts[1..], c);
      JoinWithout(parts[1..], sep, c);
    }
  }

  /** The front of a record: its kind, its status characters and its middle fields. */
  function Front(kind: char, x: char, y: char, middle: seq<string>): seq<string> { [[kind], [x, y]] + middle }

  lemma FrontIsPlain(kind: char, x: char, y: char, middle: seq<string>)
    requires Plain([kind]) && Plain([x, y]) && AllPlain(middle)
    ensures AllPlain(Front(kind, x, y, middle))
  {
    var front := Front(kind, x, y, middle);
    forall i | 0 <= i < |front| ensures Without(front[i], ' ') && Without(front[i], NUL) {
      if i >= 2 { assert front[i] == middle[i - 2]; }
    }
  }

  lemma TrackedIsSplit(kind: char, x: char, y: char, middle: seq<string>, last: string)
    requires Plain([kind]) && Plain([x, y]) && |middle| == 6 && AllPlain(middle)
    ensures var line := Join(Front(kind, x, y, middle) + [last], ' ');
            && line != "" && line[0] == kind && SplitMax(line, ' ', 8) == Front(kind, x, y, middle) + [last]
  {
    FrontIsPlain(kind, x, y, middle);
    hide Join, SplitMax;
    SplitMaxOfJoin(Front(kind, x, y, middle), last, ' ');
    JoinBegins(Front(kind, x, y, middle) + [last], ' ');
  }

  lemma OrdinaryStep(readInt: IntReader, s: Status, line: string, parts: seq<string>, tail: seq<string>)
    requires line != "" && line[0] == '1' && SplitMax(line, ' ', 8) == parts && |parts| == 9 && |parts[1]| == 2
    ensures Fields(readInt, [line] + tail, s) ==
            Fields(readInt, tail, AddFile(s, TrackedEntry(parts[8], None, parts[1][0], parts[1][1])))
  {
    hide SplitMax;
    assert ([line] + tail)[1..] == tail;
  }

  lemma RenamedStep(readInt: IntReader, s: Status, line: string, parts: seq<string>, orig: string, tail: seq<string>)
    requires line != "" && line[0] == '2' && SplitMax(line, ' ', 8) == parts && |parts| == 9 && |parts[1]| == 2
    ensures Fields(readInt, [line, orig] + tail, s) ==
            Fields(readInt, tail, AddFile(s, TrackedEntry(Rest(parts[8], ' '), Some(orig), parts[1][0], parts[1][1])))
  {
    hide SplitMax, Rest;
    var fields := [line, orig] + tail;
    assert fields[1..] == [orig] + tail && ([orig] + tail)[1..] == tail;
  }

  lemma UnmergedStep(readInt: IntReader, s: Status, line: string, parts: seq<string>, tail: seq<string>)
    requires line != "" && line[0] == 'u' && SplitMax(line, ' ', 10) == parts
    ensures Fields(readInt, [line] + tail, s) == Fields(readInt, tail, AddFile(s, UnmergedEntry(parts[|parts| - 1])))
  {
    hide SplitMax;
    assert ([line] + tail)[1..] == tail;
  }

  lemma MarkedStep(readInt: IntReader, s: Status, path: string, tail: seq<string>)
    ensures Fields(readInt, ["? " + path] + tail, s) == Fields(readInt, tail, AddFile(s, UntrackedEntry(path)))
    ensures Fields(readInt, ["! " + path] + tail, s) == Fields(readInt, tail, s)
  {
    var untracked, ignored := "? " + path, "! " + path;
    assert untracked[0] == '?' && AfterMark(untracked) == path && ([untracked] + tail)[1..] == tail;
    assert ignored[0] == '!' && ([ignored] + tail)[1..] == tail;
    assert !("# " <= untracked) && !("# " <= ignored);
  }

  lemma ReadOrdinary(readInt: IntReader, s: Status, item: Item, tail: seq<string>)
    requires item.Ordinary? && GoodItem(item)
    ensures Fields(readInt, ItemFields(item) + tail, s) == Fields(readInt, tail, Says(s, item))
  {
    hide Fields, Join, SplitMax;
    var parts := Front('1', item.x, item.y, item.middle) + [item.path];
    TrackedIsSplit('1', item.x, item.y, item.middle, item.path);
    assert ["1", [item.x, item.y]] + item.middle + [item.path] == parts;
    OrdinaryStep(readInt, s, Join(parts, ' '), parts, tail);
  }

  lemma ReadRenamed(readInt: IntReader, s: Status, item: Item, tail: seq<string>)
    requires item.Renamed? && GoodItem(item)
    ensures Fields(readInt, ItemFields(item) + tail, s) == Fields(readInt, tail, Says(s, item))
  {
    hide Fields, Join, SplitMax, Rest;
    var last := item.score + [' '] + item.path;
    var parts := Front('2', item.x, item.y, item.middle) + [last];
    TrackedIsSplit('2', item.x, item.y, item.middle, last);
    RestAfter(item.score, item.path, ' ');
    assert ["2", [item.x, item.y]] + item.middle + [last] == parts;
    RenamedStep(readInt, s, Join(parts, ' '), parts, item.origPath, tail);
  }

  lemma ReadUnmerged(readInt: IntReader, s: Status, item: Item, tail: seq<string>)
    requires item.Unmerged? && GoodItem(item)
    ensures Fields(readInt, ItemFields(item) + tail, s) == Fields(readInt, tail, Says(s, item))
  {
    hide Fields, Join, SplitMax;
    var front := ["u"] + item.middle;
    assert AllWithout(front, ' ') by {
      forall i | 0 <= i < |front| ensures Without(front[i], ' ') { if i > 0 { assert front[i] == item.middle[i - 1]; } }
    }
    SplitMaxOfJoin(front, item.path, ' ');
    JoinBegins(front + [item.path], ' ');
    UnmergedStep(readInt, s, Join(front + [item.path], ' '), front + [item.path], tail);
  }

  /** Reading the fields of one item adds what the item says, and nothing of the next is taken. */
  lemma ReadItem(readInt: IntReader, s: Status, item: Item, tail: seq<string>)
    requires GoodItem(item) && ReadsDecimals(readInt)
    ensures Fields(readInt, ItemFields(item) + tail, s) == Fields(readInt, tail, Says(s, item))
  {
    HeaderLetters();
    hide Fields, Join, Decimal, TakeHeader, HEAD, UPSTREAM, AB, OID, DETACHED, ReadsDecimals;
    match item
    case Oid(text) => HeaderStep(readInt, s, OID + text, tail); OidIsSkipped(readInt, s, text);
    case Head(name) => HeaderStep(readInt, s, HEAD + name, tail); NamesAreRead(readInt, s, name);
    case Detached => HeaderStep(readInt, s, HEAD + DETACHED, tail); NamesAreRead(readInt, s, DETACHED);
    case Upstream(name) => HeaderStep(readInt, s, UPSTREAM + name, tail); NamesAreRead(readInt, s, name);
    case AheadBehind(ahead, behind) =>
      HeaderStep(readInt, s, AB + ("+" + Decimal(ahead) + (" " + ("-" + Decimal(behind)))), tail);
      CountsAreRead(readInt, s, ahead, behind);
    case Ordinary(_, _, _, _) => ReadOrdinary(readInt, s, item, tail);
    case Renamed(_, _, _, _, _, _) => ReadRenamed(readInt, s, item, tail);
    case Unmerged(_, _) => ReadUnmerged(readInt, s, item, tail);
    case Untracked(path) => MarkedStep(readInt, s, path, tail);
    case Ignored(path) => MarkedStep(readInt, s, path, tail);
  }

  lemma {:induction false} ReadItems(readInt: IntReader, s: Status, items: seq<Item>)
    requires ReadsDecimals(readInt) && forall item :: item in items ==> GoodItem(item)
    ensures Fields(readInt, AllFields(items), s) == Parsed(AllSay(s, items))
    decreases |items|
  {
    if items != [] {
      hide GoodItem, ReadsDecimals, ItemFields, Says;
      ReadItem(readInt, s, items[0], AllFields(items[1..]));
      ReadItems(readInt, Says(s, items[0]), items[1..]);
    }
  }

  lemma TogetherWithout(a: string, b: string)
    ensures Without(a, NUL) && Without(b, NUL) ==> Without(a + b, NUL)
  {
  }

  lemma DecimalWithout(n: nat)
    ensures Without(Decimal(n), NUL)
  {
  }

  lemma ItemFieldsWithout(item: Item)
    requires GoodItem(item)
    ensures AllWithout(ItemFields(item), NUL)
  {
    HeaderLetters();
    hide Join, Decimal, HEAD, UPSTREAM, AB, OID, DETACHED;
    match item
    case Oid(_) =>
    case Head(_) =>
    case Detached =>
    case Upstream(_) =>
    case AheadBehind(ahead, behind) =>
      DecimalWithout(ahead);
      DecimalWithout(behind);
    case Ordinary(x, y, middle, path) => RecordWithout(["1", [x, y]], middle, path);
    case Renamed(x, y, middle, score, path, _) =>
      TogetherWithout(score + [' '], path);
      RecordWithout(["2", [x, y]], middle, score + [' '] + path);
    case Unmerged(middle, path) => RecordWithout(["u"], middle, path);
    case Untracked(_) =>
    case Ignored(_) =>
  }

  lemma RecordWithout(front: seq<string>, middle: seq<string>, last: string)
    requires AllWithout(front, NUL) && AllWithout(middle, NUL) && Without(last, NUL)
    ensures Without(Join(front + middle + [last], ' '), NUL)
  {
    hide Without;
    var parts := front + middle + [last];
    forall i | 0 <= i < |parts| ensures Without(parts[i], NUL) {
      if |front| <= i < |parts| - 1 { assert parts[i] == middle[i - |front|]; }
    }
    JoinWithout(parts, ' ', NUL);
  }

  lemma {:induction false} AllFieldsWithout(items: seq<Item>)
    requires forall item :: item in items ==> GoodItem(item)
    ensures AllWithout(AllFields(items), NUL)
    decreases |items|
  {
    if items != [] {
      hide GoodItem, ItemFields, Without;
      ItemFieldsWithout(items[0]);
      AllFieldsWithout(items[1..]);
    }
  }

  /** Whatever headers and records git prints with `-z`, in any order, the parser returns what they say: each
      entry in order with its path and original path. */
  lemma StatusRoundTrip(readInt: IntReader, items: seq<Item>)
    requires ReadsDecimals(readInt) && forall item :: item in items ==> GoodItem(item)
    ensures ParseStatus(readInt, PrintZ(AllFields(items))) == Parsed(AllSay(NO_STATUS, items))
  {
    hide GoodItem, ReadsDecimals, Fields, AllSay, PrintZ, SplitZ;
    AllFieldsWithout(items);
    SplitZOfPrintZ(AllFields(items));
    ReadItems(readInt, NO_STATUS, items);
  }

  // ----- Line counts -----

  /** Added and deleted lines of a path; none for a binary file. */
  type Counts = map<string, Option<(int, int)>>

  function CountPair(readInt: IntReader, added: string, deleted: string): Option<(int, int)>
  {
    if added == "-" || deleted == "-" then None
    else if readInt(added).Some? && readInt(deleted).Some? then Some((readInt(added).value, readInt(deleted).value))
    else None
  }

  function NumFields(readInt: IntReader, fields: seq<string>, counts: Counts): Counts
    decreases |fields|
  {
    if fields == [] then counts
    else
      var parts := Split(fields[0], '\t');
      if |parts| < 3 then NumFields(readInt, fields[1..], counts)
      else
        var pair := CountPair(readInt, parts[0], parts[1]);
        if parts[2] == "" && |fields| > 2 then NumFields(readInt, fields[3..], counts[fields[2] := pair])
        else NumFields(readInt, fields[1..], counts[parts[2] := pair])
  }

  function Numstat(readInt: IntReader, data: string): Counts { NumFields(readInt, SplitZ(data), map[]) }

  /** A change as `git diff --numstat -z` prints it; a move puts its two paths in fields of their own. */
  datatype Change =
    | Edited(added: Option<nat>, deleted: Option<nat>, path: string)
    | Moved(added: Option<nat>, deleted: Option<nat>, oldPath: string, path: string)

  function Count(n: Option<nat>): string { if n.Some? then Decimal(n.value) else "-" }

  function ChangeFields(c: Change): (r: seq<string>)
    ensures r != []
  {
    match c
    case Edited(added, deleted, path) => [Join([Count(added), Count(deleted), path], '\t')]
    case Moved(added, deleted, oldPath, path) => [Join([Count(added), Count(deleted), ""], '\t'), oldPath, path]
  }

  function ChangesFields(changes: seq<Change>): seq<string>
  {
    if changes == [] then [] else ChangeFields(changes[0]) + ChangesFields(changes[1..])
  }

  /** What is to be recorded of a change. */
  function CountOf(c: Change): Option<(int, int)>
  {
    if c.added.Some? && c.deleted.Some? then Some((c.added.value, c.deleted.value)) else None
  }

  function Counted(counts: Counts, c: Change): Counts { counts[c.path := CountOf(c)] }

  function AllCounted(counts: Counts, changes: seq<Change>): Counts
    decreases |changes|
  {
    if changes == [] then counts else AllCounted(Counted(counts, changes[0]), changes[1..])
  }

  lemma CountIsPlain(n: Option<nat>)
    ensures Without(Count(n), '\t') && Without(Count(n), NUL)
  {
  }

  lemma CountIsRead(readInt: IntReader, n: Option<nat>)
    requires ReadsDecimals(readInt)
    ensures Count(n) == "-" <==> n.None?
    ensures n.Some? ==> readInt(Count(n)) == n
  {
    if n.Some? { assert '0' <= Decimal(n.value)[0]; }
  }

  lemma PairIsRead(readInt: IntReader, added: Option<nat>, deleted: Option<nat>)
    requires ReadsDecimals(readInt)
    ensures CountPair(readInt, Count(added), Count(deleted)) ==
            if added.Some? && deleted.Some? then Some((added.value, deleted.value)) else None
  {
    hide ReadsDecimals, Count;
    CountIsRead(readInt, added);
    CountIsRead(readInt, deleted);
  }

  /** How the first field of a change is cut: a path with a tab is cut too. */
  lemma ChangeIsSplit(added: Option<nat>, deleted: Option<nat>, path: string)
    ensures Split(Join([Count(added), Count(deleted), path], '\t'), '\t') == [Count(added), Count(deleted)] + Split(path, '\t')
  {
    CountIsPlain(added);
    CountIsPlain(deleted);
    hide Split, Count;
    var a, d := Count(added), Count(deleted);
    SplitFirst(d, path, '\t');
    SplitFirst(a, d + ['\t'] + path, '\t');
    JoinThree(a, d, path);
    assert [a] + ([d] + Split(path, '\t')) == [a, d] + Split(path, '\t');
  }

  lemma JoinThree(a: string, b: string, c: string)
    ensures Join([a, b, c], '\t') == a + ['\t'] + (b + ['\t'] + c)
  {
    assert [a, b, c][1..] == [b, c] && [b, c][1..] == [c];
    assert Join([c], '\t') == c;
    assert Join([b, c], '\t') == b + ['\t'] + c;
  }

  /** An edited path up to its first tab: all that is read of it. */
  function FirstPiece(path: string): string { Split(path, '\t')[0] }

  lemma LineStep(readInt: IntReader, line: string, tail: seq<string>, counts: Counts)
    requires |Split(line, '\t')| >= 3
    ensures var parts := Split(line, '\t');
            var pair := CountPair(readInt, parts[0], parts[1]);
            NumFields(readInt, [line] + tail, counts) ==
            if parts[2] == "" && |tail| >= 2 then NumFields(readInt, tail[2..], counts[tail[1] := pair])
            else NumFields(readInt, tail, counts[parts[2] := pair])
  {
    hide Split, CountPair;
    var fields := [line] + tail;
    assert fields[1..] == tail;
    if |tail| >= 2 { assert fields[3..] == tail[2..] && fields[2] == tail[1]; }
  }

  /** How an edited file is read, whatever follows: under its path up to the first tab; but if the path begins with
      a tab, as a move, and the next two fields are lost as its paths. */
  lemma EditedIsRead(readInt: IntReader, c: Change, tail: seq<string>, counts: Counts)
    requires ReadsDecimals(readInt) && c.Edited?
    ensures NumFields(readInt, ChangeFields(c) + tail, counts) ==
            if FirstPiece(c.path) == "" && |tail| >= 2 then NumFields(readInt, tail[2..], counts[tail[1] := CountOf(c)])
            else NumFields(readInt, tail, counts[FirstPiece(c.path) := CountOf(c)])
  {
    PairIsRead(readInt, c.added, c.deleted);
    ChangeIsSplit(c.added, c.deleted, c.path);
    hide NumFields, Join, Split, Count, CountPair, ReadsDecimals;
    LineStep(readInt, ChangeFields(c)[0], tail, counts);
    assert ChangeFields(c) == [ChangeFields(c)[0]];
  }

  /** A moved file is read under its new path, whatever the two paths hold. */
  lemma MovedIsRead(readInt: IntReader, c: Change, tail: seq<string>, counts: Counts)
    requires ReadsDecimals(readInt) && c.Moved?
    ensures NumFields(readInt, ChangeFields(c) + tail, counts) == NumFields(readInt, tail, Counted(counts, c))
  {
    PairIsRead(readInt, c.added, c.deleted);
    ChangeIsSplit(c.added, c.deleted, "");
    SplitWithout("", '\t');
    hide NumFields, Join, Split, Count, CountPair, ReadsDecimals;
    var line, paths := ChangeFields(c)[0], [c.oldPath, c.path] + tail;
    LineStep(readInt, line, paths, counts);
    assert ChangeFields(c) + tail == [line] + paths && paths[2..] == tail;
  }

  // ----- Whole lists of changes -----

  /** The change with its path as it is read. */
  function Cut(c: Change): Change { if c.Edited? then c.(path := FirstPiece(c.path)) else c }

  function CutAll(changes: seq<Change>): seq<Change>
  {
    if changes == [] then [] else [Cut(changes[0])] + CutAll(changes[1..])
  }

  /** No edited path that begins with a tab has two fields after it. */
  predicate InStep(changes: seq<Change>)
  {
    changes == [] ||
    ((changes[0].Edited? && FirstPiece(changes[0].path) == "" ==> |ChangesFields(changes[1..])| < 2) && InStep(changes[1..]))
  }

  ghost predicate AllNonempty(changes: seq<Change>) { forall c :: c in changes ==> c.path != "" }

  ghost predicate NoLeadingTab(changes: seq<Change>)
  {
    forall c :: c in changes && c.Edited? ==> c.path != "" && c.path[0] != '\t'
  }

  ghost predicate NoNul(changes: seq<Change>)
  {
    forall c :: c in changes ==> Without(c.path, NUL) && (c.Moved? ==> Without(c.oldPath, NUL))
  }

  lemma FirstPieceIsEmpty(path: string)
    ensures FirstPiece(path) == "" <==> path == "" || path[0] == '\t'
  {
  }

  lemma {:induction false} NoLeadingTabIsInStep(changes: seq<Change>)
    requires NoLeadingTab(changes)
    ensures InStep(changes)
    decreases |changes|
  {
    hide FirstPiece;
    if changes != [] {
      FirstPieceIsEmpty(changes[0].path);
      assert changes[0] in changes;
      NoLeadingTabIsInStep(changes[1..]);
    }
  }

  lemma {:induction false} ReadChanges(readInt: IntReader, changes: seq<Change>, counts: Counts)
    requires ReadsDecimals(readInt) && InStep(changes)
    ensures NumFields(readInt, ChangesFields(changes), counts) == AllCounted(counts, CutAll(changes))
    decreases |changes|
  {
    if changes == [] {
      assert CutAll(changes) == [];
      NoFields(readInt, counts);
    } else {
      var c, tail := changes[0], ChangesFields(changes[1..]);
      CountedFirst(counts, changes);
      ReadChanges(readInt, changes[1..], Counted(counts, Cut(c)));
      hide NumFields, ReadsDecimals, ChangeFields, AllCounted, FirstPiece;
      if c.Edited? { EditedIsRead(readInt, c, tail, counts); } else { MovedIsRead(readInt, c, tail, counts); }
    }
  }

  lemma CountedFirst(counts: Counts, changes: seq<Change>)
    requires changes != []
    ensures AllCounted(counts, CutAll(changes)) == AllCounted(Counted(counts, Cut(changes[0])), CutAll(changes[1..]))
  {
    hide Cut, Counted;
    assert CutAll(changes)[1..] == CutAll(changes[1..]);
  }

  lemma ChangeFieldsWithout(c: Change)
    requires Without(c.path, NUL) && (c.Moved? ==> Without(c.oldPath, NUL))
    ensures AllWithout(ChangeFields(c), NUL)
  {
    CountIsPlain(c.added);
    CountIsPlain(c.deleted);
    hide Join, Count;
    JoinWithout([Count(c.added), Count(c.deleted), if c.Edited? then c.path else ""], '\t', NUL);
  }

  lemma {:induction false} ChangesFieldsWithout(changes: seq<Change>)
    requires NoNul(changes)
    ensures AllWithout(ChangesFields(changes), NUL)
    decreases |changes|
  {
    if changes != [] {
      hide ChangeFields, Without;
      assert changes[0] in changes;
      ChangeFieldsWithout(changes[0]);
      ChangesFieldsWithout(changes[1..]);
    }
  }

  lemma NumstatOfPrinted(readInt: IntReader, changes: seq<Change>)
    requires NoNul(changes)
    ensures Numstat(readInt, PrintZ(ChangesFields(changes))) == NumFields(readInt, ChangesFields(changes), map[])
  {
    hide NumFields, PrintZ, SplitZ, NoNul;
    ChangesFieldsWithout(changes);
    SplitZOfPrintZ(ChangesFields(changes));
  }

  /** When no edited path begins with a tab, every record is read: a moved file under its new path, an edited one
      under its path up to the first tab. */
  lemma NumstatRoundTrip(readInt: IntReader, changes: seq<Change>)
    requires ReadsDecimals(readInt) && NoNul(changes) && NoLeadingTab(changes)
    ensures Numstat(readInt, PrintZ(ChangesFields(changes))) == AllCounted(map[], CutAll(changes))
  {
    hide ReadsDecimals, NoNul, NoLeadingTab, NumFields, AllCounted;
    NumstatOfPrinted(readInt, changes);
    NoLeadingTabIsInStep(changes);
    ReadChanges(readInt, changes, map[]);
  }

  // ----- Exactly when every record is counted -----

  ghost predicate DistinctPaths(changes: seq<Change>)
  {
    forall i, j :: 0 <= i < j < |changes| ==> changes[i].path != changes[j].path
  }

  /** A moved file's paths hold one tab at most, so that neither reads as a record. */
  ghost predicate FewTabs(changes: seq<Change>)
  {
    forall c :: c in changes && c.Moved? ==> !IsLine(c.path) && !IsLine(c.oldPath)
  }

  predicate IsLine(field: string) { |Split(field, '\t')| >= 3 }

  /** The fields that read as records. */
  function Lines(fields: seq<string>): nat
  {
    if fields == [] then 0 else (if IsLine(fields[0]) then 1 else 0) + Lines(fields[1..])
  }

  lemma OneMoreKey(counts: Counts, key: string, pair: Option<(int, int)>)
    ensures |counts[key := pair].Keys| == |counts.Keys| + if key in counts then 0 else 1
  {
    assert counts[key := pair].Keys == counts.Keys + {key};
  }

  /** Each record gives one key at most. */
  lemma {:induction false} KeysAtMost(readInt: IntReader, fields: seq<string>, counts: Counts)
    ensures |NumFields(readInt, fields, counts).Keys| <= |counts.Keys| + Lines(fields)
    decreases |fields|
  {
    if fields == [] {
      NoFields(readInt, counts);
    } else {
      hide Split, CountPair, NumFields, Lines;
      var parts := Split(fields[0], '\t');
      NumFieldsTurn(readInt, fields, 0, counts);
      assert fields[0..] == fields;
      LinesStep(fields);
      if |parts| < 3 {
        KeysAtMost(readInt, fields[1..], counts);
      } else {
        var pair := CountPair(readInt, parts[0], parts[1]);
        if parts[2] == "" && |fields| > 2 {
          OneMoreKey(counts, fields[2], pair);
          LinesLater(fields, 1, 3);
          KeysAtMost(readInt, fields[3..], counts[fields[2] := pair]);
        } else {
          OneMoreKey(counts, parts[2], pair);
          KeysAtMost(readInt, fields[1..], counts[parts[2] := pair]);
        }
      }
    }
  }

  lemma LinesStep(fields: seq<string>)
    requires fields != []
    ensures Lines(fields) == (if |Split(fields[0], '\t')| >= 3 then 1 else 0) + Lines(fields[1..])
  {
    hide Split;
  }

  lemma {:induction false} LinesLater(fields: seq<string>, i: nat, j: nat)
    requires i <= j <= |fields|
    ensures Lines(fields[j..]) <= Lines(fields[i..])
    decreases j - i
  {
    hide IsLine;
    if i < j {
      LinesLater(fields, i + 1, j);
      assert fields[i..][1..] == fields[i + 1..];
    }
  }

  lemma {:induction false} LinesTogether(a: seq<string>, b: seq<string>)
    ensures Lines(a + b) == Lines(a) + Lines(b)
    decreases |a|
  {
    hide IsLine;
    if a == [] {
      assert a + b == b;
    } else {
      LinesTogether(a[1..], b);
      assert (a + b)[1..] == a[1..] + b;
    }
  }

  lemma LinesOfChange(c: Change)
    requires c.Moved? ==> !IsLine(c.path) && !IsLine(c.oldPath)
    ensures Lines(ChangeFields(c)) == 1 && IsLine(ChangeFields(c)[0])
  {
    ChangeIsSplit(c.added, c.deleted, if c.Edited? then c.path else "");
    hide Join, Split, Count;
    var fields := ChangeFields(c);
    assert IsLine(fields[0]);
    if c.Edited? {
      assert fields[1..] == [];
      assert Lines([]) == 0;
    } else {
      assert fields[1..] == [c.oldPath, c.path] && [c.oldPath, c.path][1..] == [c.path] && [c.path][1..] == [];
      assert Lines([c.path]) == 0;
      assert Lines([c.oldPath, c.path]) == 0;
    }
  }

  lemma {:induction false} LinesOfChanges(changes: seq<Change>)
    requires FewTabs(changes)
    ensures Lines(ChangesFields(changes)) == |changes|
    ensures changes != [] ==> ChangesFields(changes) != [] && IsLine(ChangesFields(changes)[0])
    decreases |changes|
  {
    if changes != [] {
      assert changes[0] in changes;
      LinesOfChange(changes[0]);
      hide IsLine, Lines, ChangeFields;
      LinesOfChanges(changes[1..]);
      LinesTogether(ChangeFields(changes[0]), ChangesFields(changes[1..]));
    } else {
      assert Lines([]) == 0;
    }
  }

  /** A record behind a path that begins with a tab is lost. */
  lemma SlipLosesARecord(readInt: IntReader, c: Change, rest: seq<Change>, counts: Counts)
    requires ReadsDecimals(readInt) && FewTabs(rest)
    requires c.Edited? && FirstPiece(c.path) == "" && |ChangesFields(rest)| >= 2
    ensures |NumFields(readInt, ChangeFields(c) + ChangesFields(rest), counts).Keys| <= |counts.Keys| + |rest|
  {
    var tail := ChangesFields(rest);
    LinesOfChanges(rest);
    assert rest != [];
    EditedIsRead(readInt, c, tail, counts);
    hide NumFields, FirstPiece, Lines, ChangesFields, FewTabs, ReadsDecimals, Split;
    OneMoreKey(counts, tail[1], CountOf(c));
    KeysAtMost(readInt, tail[2..], counts[tail[1] := CountOf(c)]);
    LinesStep(tail);
    LinesLater(tail, 1, 2);
  }

  lemma {:induction false} SlipsLoseRecords(readInt: IntReader, changes: seq<Change>, counts: Counts)
    requires ReadsDecimals(readInt) && FewTabs(changes) && !InStep(changes)
    ensures |NumFields(readInt, ChangesFields(changes), counts).Keys| < |counts.Keys| + |changes|
    decreases |changes|
  {
    var c, rest := changes[0], changes[1..];
    hide NumFields, ChangeFields, FirstPiece, ReadsDecimals, IsLine;
    if c.Edited? && FirstPiece(c.path) == "" && |ChangesFields(rest)| >= 2 {
      SlipLosesARecord(readInt, c, rest, counts);
    } else {
      if c.Edited? {
        EditedIsRead(readInt, c, ChangesFields(rest), counts);
      } else {
        MovedIsRead(readInt, c, ChangesFields(rest), counts);
      }
      OneMoreKey(counts, Cut(c).path, CountOf(c));
      SlipsLoseRecords(readInt, rest, counts[Cut(c).path := CountOf(c)]);
    }
  }

  lemma {:induction false} KeysOfCounted(counts: Counts, changes: seq<Change>, key: string)
    ensures key in AllCounted(counts, changes) <==> key in counts || exists c :: c in changes && c.path == key
    decreases |changes|
  {
    if changes != [] {
      KeysOfCounted(Counted(counts, changes[0]), changes[1..], key);
      assert changes[0] in changes && forall c :: c in changes <==> c == changes[0] || c in changes[1..];
    }
  }

  lemma {:induction false} DistinctKeys(counts: Counts, changes: seq<Change>)
    requires DistinctPaths(changes) && forall c :: c in changes ==> c.path !in counts
    ensures |AllCounted(counts, changes).Keys| == |counts.Keys| + |changes|
    decreases |changes|
  {
    if changes != [] {
      var rest := changes[1..];
      assert changes[0] in changes;
      OneMoreKey(counts, changes[0].path, CountOf(changes[0]));
      forall c | c in rest ensures c.path !in Counted(counts, changes[0]) {
        var i :| 0 <= i < |rest| && rest[i] == c;
        assert c == changes[i + 1] && c in changes;
      }
      DistinctKeys(Counted(counts, changes[0]), rest);
    }
  }

  lemma FirstPieceIsWhole(s: string, sep: char)
    ensures Split(s, sep)[0] == s <==> Without(s, sep)
  {
    if Without(s, sep) { SplitWithout(s, sep); }
    SplitPiecesWithout(s, sep);
  }

  ghost predicate TabFree(changes: seq<Change>) { forall c :: c in changes && c.Edited? ==> Without(c.path, '\t') }

  lemma {:induction false} TabFreeIsUncut(changes: seq<Change>)
    requires TabFree(changes)
    ensures CutAll(changes) == changes
    decreases |changes|
  {
    if changes != [] {
      assert changes[0] in changes;
      if changes[0].Edited? { FirstPieceIsWhole(changes[0].path, '\t'); }
      hide FirstPiece, Without;
      TabFreeIsUncut(changes[1..]);
    }
  }

  lemma {:induction false} CutMembers(changes: seq<Change>, d: Change)
    requires d in CutAll(changes)
    ensures exists c :: c in changes && d == Cut(c)
    decreases |changes|
  {
    hide Cut;
    if d != Cut(changes[0]) {
      CutMembers(changes[1..], d);
      var c :| c in changes[1..] && d == Cut(c);
      assert c in changes;
    } else {
      assert changes[0] in changes;
    }
  }

  /** A path with a tab is no key of what is read. */
  lemma TabbedPathIsNotRead(changes: seq<Change>, k: nat)
    requires DistinctPaths(changes) && k < |changes| && changes[k].Edited? && !Without(changes[k].path, '\t')
    ensures changes[k].path !in AllCounted(map[], CutAll(changes))
  {
    var path := changes[k].path;
    KeysOfCounted(map[], CutAll(changes), path);
    forall d | d in CutAll(changes) ensures d.path != path {
      CutMembers(changes, d);
      var c :| c in changes && d == Cut(c);
      var i :| 0 <= i < |changes| && changes[i] == c;
      if c.Edited? { SplitPiecesWithout(c.path, '\t'); }
    }
  }

  /** Of printed changes of distinct files, every count is read under the right path when no edited path holds a
      tab, and only then, unless a path that begins with a tab swallows a move one of whose paths reads as a record. */
  lemma CountsAreRightIff(readInt: IntReader, changes: seq<Change>)
    requires ReadsDecimals(readInt) && NoNul(changes) && AllNonempty(changes) && DistinctPaths(changes)
    ensures TabFree(changes) ==> Numstat(readInt, PrintZ(ChangesFields(changes))) == AllCounted(map[], changes)
    ensures FewTabs(changes) || InStep(changes) ==>
              (Numstat(readInt, PrintZ(ChangesFields(changes))) == AllCounted(map[], changes) <==> TabFree(changes))
  {
    NumstatOfPrinted(readInt, changes);
    DistinctKeys(map[], changes);
    hide ReadsDecimals, NoNul, FewTabs, NumFields, CutAll, Numstat, DistinctPaths, AllNonempty;
    if TabFree(changes) {
      TabFreeIsInStep(changes);
      TabFreeIsUncut(changes);
      ReadChanges(readInt, changes, map[]);
    } else if InStep(changes) {
      ReadChanges(readInt, changes, map[]);
      var c :| c in changes && c.Edited? && !Without(c.path, '\t');
      var k :| 0 <= k < |changes| && changes[k] == c;
      TabbedPathIsNotRead(changes, k);
      KeysOfCounted(map[], changes, c.path);
    } else if FewTabs(changes) {
      SlipsLoseRecords(readInt, changes, map[]);
    }
  }

  lemma TabFreeIsInStep(changes: seq<Change>)
    requires TabFree(changes) && AllNonempty(changes)
    ensures InStep(changes)
  {
    hide InStep;
    assert NoLeadingTab(changes);
    NoLeadingTabIsInStep(changes);
  }

  /** Behind an edited path that begins with a tab, the counts of the next two edited files are lost, though their
      paths hold no tab. */
  lemma LeadingTabSwallows(readInt: IntReader, c: Change, a: Change, b: Change)
    requires ReadsDecimals(readInt) && c.Edited? && a.Edited? && b.Edited? && NoNul([c, a, b])
    requires c.path != "" && c.path[0] == '\t' && Without(a.path, '\t') && Without(b.path, '\t')
    ensures var counts := Numstat(readInt, PrintZ(ChangesFields([c, a, b]))); a.path !in counts && b.path !in counts
  {
    NumstatOfPrinted(readInt, [c, a, b]);
    FirstPieceIsEmpty(c.path);
    hide NumFields, Numstat, FirstPiece, ReadsDecimals, NoNul, Join;
    var tail := ChangeFields(a) + ChangeFields(b);
    ThreeChanges(c, a, b);
    EditedIsRead(readInt, c, tail, map[]);
    assert tail[2..] == [] && tail[1] == ChangeFields(b)[0];
    NoFields(readInt, map[tail[1] := CountOf(c)]);
    LineHoldsTab(b);
  }

  lemma ThreeChanges(c: Change, a: Change, b: Change)
    ensures ChangesFields([c, a, b]) == ChangeFields(c) + (ChangeFields(a) + ChangeFields(b))
  {
    hide ChangeFields;
    assert [c, a, b][1..] == [a, b] && [a, b][1..] == [b] && [b][1..] == [];
    assert ChangesFields([]) == [];
    assert ChangesFields([b]) == ChangeFields(b) + [] == ChangeFields(b);
    assert ChangesFields([a, b]) == ChangeFields(a) + ChangesFields([b]);
  }

  lemma LineHoldsTab(c: Change)
    ensures !Without(ChangeFields(c)[0], '\t')
  {
    var line := ChangeFields(c)[0];
    if Without(line, '\t') {
      SplitWithout(line, '\t');
      ChangeIsSplit(c.added, c.deleted, if c.Edited? then c.path else "");
    }
  }

  // ----- Right by chance -----

  function Line(n: nat, path: string): string { Join([Count(Some(n)), Count(Some(n)), path], '\t') }

  /** Moves whose paths read as records, behind a path that begins with a tab. */
  function Chance(): seq<Change>
  {
    [Edited(Some(1), Some(1), "\tx"), Edited(Some(3), Some(3), "w"),
     Moved(Some(2), Some(2), Line(1, ""), "n"), Moved(Some(1), Some(1), Line(2, "n"), Line(1, "")),
     Moved(Some(1), Some(1), "\tx", Line(2, "")), Moved(Some(2), Some(2), Line(3, "w"), Line(3, "w"))]
  }

  function ChanceFields(): seq<string>
  {
    [Line(1, "\tx"), Line(3, "w"), Line(2, ""), Line(1, ""), "n", Line(1, ""), Line(2, "n"), Line(1, ""), Line(1, ""), "\tx",
     Line(2, ""), Line(2, ""), Line(3, "w"), Line(3, "w")]
  }

  lemma LineIsRead(readInt: IntReader, n: nat, path: string, tail: seq<string>, counts: Counts)
    requires ReadsDecimals(readInt)
    ensures NumFields(readInt, [Line(n, path)] + tail, counts) ==
            if FirstPiece(path) == "" && |tail| >= 2 then NumFields(readInt, tail[2..], counts[tail[1] := Some((n, n))])
            else NumFields(readInt, tail, counts[FirstPiece(path) := Some((n, n))])
  {
    EditedIsRead(readInt, Edited(Some(n), Some(n), path), tail, counts);
    assert ChangeFields(Edited(Some(n), Some(n), path)) == [Line(n, path)];
  }

  lemma LineAt(readInt: IntReader, fields: seq<string>, i: nat, n: nat, path: string, counts: Counts)
    requires ReadsDecimals(readInt) && i < |fields| && fields[i] == Line(n, path)
    ensures NumFields(readInt, fields[i..], counts) ==
            if FirstPiece(path) == "" && i + 2 < |fields| then NumFields(readInt, fields[i + 3..], counts[fields[i + 2] := Some((n, n))])
            else NumFields(readInt, fields[i + 1..], counts[FirstPiece(path) := Some((n, n))])
  {
    hide NumFields, Line, FirstPiece, ReadsDecimals;
    var tail := fields[i + 1..];
    LineIsRead(readInt, n, path, tail, counts);
    assert fields[i..] == [fields[i]] + tail;
    if i + 2 < |fields| { assert tail[2..] == fields[i + 3..]; }
  }

  lemma FirstPieces()
    ensures FirstPiece("") == "" && FirstPiece("\tx") == "" && FirstPiece("n") == "n" && FirstPiece("w") == "w"
  {
    SplitWithout("n", '\t');
    SplitWithout("w", '\t');
  }

  lemma ChanceIsRead(readInt: IntReader)
    requires ReadsDecimals(readInt)
    ensures NumFields(readInt, ChanceFields(), map[]) ==
            map[Line(2, "") := Some((1, 1))][Line(1, "") := Some((1, 1))]["n" := Some((2, 2))]["\tx" := Some((1, 1))]
               [Line(3, "w") := Some((2, 2))]["w" := Some((3, 3))]
  {
    FirstPieces();
    hide NumFields, Line, FirstPiece, ReadsDecimals;
    var f := ChanceFields();
    assert f[0..] == f && f[14..] == [];
    var c0: Counts := map[];
    LineAt(readInt, f, 0, 1, "\tx", c0);
    var c1 := c0[Line(2, "") := Some((1, 1))];
    LineAt(readInt, f, 3, 1, "", c1);
    var c2 := c1[Line(1, "") := Some((1, 1))];
    LineAt(readInt, f, 6, 2, "n", c2);
    var c3 := c2["n" := Some((2, 2))];
    LineAt(readInt, f, 7, 1, "", c3);
    var c4 := c3["\tx" := Some((1, 1))];
    LineAt(readInt, f, 10, 2, "", c4);
    var c5 := c4[Line(3, "w") := Some((2, 2))];
    LineAt(readInt, f, 13, 3, "w", c5);
    NoFields(readInt, c5["w" := Some((3, 3))]);
  }

  lemma LineOf(c: Change, n: nat)
    requires c.added == c.deleted == Some(n)
    ensures ChangeFields(c) == if c.Edited? then [Line(n, c.path)] else [Line(n, ""), c.oldPath, c.path]
  {
  }

  lemma ChancePrintsFirst()
    ensures ChangesFields(Chance()[..3]) == ChanceFields()[..5]
  {
    var c := Chance();
    LineOf(c[0], 1);
    LineOf(c[1], 3);
    LineOf(c[2], 2);
    hide Line, ChangeFields, ChangesFields;
    ThreeChanges(c[0], c[1], c[2]);
    assert c[..3] == [c[0], c[1], c[2]];
  }

  lemma ChancePrintsLast()
    ensures ChangesFields(Chance()[3..]) == ChanceFields()[5..]
  {
    var c := Chance();
    LineOf(c[3], 1);
    LineOf(c[4], 1);
    LineOf(c[5], 2);
    hide Line, ChangeFields, ChangesFields;
    ThreeChanges(c[3], c[4], c[5]);
    assert c[3..] == [c[3], c[4], c[5]];
  }

  lemma ChanceIsPrinted()
    ensures ChangesFields(Chance()) == ChanceFields()
  {
    ChancePrintsFirst();
    ChancePrintsLast();
    hide Line, ChangesFields;
    var c, f := Chance(), ChanceFields();
    ChangesTogether(c[..3], c[3..]);
    hide Chance, ChanceFields;
    assert c == c[..3] + c[3..] && f == f[..5] + f[5..];
  }

  lemma {:induction false} ChangesTogether(a: seq<Change>, b: seq<Change>)
    ensures ChangesFields(a + b) == ChangesFields(a) + ChangesFields(b)
    decreases |a|
  {
    hide ChangeFields;
    if a == [] {
      assert a + b == b;
    } else {
      ChangesTogether(a[1..], b);
      assert (a + b)[1..] == a[1..] + b;
    }
  }

  lemma LinesDiffer(readInt: IntReader, n: nat, p: string, m: nat, q: string)
    requires ReadsDecimals(readInt) && n != m
    ensures Line(n, p) != Line(m, q)
  {
    PairIsRead(readInt, Some(n), Some(n));
    PairIsRead(readInt, Some(m), Some(m));
    ChangeIsSplit(Some(n), Some(n), p);
    ChangeIsSplit(Some(m), Some(m), q);
    hide Split, Join, Count, CountPair, ReadsDecimals;
    assert Split(Line(n, p), '\t')[0] == Count(Some(n)) == Split(Line(n, p), '\t')[1];
    assert Split(Line(m, q), '\t')[0] == Count(Some(m)) == Split(Line(m, q), '\t')[1];
  }

  lemma LineShape(n: nat, path: string)
    requires Without(path, NUL)
    ensures |Line(n, path)| >= 2 && Line(n, path)[0] != '\t' && Without(Line(n, path), NUL)
  {
    ChangeFieldsWithout(Edited(Some(n), Some(n), path));
    CountIsPlain(Some(n));
    JoinThree(Count(Some(n)), Count(Some(n)), path);
    assert Decimal(n) != "";
  }

  lemma PathsDiffer(readInt: IntReader)
    requires ReadsDecimals(readInt)
    ensures Line(1, "") != Line(2, "") && Line(2, "") != Line(3, "w") && Line(3, "w") != Line(1, "")
    ensures {"\tx", "w", "n"} !! {Line(1, ""), Line(2, ""), Line(3, "w")}
  {
    LinesDiffer(readInt, 1, "", 2, "");
    LinesDiffer(readInt, 1, "", 3, "w");
    LinesDiffer(readInt, 2, "", 3, "w");
    LineShape(1, "");
    LineShape(2, "");
    LineShape(3, "w");
    hide Line, ReadsDecimals, Without;
    assert "\tx"[0] == '\t' && |"w"| == |"n"| == 1;
  }

  lemma SixDistinct(c: seq<Change>)
    requires |c| == 6 && {c[0].path, c[1].path, c[2].path} !! {c[3].path, c[4].path, c[5].path}
    requires c[0].path != c[1].path && c[1].path != c[2].path && c[2].path != c[0].path
    requires c[3].path != c[4].path && c[4].path != c[5].path && c[5].path != c[3].path
    ensures DistinctPaths(c)
  {
  }

  lemma ChanceIsDistinct(readInt: IntReader)
    requires ReadsDecimals(readInt)
    ensures DistinctPaths(Chance()) && AllNonempty(Chance())
  {
    PathsDiffer(readInt);
    LineShape(1, "");
    LineShape(2, "");
    LineShape(3, "w");
    hide Line, ReadsDecimals, Without, DistinctPaths;
    assert |"\tx"| == 2 && |"w"| == |"n"| == 1 && "w"[0] != "n"[0];
    SixDistinct(Chance());
  }

  lemma ChanceHasNoNul()
    ensures NoNul(Chance())
  {
    LineShape(1, "");
    LineShape(2, "");
    LineShape(2, "n");
    LineShape(3, "w");
    assert Without("\tx", NUL) && Without("w", NUL) && Without("n", NUL);
    hide Line, Without;
  }

  lemma ChanceHasATab()
    ensures !TabFree(Chance())
  {
    hide Line;
    assert Chance()[0] in Chance() && "\tx"[0] == '\t';
  }

  /** Beyond that the counts can be right by chance, though a path holds a tab: behind it moves are read as records
      that give just the counts that were lost. */
  lemma RightByChance(readInt: IntReader)
    requires ReadsDecimals(readInt)
    ensures DistinctPaths(Chance()) && AllNonempty(Chance()) && NoNul(Chance()) && !TabFree(Chance())
    ensures Numstat(readInt, PrintZ(ChangesFields(Chance()))) == AllCounted(map[], Chance())
  {
    ChanceIsDistinct(readInt);
    ChanceHasNoNul();
    ChanceHasATab();
    ChanceIsPrinted();
    ChanceIsRead(readInt);
    ChanceIsCounted();
    PathsDiffer(readInt);
    hide Line, NumFields, ReadsDecimals, Chance, ChanceFields, AllCounted, NoNul, DistinctPaths, AllNonempty, TabFree, Numstat;
    OrderDoesNotMatter("\tx", "w", "n", Line(1, ""), Line(2, ""), Line(3, "w"));
    NumstatOfPrinted(readInt, Chance());
  }

  lemma OrderDoesNotMatter(x: string, w: string, n: string, one: string, two: string, three: string)
    requires x != w && w != n && n != x && one != two && two != three && three != one
    requires {x, w, n} !! {one, two, three}
    ensures map[x := Some((1, 1))][w := Some((3, 3))][n := Some((2, 2))][one := Some((1, 1))][two := Some((1, 1))]
               [three := Some((2, 2))]
            == map[two := Some((1, 1))][one := Some((1, 1))][n := Some((2, 2))][x := Some((1, 1))][three := Some((2, 2))]
                  [w := Some((3, 3))]
  {
  }

  lemma ChanceIsCounted()
    ensures AllCounted(map[], Chance()) ==
            map["\tx" := Some((1, 1))]["w" := Some((3, 3))]["n" := Some((2, 2))][Line(1, "") := Some((1, 1))]
               [Line(2, "") := Some((1, 1))][Line(3, "w") := Some((2, 2))]
  {
    hide Line;
    var c := Chance();
    assert c[1..] == [c[1], c[2], c[3], c[4], c[5]] && c[1..][1..] == [c[2], c[3], c[4], c[5]];
    assert [c[2], c[3], c[4], c[5]][1..] == [c[3], c[4], c[5]] && [c[3], c[4], c[5]][1..] == [c[4], c[5]];
    assert [c[4], c[5]][1..] == [c[5]] && [c[5]][1..] == [];
  }

  lemma NoFields(readInt: IntReader, counts: Counts)
    ensures NumFields(readInt, [], counts) == counts
  {
  }

  // ----- The loops -----

  lemma FieldsEnd(readInt: IntReader, s: Status)
    ensures Fields(readInt, [], s) == Parsed(s)
  {
  }

  /** One turn of the loop: the fields left and the status so far give the same outcome. */
  lemma FieldsTurn(readInt: IntReader, fields: seq<string>, index: nat, s: Status)
    requires index < |fields|
    ensures Fields(readInt, fields[index..], s) ==
            var entry := fields[index];
            if entry == "" then Fields(readInt, fields[index + 1..], s)
            else if "# " <= entry then Fields(readInt, fields[index + 1..], TakeHeader(readInt, s, entry[2..]))
            else if entry[0] == '?' then Fields(readInt, fields[index + 1..], AddFile(s, UntrackedEntry(AfterMark(entry))))
            else if entry[0] == 'u' then
              var parts := SplitMax(entry, ' ', 10);
              Fields(readInt, fields[index + 1..], AddFile(s, UnmergedEntry(parts[|parts| - 1])))
            else if entry[0] != '1' && entry[0] != '2' then Fields(readInt, fields[index + 1..], s)
            else
              var parts := SplitMax(entry, ' ', 8);
              if |parts| < 9 then Fields(readInt, fields[index + 1..], s)
              else if |parts[1]| < 2 then IndexError
              else if entry[0] == '1' then
                Fields(readInt, fields[index + 1..], AddFile(s, TrackedEntry(parts[8], None, parts[1][0], parts[1][1])))
              else if index + 1 < |fields| then
                Fields(readInt, fields[index + 2..],
                       AddFile(s, TrackedEntry(Rest(parts[8], ' '), Some(fields[index + 1]), parts[1][0], parts[1][1])))
              else
                Fields(readInt, [], AddFile(s, TrackedEntry(Rest(parts[8], ' '), None, parts[1][0], parts[1][1])))
  {
    hide SplitMax, Rest, TakeHeader;
    assert fields[index..][1..] == fields[index + 1..];
    assert index + 1 < |fields| ==> fields[index + 1..][1..] == fields[index + 2..];
  }

  /** Parses the output of `git status --porcelain=v2 --branch -z`. */
  method ParsePorcelainV2(readInt: IntReader, data: string) returns (r: Outcome)
    ensures r == ParseStatus(readInt, data)
  {
    hide Fields, SplitMax, Rest, TakeHeader, SplitZ, Classify;
    var fields := SplitZ(data);
    var s := NO_STATUS;
    var index := 0;
    assert fields[0..] == fields;
    while index < |fields|
      invariant index <= |fields| && ParseStatus(readInt, data) == Fields(readInt, fields[index..], s)
    {
      FieldsTurn(readInt, fields, index, s);
      var entry := fields[index];
      index := index + 1;
      if entry == "" { continue; }
      if "# " <= entry {
        s := TakeHeader(readInt, s, entry[2..]);
        continue;
      }
      var kind := entry[0];
      if kind == '?' {
        s := AddFile(s, UntrackedEntry(AfterMark(entry)));
        continue;
      }
      if kind == 'u' {
        var parts := SplitMax(entry, ' ', 10);
        s := AddFile(s, UnmergedEntry(parts[|parts| - 1]));
        continue;
      }
      if kind != '1' && kind != '2' { continue; }
      var parts := SplitMax(entry, ' ', 8);
      if |parts| < 9 { continue; }
      var xy := parts[1];
      if |xy| < 2 { return IndexError; }
      var path, origPath := parts[8], None;
      if kind == '2' {
        path := Rest(path, ' ');
        assert index == |fields| ==> fields[index..] == [];
        if index < |fields| {
          origPath := Some(fields[index]);
          index := index + 1;
        }
      }
      s := AddFile(s, TrackedEntry(path, origPath, xy[0], xy[1]));
    }
    FieldsEnd(readInt, s);
    assert fields[index..] == [];
    r := Parsed(s);
  }

  lemma NumFieldsTurn(readInt: IntReader, fields: seq<string>, i: nat, counts: Counts)
    requires i < |fields|
    ensures NumFields(readInt, fields[i..], counts) ==
            var parts := Split(fields[i], '\t');
            if |parts| < 3 then NumFields(readInt, fields[i + 1..], counts)
            else if parts[2] == "" && i + 2 < |fields| then
              NumFields(readInt, fields[i + 3..], counts[fields[i + 2] := CountPair(readInt, parts[0], parts[1])])
            else NumFields(readInt, fields[i + 1..], counts[parts[2] := CountPair(readInt, parts[0], parts[1])])
  {
    hide Split, CountPair;
    assert fields[i..][1..] == fields[i + 1..];
    assert i + 2 < |fields| ==> fields[i..][3..] == fields[i + 3..];
  }

  /** Reads the output of `git diff --numstat -z`. */
  method ReadNumstat(readInt: IntReader, data: string) returns (counts: Counts)
    ensures counts == Numstat(readInt, data)
  {
    hide NumFields, Split, SplitZ;
    var fields := SplitZ(data);
    counts := map[];
    var i := 0;
    assert fields[0..] == fields;
    while i < |fields|
      invariant i <= |fields| && Numstat(readInt, data) == NumFields(readInt, fields[i..], counts)
    {
      NumFieldsTurn(readInt, fields, i, counts);
      var parts := Split(fields[i], '\t');
      if |parts| < 3 {
        i := i + 1;
        continue;
      }
      var added, deleted, path := parts[0], parts[1], parts[2];
      if path == "" && i + 2 < |fields| {
        path := fields[i + 2];
        i := i + 2;
      }
      i := i + 1;
      var pair := None;
      if added != "-" && deleted != "-" && readInt(added).Some? && readInt(deleted).Some? {
        pair := Some((readInt(added).value, readInt(deleted).value));
      }
      counts := counts[path := pair];
    }
    NoFields(readInt, counts);
    assert fields[i..] == [];
  }

  // ----- Reading a process up to a cap -----

  /** What is kept of a stream. */
  function Capped<T>(stream: seq<T>, maxBytes: nat): seq<T> { if |stream| <= maxBytes then stream else stream[..maxBytes] }

  /** One more read adds to what is kept only below the cap. */
  lemma CappedGrows<T>(stream: seq<T>, chunk: seq<T>, maxBytes: nat)
    ensures Capped(stream + chunk, maxBytes) ==
            if |stream| < maxBytes then Capped(stream, maxBytes) + Capped(chunk, maxBytes - |stream|)
            else Capped(stream, maxBytes)
  {
  }

  lemma UntilEmptyGrows<T>(pieces: seq<seq<T>>, i: nat)
    requires i < |pieces| && UntilEmpty(pieces) == pieces[..i] + UntilEmpty(pieces[i..])
    ensures UntilEmpty(pieces) == if pieces[i] == [] then pieces[..i] else pieces[..i + 1] + UntilEmpty(pieces[i + 1..])
  {
    hide *;
    UntilEmptyFirst(pieces[i..]);
    NextPiece(pieces, i);
    if pieces[i] != [] { Associates(pieces[..i], [pieces[i]], UntilEmpty(pieces[i + 1..])); }
  }

  lemma NextPiece<T>(pieces: seq<seq<T>>, i: nat)
    requires i < |pieces|
    ensures pieces[i..][1..] == pieces[i + 1..] && pieces[i..][0] == pieces[i]
    ensures pieces[..i + 1] == pieces[..i] + [pieces[i]] && pieces[..i] + [] == pieces[..i]
  {
  }

  lemma UntilEmptyFirst<T>(pieces: seq<seq<T>>)
    requires pieces != []
    ensures UntilEmpty(pieces) == if pieces[0] == [] then [] else [pieces[0]] + UntilEmpty(pieces[1..])
  {
  }

  /** Collects what the reads return, up to a cap. Only the stream matters, not where the reads were cut: the
      output is its first bytes, and it is truncated exactly when the stream is longer. */
  method ReadCapped<T(==)>(pieces: seq<seq<T>>, maxBytes: nat) returns (output: seq<T>, truncated: bool)
    ensures var stream := Flatten(UntilEmpty(pieces));
            output == Capped(stream, maxBytes) && (truncated <==> |stream| > maxBytes)
  {
    hide UntilEmpty, Flatten, Capped;
    output, truncated := [], false;
    var total, i := 0, 0;
    NothingRead(pieces, maxBytes);
    while i < |pieces|
      invariant i <= |pieces| && UntilEmpty(pieces) == pieces[..i] + UntilEmpty(pieces[i..])
      invariant total == |Flatten(pieces[..i])|
      invariant output == Capped(Flatten(pieces[..i]), maxBytes)
      invariant truncated <==> total > maxBytes
    {
      var chunk := pieces[i];
      UntilEmptyGrows(pieces, i);
      if chunk == [] { return; }
      FlattenStep(pieces, i);
      CappedGrows(Flatten(pieces[..i]), chunk, maxBytes);
      if total < maxBytes {
        var allowed := maxBytes - total;
        output := output + Capped(chunk, allowed);
        if |chunk| > allowed { truncated := true; }
      } else {
        truncated := true;
      }
      total := total + |chunk|;
      i := i + 1;
    }
    AllRead(pieces);
  }

  lemma NothingRead<T>(pieces: seq<seq<T>>, maxBytes: nat)
    ensures UntilEmpty(pieces) == pieces[..0] + UntilEmpty(pieces[0..])
    ensures Flatten(pieces[..0]) == [] && Capped(Flatten(pieces[..0]), maxBytes) == []
  {
    assert pieces[0..] == pieces;
  }

  lemma AllRead<T>(pieces: seq<seq<T>>)
    ensures pieces[..|pieces|] + UntilEmpty(pieces[|pieces|..]) == pieces[..|pieces|]
  {
  }
}
