/** The workspace search index and its incremental refresh (agent/ollama_code/knowledge.py). */
module KnowledgeIndex {
  import opened Options
  import opened Chunker

  type Path = string

  const MAX_FILES := 20_000
  const MAX_CHUNKS := 100_000
  const MAX_CHANGED := 5_000

  /** What a look at a path finds: text, a file that is passed over (too large, binary, a link or not a
      file), or an error such as a missing file. */
  datatype Sight = Readable(raw: string) | PassedOver | Unreadable

  /** How texts are hashed and cut into lines, and which paths may be indexed. */
  datatype Env = Env(digest: string -> int, splitLines: string -> seq<string>, eligible: Path -> bool)

  function Cut(env: Env, raw: string): seq<Piece> { Chunks(env.splitLines(raw)) }

  datatype ChunkRow = ChunkRow(id: nat, path: Path, piece: Piece)

  datatype FtsRow = FtsRow(text: string, path: Path, chunkId: nat)

  /** The tables: documents with their content hash, chunk rows and full-text rows in order of insertion. */
  datatype Index = Index(documents: map<Path, int>, rows: seq<ChunkRow>, fts: seq<FtsRow>, nextId: nat)

  const EMPTY := Index(map[], [], [], 0)

  // ----- Table operations -----

  function RowsWithout(rows: seq<ChunkRow>, gone: set<Path>): seq<ChunkRow>
  {
    if rows == [] then []
    else if rows[0].path in gone then RowsWithout(rows[1..], gone)
    else [rows[0]] + RowsWithout(rows[1..], gone)
  }

  function FtsWithout(fts: seq<FtsRow>, gone: set<Path>): seq<FtsRow>
  {
    if fts == [] then []
    else if fts[0].path in gone then FtsWithout(fts[1..], gone)
    else [fts[0]] + FtsWithout(fts[1..], gone)
  }

  /** Deleting documents takes their chunk rows with them. */
  function Purge(index: Index, gone: set<Path>): Index
  {
    Index(index.documents - gone, RowsWithout(index.rows, gone), FtsWithout(index.fts, gone), index.nextId)
  }

  function NewRows(id: nat, path: Path, pieces: seq<Piece>): seq<ChunkRow>
  {
    seq(|pieces|, i requires 0 <= i < |pieces| => ChunkRow(id + i, path, pieces[i]))
  }

  function NewFts(id: nat, path: Path, pieces: seq<Piece>): seq<FtsRow>
  {
    seq(|pieces|, i requires 0 <= i < |pieces| => FtsRow(pieces[i].text, path, id + i))
  }

  /** Replaces what the index holds for a path by a text cut anew. */
  function Store(env: Env, index: Index, path: Path, raw: string): Index
  {
    var pieces := Cut(env, raw);
    Index(index.documents[path := env.digest(raw)],
          RowsWithout(index.rows, {path}) + NewRows(index.nextId, path, pieces),
          FtsWithout(index.fts, {path}) + NewFts(index.nextId, path, pieces),
          index.nextId + |pieces|)
  }

  predicate UpToDate(env: Env, index: Index, path: Path, raw: string)
  {
    path in index.documents && index.documents[path] == env.digest(raw)
  }

  /** One candidate of a refresh. */
  function Visit(env: Env, look: Path -> Sight, index: Index, path: Path): Index
  {
    match look(path)
    case PassedOver => index
    case Unreadable => Purge(index, {path})
    case Readable(raw) => if UpToDate(env, index, path, raw) then index else Store(env, index, path, raw)
  }

  /** The refresh stops once a stored text fills the table of chunks. */
  predicate Full(env: Env, look: Path -> Sight, index: Index, path: Path)
  {
    look(path).Readable? && !UpToDate(env, index, path, look(path).raw) && |Visit(env, look, index, path).rows| >= MAX_CHUNKS
  }

  /** The index after the candidates, and how many of them were seen. */
  datatype Progress = Progress(index: Index, seen: nat)

  function VisitAll(env: Env, look: Path -> Sight, index: Index, candidates: seq<Path>): (r: Progress)
    ensures r.seen <= |candidates|
    decreases |candidates|
  {
    if candidates == [] then Progress(index, 0)
    else
      var next := Visit(env, look, index, candidates[0]);
      if Full(env, look, index, candidates[0]) then Progress(next, 1)
      else
        var rest := VisitAll(env, look, next, candidates[1..]);
        Progress(rest.index, rest.seen + 1)
  }

  function Eligible(env: Env, paths: seq<Path>): seq<Path>
  {
    if paths == [] then []
    else if env.eligible(paths[0]) then [paths[0]] + Eligible(env, paths[1..])
    else Eligible(env, paths[1..])
  }

  function Take<T>(items: seq<T>, n: nat): seq<T> { if |items| <= n then items else items[..n] }

  /** The candidates of a refresh: the paths that changed, or every path the scan lists. */
  function Candidates(env: Env, listing: seq<Path>, changed: Option<seq<Path>>): seq<Path>
  {
    var paths := match changed case None => listing case Some(values) => Take(values, MAX_CHANGED);
    Take(Eligible(env, paths), MAX_FILES)
  }

  function Seen(candidates: seq<Path>, n: nat): set<Path>
    requires n <= |candidates|
  {
    set i | 0 <= i < n :: candidates[i]
  }

  /** A refresh. A full one also drops every document it has not seen. */
  function Reindexed(env: Env, look: Path -> Sight, index: Index, listing: seq<Path>, changed: Option<seq<Path>>): Index
  {
    var candidates := Candidates(env, listing, changed);
    var visited := VisitAll(env, look, index, candidates);
    if changed.Some? then visited.index
    else Purge(visited.index, visited.index.documents.Keys - Seen(candidates, visited.seen))
  }

  /** The refresh was not stopped by a full table, and neither list was cut off. */
  predicate Complete(env: Env, look: Path -> Sight, index: Index, listing: seq<Path>, changed: Option<seq<Path>>)
  {
    && (changed.Some? ==> |changed.value| <= MAX_CHANGED)
    && |Eligible(env, if changed.Some? then changed.value else listing)| <= MAX_FILES
    && VisitAll(env, look, index, Candidates(env, listing, changed)).seen == |Candidates(env, listing, changed)|
  }

  // ----- What an index holds -----

  function PiecesOf(rows: seq<ChunkRow>, path: Path): seq<Piece>
  {
    if rows == [] then []
    else if rows[0].path == path then [rows[0].piece] + PiecesOf(rows[1..], path)
    else PiecesOf(rows[1..], path)
  }

  /** What the index holds for one path. */
  datatype Indexed = Indexed(hash: int, pieces: seq<Piece>)

  function Held(index: Index, path: Path): Option<Indexed>
  {
    if path in index.documents then Some(Indexed(index.documents[path], PiecesOf(index.rows, path))) else None
  }

  /** What a text indexed anew gives. */
  function Fresh(env: Env, raw: string): Indexed { Indexed(env.digest(raw), Cut(env, raw)) }

  /** What a visit makes of what was held. */
  function AfterVisit(env: Env, sight: Sight, before: Option<Indexed>): Option<Indexed>
  {
    match sight
    case PassedOver => before
    case Unreadable => None
    case Readable(raw) => Some(Fresh(env, raw))
  }

  // ----- Invariants -----

  /** Full-text rows mirror chunk rows one for one. */
  ghost predicate Mirrors(rows: seq<ChunkRow>, fts: seq<FtsRow>)
  {
    |rows| == |fts| && forall i :: 0 <= i < |rows| ==> fts[i] == FtsRow(rows[i].piece.text, rows[i].path, rows[i].id)
  }

  /** Chunk ids grow and stay below the next id. */
  ghost predicate Numbered(rows: seq<ChunkRow>, next: nat)
  {
    && (forall i :: 0 <= i < |rows| ==> rows[i].id < next)
    && (forall i, j :: 0 <= i < j < |rows| ==> rows[i].id < rows[j].id)
  }

  /** Every row belongs to a document, and every document holds what some text indexed anew gives. */
  ghost predicate Sound(env: Env, index: Index)
  {
    && (forall i :: 0 <= i < |index.rows| ==> index.rows[i].path in index.documents)
    && (forall p :: p in index.documents ==> exists raw :: Held(index, p) == Some(Fresh(env, raw)))
  }

  ghost predicate Consistent(env: Env, index: Index)
  {
    Mirrors(index.rows, index.fts) && Numbered(index.rows, index.nextId) && Sound(env, index)
  }

  ghost predicate Injective(digest: string -> int) { forall a, b :: digest(a) == digest(b) ==> a == b }

  // ----- Rows of one path -----

  lemma {:induction false} WithoutMirrors(rows: seq<ChunkRow>, fts: seq<FtsRow>, gone: set<Path>)
    requires Mirrors(rows, fts)
    ensures Mirrors(RowsWithout(rows, gone), FtsWithout(fts, gone))
    decreases |rows|
  {
    if rows != [] {
      assert fts[0] == FtsRow(rows[0].piece.text, rows[0].path, rows[0].id);
      WithoutMirrors(rows[1..], fts[1..], gone);
    }
  }

  lemma {:induction false} WithoutKeeps(rows: seq<ChunkRow>, gone: set<Path>, row: ChunkRow)
    ensures row in RowsWithout(rows, gone) <==> row in rows && row.path !in gone
    decreases |rows|
  {
    if rows != [] { WithoutKeeps(rows[1..], gone, row); }
  }

  lemma {:induction false} WithoutNumbered(rows: seq<ChunkRow>, gone: set<Path>, next: nat)
    requires Numbered(rows, next)
    ensures Numbered(RowsWithout(rows, gone), next)
    decreases |rows|
  {
    if rows != [] {
      WithoutNumbered(rows[1..], gone, next);
      var rest := RowsWithout(rows[1..], gone);
      forall i | 0 <= i < |rest| ensures rows[0].id < rest[i].id {
        WithoutKeeps(rows[1..], gone, rest[i]);
        assert rest[i] in rows[1..];
      }
    }
  }

  lemma {:induction false} WithoutPieces(rows: seq<ChunkRow>, gone: set<Path>, path: Path)
    ensures PiecesOf(RowsWithout(rows, gone), path) == if path in gone then [] else PiecesOf(rows, path)
    decreases |rows|
  {
    if rows != [] { WithoutPieces(rows[1..], gone, path); }
  }

  lemma {:induction false} PiecesTogether(a: seq<ChunkRow>, b: seq<ChunkRow>, path: Path)
    ensures PiecesOf(a + b, path) == PiecesOf(a, path) + PiecesOf(b, path)
    decreases |a|
  {
    if a == [] {
      assert a + b == b;
    } else {
      PiecesTogether(a[1..], b, path);
      assert (a + b)[1..] == a[1..] + b;
    }
  }

  lemma {:induction false} NewRowsPieces(id: nat, path: Path, pieces: seq<Piece>, other: Path)
    ensures PiecesOf(NewRows(id, path, pieces), other) == if other == path then pieces else []
    decreases |pieces|
  {
    if pieces != [] {
      NewRowsPieces(id + 1, path, pieces[1..], other);
      assert NewRows(id, path, pieces)[1..] == NewRows(id + 1, path, pieces[1..]);
      assert pieces == [pieces[0]] + pieces[1..];
    }
  }

  // ----- One visit -----

  lemma DroppedHolds(index: Index, gone: set<Path>, path: Path)
    ensures Held(Purge(index, gone), path) == if path in gone then None else Held(index, path)
  {
    WithoutPieces(index.rows, gone, path);
  }

  lemma StoredHolds(env: Env, index: Index, path: Path, raw: string, other: Path)
    ensures Held(Store(env, index, path, raw), other) == if other == path then Some(Fresh(env, raw)) else Held(index, other)
  {
    hide Cut;
    var pieces := Cut(env, raw);
    WithoutPieces(index.rows, {path}, other);
    PiecesTogether(RowsWithout(index.rows, {path}), NewRows(index.nextId, path, pieces), other);
    NewRowsPieces(index.nextId, path, pieces, other);
    assert PiecesOf(index.rows, other) + [] == PiecesOf(index.rows, other) && [] + pieces == pieces;
  }

  lemma DropStaysConsistent(env: Env, index: Index, gone: set<Path>)
    requires Consistent(env, index)
    ensures Consistent(env, Purge(index, gone))
  {
    WithoutMirrors(index.rows, index.fts, gone);
    WithoutNumbered(index.rows, gone, index.nextId);
    hide Fresh, Held, Mirrors, Numbered;
    var after := Purge(index, gone);
    forall i | 0 <= i < |after.rows| ensures after.rows[i].path in after.documents {
      WithoutKeeps(index.rows, gone, after.rows[i]);
    }
    forall p | p in after.documents ensures exists raw :: Held(after, p) == Some(Fresh(env, raw)) {
      DroppedHolds(index, gone, p);
    }
  }

  lemma NewRowsMirror(rows: seq<ChunkRow>, fts: seq<FtsRow>, id: nat, path: Path, pieces: seq<Piece>)
    requires Mirrors(rows, fts)
    ensures Mirrors(rows + NewRows(id, path, pieces), fts + NewFts(id, path, pieces))
  {
  }

  lemma NewRowsNumbered(rows: seq<ChunkRow>, id: nat, path: Path, pieces: seq<Piece>)
    requires Numbered(rows, id)
    ensures Numbered(rows + NewRows(id, path, pieces), id + |pieces|)
  {
  }

  lemma StoreStaysSound(env: Env, index: Index, path: Path, raw: string)
    requires Sound(env, index)
    ensures Sound(env, Store(env, index, path, raw))
  {
    hide Fresh, Held, Cut, FtsWithout, NewFts;
    var after := Store(env, index, path, raw);
    var kept := RowsWithout(index.rows, {path});
    forall i | 0 <= i < |after.rows| ensures after.rows[i].path in after.documents {
      if i < |kept| {
        WithoutKeeps(index.rows, {path}, kept[i]);
        assert after.rows[i] == kept[i];
      }
    }
    forall p | p in after.documents ensures exists text :: Held(after, p) == Some(Fresh(env, text)) {
      StoredHolds(env, index, path, raw, p);
    }
  }

  lemma StoreStaysConsistent(env: Env, index: Index, path: Path, raw: string)
    requires Consistent(env, index)
    ensures Consistent(env, Store(env, index, path, raw))
  {
    hide Mirrors, Numbered, Sound, Cut, RowsWithout, FtsWithout, NewRows, NewFts;
    WithoutMirrors(index.rows, index.fts, {path});
    WithoutNumbered(index.rows, {path}, index.nextId);
    NewRowsMirror(RowsWithout(index.rows, {path}), FtsWithout(index.fts, {path}), index.nextId, path, Cut(env, raw));
    NewRowsNumbered(RowsWithout(index.rows, {path}), index.nextId, path, Cut(env, raw));
    StoreStaysSound(env, index, path, raw);
  }

  lemma VisitStaysConsistent(env: Env, look: Path -> Sight, index: Index, path: Path)
    requires Consistent(env, index)
    ensures Consistent(env, Visit(env, look, index, path))
  {
    hide Consistent, Store, Purge;
    match look(path)
    case PassedOver =>
    case Unreadable => DropStaysConsistent(env, index, {path});
    case Readable(raw) => StoreStaysConsistent(env, index, path, raw);
  }

  /** An unchanged hash means unchanged chunks, so a visit always leaves what the look deserves. */
  lemma VisitHolds(env: Env, look: Path -> Sight, index: Index, path: Path, other: Path)
    requires Consistent(env, index) && Injective(env.digest)
    ensures Held(Visit(env, look, index, path), other) ==
            if other == path then AfterVisit(env, look(path), Held(index, path)) else Held(index, other)
  {
    hide Mirrors, Numbered, PiecesOf, Cut, Store, Purge;
    match look(path)
    case PassedOver =>
    case Unreadable => DroppedHolds(index, {path}, other);
    case Readable(raw) =>
      StoredHolds(env, index, path, raw, other);
      if UpToDate(env, index, path, raw) {
        var text :| Held(index, path) == Some(Fresh(env, text));
        assert env.digest(text) == env.digest(raw);
      }
  }

  // ----- A whole refresh -----

  lemma SeenFirst(candidates: seq<Path>, n: nat, q: Path)
    requires n < |candidates|
    ensures q in candidates[..n + 1] <==> q == candidates[0] || q in candidates[1..][..n]
  {
    assert candidates[..n + 1] == [candidates[0]] + candidates[1..][..n];
  }

  /** A second visit changes nothing. */
  lemma VisitTwice(env: Env, sight: Sight, before: Option<Indexed>)
    ensures AfterVisit(env, sight, AfterVisit(env, sight, before)) == AfterVisit(env, sight, before)
  {
  }

  lemma {:induction false} VisitAllHolds(env: Env, look: Path -> Sight, index: Index, candidates: seq<Path>, q: Path)
    requires Consistent(env, index) && Injective(env.digest)
    ensures var r := VisitAll(env, look, index, candidates);
            Held(r.index, q) == if q in candidates[..r.seen] then AfterVisit(env, look(q), Held(index, q)) else Held(index, q)
    decreases |candidates|
  {
    if candidates != [] {
      hide Consistent, Injective, Visit, Held, Full, Fresh, Cut, VisitAll;
      var first, next := candidates[0], Visit(env, look, index, candidates[0]);
      VisitHolds(env, look, index, first, q);
      VisitStaysConsistent(env, look, index, first);
      hide AfterVisit;
      VisitTwice(env, look(q), Held(index, q));
      VisitStep(env, look, index, candidates);
      if Full(env, look, index, first) {
        SeenFirst(candidates, 0, q);
      } else {
        VisitAllHolds(env, look, next, candidates[1..], q);
        SeenFirst(candidates, VisitAll(env, look, next, candidates[1..]).seen, q);
      }
    }
  }

  lemma {:induction false} VisitAllStaysConsistent(env: Env, look: Path -> Sight, index: Index, candidates: seq<Path>)
    requires Consistent(env, index)
    ensures Consistent(env, VisitAll(env, look, index, candidates).index)
    decreases |candidates|
  {
    if candidates != [] {
      hide Consistent, Visit, Full;
      VisitStaysConsistent(env, look, index, candidates[0]);
      if !Full(env, look, index, candidates[0]) {
        VisitAllStaysConsistent(env, look, Visit(env, look, index, candidates[0]), candidates[1..]);
      }
    }
  }

  /** A refresh stops before its last candidate only when the table of chunks is full. */
  lemma {:induction false} StopsOnlyWhenFull(env: Env, look: Path -> Sight, index: Index, candidates: seq<Path>)
    ensures var r := VisitAll(env, look, index, candidates);
            r.seen < |candidates| ==> |r.index.rows| >= MAX_CHUNKS
    decreases |candidates|
  {
    hide Visit, UpToDate;
    if candidates != [] && !Full(env, look, index, candidates[0]) {
      StopsOnlyWhenFull(env, look, Visit(env, look, index, candidates[0]), candidates[1..]);
    }
  }

  lemma {:induction false} EligibleMembers(env: Env, paths: seq<Path>, q: Path)
    ensures q in Eligible(env, paths) <==> q in paths && env.eligible(q)
    decreases |paths|
  {
    if paths != [] { EligibleMembers(env, paths[1..], q); }
  }

  lemma SeenMembers(candidates: seq<Path>, n: nat, q: Path)
    requires n <= |candidates|
    ensures q in Seen(candidates, n) <==> q in candidates[..n]
  {
    if q in candidates[..n] {
      var i :| 0 <= i < n && candidates[..n][i] == q;
      assert candidates[i] == q;
    }
  }

  /** What every path holds after a complete refresh. */
  lemma RefreshHolds(env: Env, look: Path -> Sight, index: Index, listing: seq<Path>, changed: Option<seq<Path>>, q: Path)
    requires Consistent(env, index) && Injective(env.digest) && Complete(env, look, index, listing, changed)
    ensures Held(Reindexed(env, look, index, listing, changed), q) ==
            if env.eligible(q) && q in (if changed.Some? then changed.value else listing)
            then AfterVisit(env, look(q), Held(index, q))
            else if changed.Some? then Held(index, q) else None
  {
    hide Consistent, Injective, VisitAll, Fresh, Seen;
    var candidates := Candidates(env, listing, changed);
    EligibleMembers(env, if changed.Some? then changed.value else listing, q);
    VisitAllHolds(env, look, index, candidates, q);
    var visited := VisitAll(env, look, index, candidates);
    assert candidates[..visited.seen] == candidates;
    if changed.None? {
      SeenMembers(candidates, visited.seen, q);
      DroppedHolds(visited.index, visited.index.documents.Keys - Seen(candidates, visited.seen), q);
    }
  }

  /** What the index should hold for a path: its text, if it is listed, eligible and readable. */
  function Expected(env: Env, look: Path -> Sight, listing: seq<Path>, q: Path): Option<Indexed>
  {
    if env.eligible(q) && q in listing && look(q).Readable? then Some(Fresh(env, look(q).raw)) else None
  }

  lemma EmptyIsConsistent(env: Env)
    ensures Consistent(env, EMPTY) && forall q :: Held(EMPTY, q).None?
  {
  }

  /** A rebuild from nothing holds exactly the readable files the scan lists. */
  lemma RebuildHolds(env: Env, look: Path -> Sight, listing: seq<Path>, q: Path)
    requires Injective(env.digest) && Complete(env, look, EMPTY, listing, None)
    ensures Held(Reindexed(env, look, EMPTY, listing, None), q) == Expected(env, look, listing, q)
  {
    hide Consistent, Injective, Complete, Reindexed, Held, Fresh;
    EmptyIsConsistent(env);
    RefreshHolds(env, look, EMPTY, listing, None, q);
  }

  ghost predicate Agree(a: Index, b: Index) { forall q :: Held(a, q) == Held(b, q) }

  /** An indexed file that turned too large, binary or into something that is not a file. */
  predicate Spoiled(env: Env, before: Path -> Sight, look: Path -> Sight, listed: seq<Path>, q: Path)
  {
    env.eligible(q) && look(q).PassedOver? && q in listed && before(q).Readable?
  }

  /** A readable file of an eligible name that the scan does not list, such as one git ignores. Of a changed path
      only the name is asked. */
  predicate Unlisted(env: Env, look: Path -> Sight, listing: seq<Path>, q: Path)
  {
    env.eligible(q) && look(q).Readable? && q !in listing
  }

  /** The change list covers what changed. */
  ghost predicate Covers(before: Path -> Sight, look: Path -> Sight, listed: seq<Path>, listing: seq<Path>, changed: seq<Path>)
  {
    forall q :: q !in changed ==> before(q) == look(q) && (q in listed <==> q in listing)
  }

  lemma AgreeAt(env: Env, before: Path -> Sight, look: Path -> Sight, index: Index, listed: seq<Path>, listing: seq<Path>,
                changed: seq<Path>, q: Path)
    requires Consistent(env, index) && Injective(env.digest) && Covers(before, look, listed, listing, changed)
    requires Held(index, q) == Expected(env, before, listed, q)
    requires Complete(env, look, index, listing, Some(changed)) && Complete(env, look, EMPTY, listing, None)
    ensures Held(Reindexed(env, look, index, listing, Some(changed)), q) == Held(Reindexed(env, look, EMPTY, listing, None), q)
            <==> !(q in changed && (Spoiled(env, before, look, listed, q) || Unlisted(env, look, listing, q)))
  {
    hide Consistent, Injective, Complete, Reindexed, Held, Fresh;
    RebuildHolds(env, look, listing, q);
    RefreshHolds(env, look, index, listing, Some(changed), q);
  }

  /** An incremental refresh of an index in step with the files agrees with a rebuild from nothing, path by
      path in hash and chunks, exactly when no indexed file was spoiled and no changed file is unlisted: a spoiled
      file keeps its old entry, an unlisted one is indexed. */
  lemma IncrementalIsRebuildIff(env: Env, before: Path -> Sight, look: Path -> Sight, index: Index, listed: seq<Path>,
                                listing: seq<Path>, changed: seq<Path>)
    requires Consistent(env, index) && Injective(env.digest) && Covers(before, look, listed, listing, changed)
    requires forall q :: Held(index, q) == Expected(env, before, listed, q)
    requires Complete(env, look, index, listing, Some(changed)) && Complete(env, look, EMPTY, listing, None)
    ensures Agree(Reindexed(env, look, index, listing, Some(changed)), Reindexed(env, look, EMPTY, listing, None))
            <==> forall q :: q in changed ==> !Spoiled(env, before, look, listed, q) && !Unlisted(env, look, listing, q)
  {
    hide Consistent, Injective, Complete, Reindexed, Held, Fresh, Covers, Expected, Spoiled, Unlisted;
    forall q
      ensures Held(Reindexed(env, look, index, listing, Some(changed)), q) == Held(Reindexed(env, look, EMPTY, listing, None), q)
              <==> !(q in changed && (Spoiled(env, before, look, listed, q) || Unlisted(env, look, listing, q)))
    {
      AgreeAt(env, before, look, index, listed, listing, changed, q);
    }
  }

  // ----- Every reachable index -----

  datatype Action = Refresh(look: Path -> Sight, listing: seq<Path>, changed: Option<seq<Path>>) | DeleteAll

  function Cleared(index: Index): Index { Index(map[], [], [], index.nextId) }

  function Perform(env: Env, index: Index, action: Action): Index
  {
    match action
    case Refresh(look, listing, changed) => Reindexed(env, look, index, listing, changed)
    case DeleteAll => Cleared(index)
  }

  function Run(env: Env, index: Index, actions: seq<Action>): Index
  {
    if actions == [] then index else Perform(env, Run(env, index, actions[..|actions| - 1]), actions[|actions| - 1])
  }

  lemma ReindexStaysConsistent(env: Env, look: Path -> Sight, index: Index, listing: seq<Path>, changed: Option<seq<Path>>)
    requires Consistent(env, index)
    ensures Consistent(env, Reindexed(env, look, index, listing, changed))
  {
    hide Consistent, VisitAll, Seen, Candidates;
    var candidates := Candidates(env, listing, changed);
    VisitAllStaysConsistent(env, look, index, candidates);
    var visited := VisitAll(env, look, index, candidates);
    DropStaysConsistent(env, visited.index, visited.index.documents.Keys - Seen(candidates, visited.seen));
  }

  /** In every reachable index the full-text rows mirror the chunk rows one for one, and every document holds
      the chunks of some text with its hash, whatever the files did and wherever refreshes stopped. */
  lemma {:induction false} RunsStayConsistent(env: Env, actions: seq<Action>)
    ensures Consistent(env, Run(env, EMPTY, actions))
    decreases |actions|
  {
    EmptyIsConsistent(env);
    if actions != [] {
      var front := actions[..|actions| - 1];
      RunsStayConsistent(env, front);
      match actions[|actions| - 1]
      case Refresh(look, listing, changed) => ReindexStaysConsistent(env, look, Run(env, EMPTY, front), listing, changed);
      case DeleteAll => ClearedIsConsistent(env, Run(env, EMPTY, front));
    }
  }

  lemma ClearedIsConsistent(env: Env, index: Index)
    ensures Consistent(env, Cleared(index))
  {
  }

  // ----- The store -----

  lemma {:induction false} WithoutTwice(rows: seq<ChunkRow>, fts: seq<FtsRow>, a: set<Path>, b: set<Path>)
    ensures RowsWithout(RowsWithout(rows, a), b) == RowsWithout(rows, a + b)
    ensures FtsWithout(FtsWithout(fts, a), b) == FtsWithout(fts, a + b)
    decreases |rows| + |fts|
  {
    if rows != [] { WithoutTwice(rows[1..], fts, a, b); } else if fts != [] { WithoutTwice(rows, fts[1..], a, b); }
  }

  lemma {:induction false} WithoutNothing(rows: seq<ChunkRow>, fts: seq<FtsRow>)
    ensures RowsWithout(rows, {}) == rows && FtsWithout(fts, {}) == fts
    decreases |rows| + |fts|
  {
    if rows != [] { WithoutNothing(rows[1..], fts); } else if fts != [] { WithoutNothing(rows, fts[1..]); }
  }

  lemma PurgeTwice(index: Index, a: set<Path>, b: set<Path>)
    ensures Purge(Purge(index, a), b) == Purge(index, a + b)
  {
    WithoutTwice(index.rows, index.fts, a, b);
    assert index.documents - a - b == index.documents - (a + b);
  }

  lemma PurgeNothing(index: Index)
    ensures Purge(index, {}) == index
  {
    WithoutNothing(index.rows, index.fts);
    assert index.documents - {} == index.documents;
  }

  // ----- Refreshing again -----

  /** Nothing is left to do for the path. */
  predicate Settled(env: Env, look: Path -> Sight, index: Index, path: Path)
  {
    match look(path)
    case PassedOver => true
    case Unreadable => path !in index.documents
    case Readable(raw) => UpToDate(env, index, path, raw)
  }

  lemma {:induction false} WithoutAbsent(rows: seq<ChunkRow>, fts: seq<FtsRow>, gone: set<Path>)
    requires Mirrors(rows, fts) && forall i :: 0 <= i < |rows| ==> rows[i].path !in gone
    ensures RowsWithout(rows, gone) == rows && FtsWithout(fts, gone) == fts
    decreases |rows|
  {
    if rows != [] {
      assert fts[0] == FtsRow(rows[0].piece.text, rows[0].path, rows[0].id);
      WithoutAbsent(rows[1..], fts[1..], gone);
    }
  }

  lemma VisitSettled(env: Env, look: Path -> Sight, index: Index, path: Path)
    requires Consistent(env, index) && Settled(env, look, index, path)
    ensures Visit(env, look, index, path) == index && !Full(env, look, index, path)
  {
    hide Held, Fresh, Numbered;
    if look(path).Unreadable? {
      WithoutAbsent(index.rows, index.fts, {path});
      assert index.documents - {path} == index.documents;
    }
  }

  lemma {:induction false} VisitAllSettled(env: Env, look: Path -> Sight, index: Index, candidates: seq<Path>)
    requires Consistent(env, index) && forall p :: p in candidates ==> Settled(env, look, index, p)
    ensures VisitAll(env, look, index, candidates) == Progress(index, |candidates|)
    decreases |candidates|
  {
    if candidates != [] {
      hide Consistent, Settled, Visit, Full;
      assert candidates[0] in candidates;
      VisitSettled(env, look, index, candidates[0]);
      VisitAllSettled(env, look, index, candidates[1..]);
    }
  }

  lemma SettledByHold(env: Env, look: Path -> Sight, index: Index, path: Path, before: Option<Indexed>)
    requires Held(index, path) == AfterVisit(env, look(path), before)
    ensures Settled(env, look, index, path)
  {
    hide PiecesOf, Cut;
  }

  /** Refreshing again while no file changes does nothing: no row is rewritten or renumbered. */
  lemma RefreshTwice(env: Env, look: Path -> Sight, index: Index, listing: seq<Path>, changed: Option<seq<Path>>)
    requires Consistent(env, index) && Injective(env.digest) && Complete(env, look, index, listing, changed)
    ensures var r := Reindexed(env, look, index, listing, changed);
            Reindexed(env, look, r, listing, changed) == r && Complete(env, look, r, listing, changed)
  {
    var r, candidates := Reindexed(env, look, index, listing, changed), Candidates(env, listing, changed);
    ReindexStaysConsistent(env, look, index, listing, changed);
    hide Consistent, Injective, VisitAll, Fresh, Settled, Purge, Held, AfterVisit;
    forall p | p in candidates ensures Settled(env, look, r, p) {
      EligibleMembers(env, if changed.Some? then changed.value else listing, p);
      RefreshHolds(env, look, index, listing, changed, p);
      SettledByHold(env, look, r, p, Held(index, p));
    }
    VisitAllSettled(env, look, r, candidates);
    if changed.None? {
      forall p | p in r.documents ensures p in Seen(candidates, |candidates|) {
        AllAreListed(env, look, index, listing, p);
        SeenMembers(candidates, |candidates|, p);
        assert candidates[..|candidates|] == candidates;
      }
      assert r.documents.Keys - Seen(candidates, |candidates|) == {};
      PurgeNothing(r);
    }
  }

  lemma AllAreListed(env: Env, look: Path -> Sight, index: Index, listing: seq<Path>, p: Path)
    requires Consistent(env, index) && Injective(env.digest) && Complete(env, look, index, listing, None)
    requires p in Reindexed(env, look, index, listing, None).documents
    ensures p in Candidates(env, listing, None)
  {
    hide Consistent, Injective, VisitAll, Fresh, AfterVisit, PiecesOf, Reindexed;
    RefreshHolds(env, look, index, listing, None, p);
    EligibleMembers(env, listing, p);
  }

  // ----- Limits -----

  /** At most the first 5,000 changes are looked at, and at most the first 20,000 eligible paths. */
  lemma CandidatesAreFew(env: Env, listing: seq<Path>, changed: Option<seq<Path>>)
    ensures var paths := match changed case None => listing case Some(values) => if |values| <= 5_000 then values else values[..5_000];
            && Candidates(env, listing, changed) <= Eligible(env, paths)
            && |Candidates(env, listing, changed)| == if |Eligible(env, paths)| <= 20_000 then |Eligible(env, paths)| else 20_000
  {
    hide Eligible;
  }

  /** Storing a text that brings the table of chunks to 100,000 rows ends the refresh. */
  lemma FullTableStops(env: Env, look: Path -> Sight, index: Index, candidates: seq<Path>)
    requires candidates != [] && look(candidates[0]).Readable? && !UpToDate(env, index, candidates[0], look(candidates[0]).raw)
    requires |Store(env, index, candidates[0], look(candidates[0]).raw).rows| >= 100_000
    ensures VisitAll(env, look, index, candidates) == Progress(Store(env, index, candidates[0], look(candidates[0]).raw), 1)
  {
    hide Store, UpToDate;
  }

  lemma RunIsStepByStep(env: Env, index: Index, actions: seq<Action>, action: Action)
    ensures Run(env, index, []) == index && Run(env, index, actions + [action]) == Perform(env, Run(env, index, actions), action)
  {
    assert (actions + [action])[..|actions|] == actions;
  }

  class KnowledgeStore {
    const env: Env
    var enabled: bool
    var documents: map<Path, int>
    var rows: seq<ChunkRow>
    var fts: seq<FtsRow>
    var nextId: nat

    function Value(): Index
      reads this
    {
      Index(documents, rows, fts, nextId)
    }

    constructor (env: Env)
      ensures this.env == env && Value() == EMPTY && !enabled
    {
      this.env, documents, rows, fts, nextId, enabled := env, map[], [], [], 0, false;
    }

    method Remove(path: Path)
      modifies this`documents, this`rows, this`fts
      ensures Value() == Purge(old(Value()), {path})
    {
      fts := FtsWithout(fts, {path});
      rows := RowsWithout(rows, {path});
      documents := documents - {path};
    }

    /** Replaces the rows of one path by the chunks of its text. */
    method Replace(path: Path, raw: string)
      modifies this`documents, this`rows, this`fts, this`nextId
      ensures Value() == Store(env, old(Value()), path, raw)
    {
      hide RowsWithout, FtsWithout, Chunks;
      fts := FtsWithout(fts, {path});
      rows := RowsWithout(rows, {path});
      documents := documents[path := env.digest(raw)];
      var pieces := ChunkLines(env.splitLines(raw));
      ghost var id, keptRows, keptFts := nextId, rows, fts;
      for i := 0 to |pieces|
        invariant nextId == id + i && documents == old(documents)[path := env.digest(raw)]
        invariant rows == keptRows + NewRows(id, path, pieces)[..i]
        invariant fts == keptFts + NewFts(id, path, pieces)[..i]
      {
        rows := rows + [ChunkRow(nextId, path, pieces[i])];
        fts := fts + [FtsRow(pieces[i].text, path, nextId)];
        nextId := nextId + 1;
      }
      assert NewRows(id, path, pieces)[..|pieces|] == NewRows(id, path, pieces);
      assert NewFts(id, path, pieces)[..|pieces|] == NewFts(id, path, pieces);
    }

    /** Visits the candidates; returns the paths seen. */
    method VisitCandidates(look: Path -> Sight, candidates: seq<Path>) returns (seen: set<Path>)
      modifies this`documents, this`rows, this`fts, this`nextId
      ensures var r := VisitAll(env, look, old(Value()), candidates);
              Value() == r.index && seen == Seen(candidates, r.seen)
    {
      hide VisitAll, Purge, Store;
      seen := {};
      var i := 0;
      assert candidates[0..] == candidates;
      while i < |candidates|
        invariant i <= |candidates| && seen == Seen(candidates, i)
        invariant VisitAll(env, look, old(Value()), candidates) == More(VisitAll(env, look, Value(), candidates[i..]), i)
      {
        var path := candidates[i];
        VisitStep(env, look, Value(), candidates[i..]);
        assert candidates[i..][1..] == candidates[i + 1..];
        SeenStep(candidates, i);
        seen := seen + {path};
        i := i + 1;
        match look(path)
        case PassedOver =>
        case Unreadable => Remove(path);
        case Readable(raw) =>
          if path in documents && documents[path] == env.digest(raw) { continue; }
          Replace(path, raw);
          if |rows| >= MAX_CHUNKS { return; }
      }
      NoVisit(env, look, Value());
      assert candidates[i..] == [];
    }

    /** Removes every document that was not seen. */
    method RemoveUnseen(seen: set<Path>)
      modifies this`documents, this`rows, this`fts
      ensures Value() == Purge(old(Value()), old(documents.Keys) - seen)
    {
      hide Purge;
      var left := documents.Keys - seen;
      ghost var stored, gone := Value(), left;
      PurgeNothing(stored);
      assert gone - left == {};
      while left != {}
        invariant left <= gone && Value() == Purge(stored, gone - left)
        decreases |left|
      {
        var path :| path in left;
        PurgeTwice(stored, gone - left, {path});
        assert gone - left + {path} == gone - (left - {path});
        Remove(path);
        left := left - {path};
      }
      assert gone - {} == gone;
    }

    /** A refresh of the changed paths, or of every path the scan lists. */
    method Reindex(look: Path -> Sight, listing: seq<Path>, changed: Option<seq<Path>>)
      modifies this`documents, this`rows, this`fts, this`nextId
      ensures Value() == if enabled then Reindexed(env, look, old(Value()), listing, changed) else old(Value())
    {
      hide VisitAll, Candidates, Purge, Seen;
      if !enabled { return; }
      var candidates := Candidates(env, listing, changed);
      var seen := VisitCandidates(look, candidates);
      if changed.None? { RemoveUnseen(seen); }
    }

    method Clear()
      modifies this`documents, this`rows, this`fts
      ensures Value() == Cleared(old(Value()))
    {
      fts, rows, documents := [], [], map[];
    }
  }

  /** The progress of the candidates left, after `n` others. */
  function More(rest: Progress, n: nat): Progress { Progress(rest.index, rest.seen + n) }

  lemma VisitStep(env: Env, look: Path -> Sight, index: Index, candidates: seq<Path>)
    requires candidates != []
    ensures var next := Visit(env, look, index, candidates[0]);
            VisitAll(env, look, index, candidates) ==
            if Full(env, look, index, candidates[0]) then Progress(next, 1)
            else More(VisitAll(env, look, next, candidates[1..]), 1)
  {
    hide Visit, Full;
  }

  lemma NoVisit(env: Env, look: Path -> Sight, index: Index)
    ensures VisitAll(env, look, index, []) == Progress(index, 0)
  {
  }

  lemma SeenStep(candidates: seq<Path>, n: nat)
    requires n < |candidates|
    ensures Seen(candidates, n + 1) == Seen(candidates, n) + {candidates[n]}
  {
  }
}
