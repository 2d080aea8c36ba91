/** Applying a whole patch to a workspace in two phases (agent/ollama_code/codex_patch.py). */
module PatchApply {
  import opened Options
  import opened Text
  import opened PatchSplice
  import opened PatchParse
  import opened Streams

  type Path = string
  type Files = map<Path, string>

  /** What the workspace answers about a path text, a path, or the contents of a file; `above` are the
      directories a path lies in. */
  datatype Env = Env(
    resolve: string -> Path, above: Path -> set<Path>, linked: Path -> bool, tooLarge: string -> bool, binary: string -> bool)

  datatype Tree = Tree(files: Files, dirs: set<Path>)

  datatype Op = Write(path: Path, contents: string) | Unlink(path: Path)

  /** `Refused` wrote nothing; `Broken` stopped at an operation that could not be carried out. */
  datatype Outcome = Done(tree: Tree) | Refused(error: PatchError) | Broken(tree: Tree, at: Op)

  // ----- One hunk -----

  predicate Exists(t: Tree, p: Path) { p in t.files || p in t.dirs }

  function Guarded(env: Env, t: Tree, path: string, mustExist: bool): Result<Path>
  {
    var resolved := env.resolve(path);
    if env.linked(resolved) then Err(PassesSymlink(path))
    else if mustExist && resolved !in t.files then Err(NotFound(path))
    else Ok(resolved)
  }

  function MoveText(h: Hunk): Option<string>
    requires h.Update?
  {
    if h.movePath.Some? && h.movePath.value != "" then h.movePath else None
  }

  predicate Unlinks(ops: seq<Op>, path: Path) { Unlink(path) in ops }

  function UpdatedText(env: Env, t: Tree, h: Hunk): Result<string>
    requires h.Update?
  {
    match Guarded(env, t, h.path, true)
    case Err(e) => Err(e)
    case Ok(source) =>
      if env.tooLarge(t.files[source]) then Err(TooLarge(h.path))
      else if env.binary(t.files[source]) then Err(LooksBinary(h.path))
      else UpdatedContents(t.files[source], h.chunks)
  }

  /** The operations of one hunk, decided on the tree as it is and the operations planned before it. */
  function HunkOps(env: Env, t: Tree, planned: seq<Op>, h: Hunk): Result<seq<Op>>
  {
    match h
    case Add(path, contents) =>
      (match Guarded(env, t, path, false)
       case Err(e) => Err(e)
       case Ok(target) =>
         if Exists(t, target) && !Unlinks(planned, target) then Err(AlreadyExists(path)) else Ok([Write(target, contents)]))
    case Delete(path) =>
      (match Guarded(env, t, path, true) case Err(e) => Err(e) case Ok(target) => Ok([Unlink(target)]))
    case Update(path, _, _) =>
      match UpdatedText(env, t, h)
      case Err(e) => Err(e)
      case Ok(text) =>
        match MoveText(h)
        case None => Ok([Write(env.resolve(path), text)])
        case Some(to) =>
          match Guarded(env, t, to, false)
          case Err(e) => Err(e)
          case Ok(destination) => Ok([Write(destination, text), Unlink(env.resolve(path))])
  }

  // ----- Two phases -----

  /** The first phase: every operation of the patch, in order, decided on the tree as it was. */
  function Plan(env: Env, t: Tree, planned: seq<Op>, hunks: seq<Hunk>): Result<seq<Op>>
    decreases |hunks|
  {
    if hunks == [] then Ok(planned)
    else
      match HunkOps(env, t, planned, hunks[0])
      case Err(e) => Err(e)
      case Ok(ops) => Plan(env, t, planned + ops, hunks[1..])
  }

  /** A file can be written where no directory is, and not below a file. */
  predicate CanWrite(env: Env, files: set<Path>, dirs: set<Path>, p: Path) { p !in dirs && env.above(p) !! files }

  predicate Can(env: Env, t: Tree, op: Op)
  {
    match op
    case Write(path, _) => CanWrite(env, t.files.Keys, t.dirs, path)
    case Unlink(path) => path in t.files
  }

  /** Writing a file makes the directories above it. */
  function After(env: Env, t: Tree, op: Op): Tree
  {
    match op
    case Write(path, contents) => Tree(t.files[path := contents], t.dirs + env.above(path))
    case Unlink(path) => Tree(t.files - {path}, t.dirs)
  }

  /** The second phase. */
  function Execute(env: Env, t: Tree, ops: seq<Op>): Outcome
    decreases |ops|
  {
    if ops == [] then Done(t)
    else if Can(env, t, ops[0]) then Execute(env, After(env, t, ops[0]), ops[1..])
    else Broken(t, ops[0])
  }

  function Carry(env: Env, t: Tree, plan: Result<seq<Op>>): Outcome
  {
    match plan case Err(e) => Refused(e) case Ok(ops) => Execute(env, t, ops)
  }

  function Apply(env: Env, t: Tree, hunks: seq<Hunk>): Outcome { Carry(env, t, Plan(env, t, [], hunks)) }

  /** The hunks applied one after another, each to the tree the one before it left. */
  function Sequential(env: Env, t: Tree, hunks: seq<Hunk>): Outcome
    decreases |hunks|
  {
    if hunks == [] then Done(t)
    else
      match Apply(env, t, hunks[..1])
      case Done(next) => Sequential(env, next, hunks[1..])
      case other => other
  }

  // ----- Executing -----

  lemma {:induction false} ExecuteTwice(env: Env, t: Tree, first: seq<Op>, second: seq<Op>)
    ensures Execute(env, t, first + second) ==
            match Execute(env, t, first) case Done(next) => Execute(env, next, second) case other => other
    decreases |first|
  {
    hide Can, After;
    if first == [] {
      assert first + second == second;
    } else {
      assert (first + second)[1..] == first[1..] + second && (first + second)[0] == first[0];
      if Can(env, t, first[0]) { ExecuteTwice(env, After(env, t, first[0]), first[1..], second); }
    }
  }

  lemma ExecuteOne(env: Env, t: Tree, op: Op)
    ensures Execute(env, t, [op]) == if Can(env, t, op) then Done(After(env, t, op)) else Broken(t, op)
  {
    hide Can, After;
    assert [op][1..] == [];
  }

  lemma ExecutePair(env: Env, t: Tree, a: Op, b: Op)
    ensures Execute(env, t, [a, b]) ==
            if !Can(env, t, a) then Broken(t, a)
            else if !Can(env, After(env, t, a), b) then Broken(After(env, t, a), b)
            else Done(After(env, After(env, t, a), b))
  {
    hide Can, After, Execute;
    assert [a, b] == [a] + [b];
    ExecuteTwice(env, t, [a], [b]);
    ExecuteOne(env, t, a);
    ExecuteOne(env, After(env, t, a), b);
  }

  // ----- A tree stays a tree -----

  /** Nothing lies in itself, and what a directory lies in holds what it holds. */
  ghost predicate Nested(env: Env)
  {
    (forall p :: p !in env.above(p)) && forall p, q :: q in env.above(p) ==> env.above(q) <= env.above(p)
  }

  /** No path names both a file and a directory, and everything lies in directories. */
  ghost predicate IsTree(env: Env, t: Tree)
  {
    t.files.Keys !! t.dirs && forall p :: Exists(t, p) ==> env.above(p) <= t.dirs
  }

  lemma FilesCanBeWritten(env: Env, t: Tree, p: Path, contents: string)
    requires IsTree(env, t) && p in t.files
    ensures Can(env, t, Write(p, contents)) && After(env, t, Write(p, contents)) == Tree(t.files[p := contents], t.dirs)
  {
  }

  lemma OperationKeepsTree(env: Env, t: Tree, op: Op)
    requires Nested(env) && IsTree(env, t) && Can(env, t, op)
    ensures IsTree(env, After(env, t, op))
  {
  }

  /** However far the operations come, files and directories stay a tree. */
  lemma {:induction false} ExecuteKeepsTree(env: Env, t: Tree, ops: seq<Op>)
    requires Nested(env) && IsTree(env, t)
    ensures !Execute(env, t, ops).Refused? && IsTree(env, Execute(env, t, ops).tree)
    decreases |ops|
  {
    hide Nested, IsTree, Can, After;
    if ops != [] && Can(env, t, ops[0]) {
      OperationKeepsTree(env, t, ops[0]);
      ExecuteKeepsTree(env, After(env, t, ops[0]), ops[1..]);
    }
  }

  // ----- What a hunk touches -----

  function Removed(env: Env, h: Hunk): set<Path>
  {
    match h
    case Add(_, _) => {}
    case Delete(path) => {env.resolve(path)}
    case Update(path, _, _) => if MoveText(h).Some? then {env.resolve(path)} else {}
  }

  /** The path that holds the new text of an update. */
  function Destination(env: Env, h: Hunk): Path
    requires h.Update?
  {
    env.resolve(if MoveText(h).Some? then MoveText(h).value else h.path)
  }

  function Written(env: Env, h: Hunk): set<Path>
  {
    match h
    case Add(path, _) => {env.resolve(path)}
    case Delete(_) => {}
    case Update(_, _, _) => {Destination(env, h)}
  }

  function Touched(env: Env, h: Hunk): set<Path> { Written(env, h) + Removed(env, h) }

  /** The directories a hunk makes. */
  function Made(env: Env, h: Hunk): set<Path>
  {
    match h
    case Add(path, _) => env.above(env.resolve(path))
    case Delete(_) => {}
    case Update(_, _, _) => env.above(Destination(env, h))
  }

  /** The operations of an accepted hunk: at most a write, then at most a removal of a file there was. */
  lemma OpsShape(env: Env, t: Tree, planned: seq<Op>, h: Hunk)
    requires HunkOps(env, t, planned, h).Ok?
    ensures var ops := HunkOps(env, t, planned, h).value;
            && (Removed(env, h) == {} ==>
                  |ops| == 1 && ops[0].Write? && Written(env, h) == {ops[0].path} && Made(env, h) == env.above(ops[0].path))
            && (Removed(env, h) != {} && Written(env, h) == {} ==>
                  ops == [Unlink(env.resolve(h.path))] && Removed(env, h) == {env.resolve(h.path)} && Made(env, h) == {})
            && (Removed(env, h) != {} && Written(env, h) != {} ==>
                  |ops| == 2 && ops[0].Write? && Written(env, h) == {ops[0].path} && Made(env, h) == env.above(ops[0].path)
                  && ops[1] == Unlink(env.resolve(h.path)) && Removed(env, h) == {env.resolve(h.path)})
    ensures forall p :: p in Removed(env, h) ==> p in t.files
  {
    hide UpdatedContents;
  }

  // ----- What the first phase accepts -----

  /** The file of an update can be read as text, its chunks all have their place in it, and it goes where it may. */
  ghost predicate Updatable(env: Env, contents: string, h: Hunk)
    requires h.Update?
  {
    && !env.tooLarge(contents) && !env.binary(contents) && PlaceAll(FileLines(contents), h.chunks, 0).Ok?
    && (h.movePath.Some? && h.movePath.value != "" ==> !env.linked(env.resolve(h.movePath.value)))
  }

  /** The paths of a hunk suit the tree; `gone` are the paths that earlier hunks remove. */
  ghost predicate Admissible(env: Env, t: Tree, h: Hunk, gone: set<Path>)
  {
    var p := env.resolve(h.path);
    && !env.linked(p)
    && match h
       case Add(_, _) => (p !in t.files && p !in t.dirs) || p in gone
       case Delete(_) => p in t.files
       case Update(_, _, _) => p in t.files && Updatable(env, t.files[p], h)
  }

  ghost predicate AllAdmissible(env: Env, t: Tree, hunks: seq<Hunk>, gone: set<Path>)
    decreases |hunks|
  {
    hunks == [] || (Admissible(env, t, hunks[0], gone) && AllAdmissible(env, t, hunks[1..], gone + Removed(env, hunks[0])))
  }

  /** Why a hunk is refused. */
  ghost predicate Explains(env: Env, t: Tree, h: Hunk, gone: set<Path>, e: PatchError)
  {
    var p := env.resolve(h.path);
    match e
    case PassesSymlink(path) =>
      env.linked(env.resolve(path)) && (path == h.path || (h.Update? && h.movePath == Some(path)))
    case AlreadyExists(path) => h.Add? && path == h.path && (p in t.files || p in t.dirs) && p !in gone
    case NotFound(path) => !h.Add? && path == h.path && p !in t.files
    case TooLarge(path) => h.Update? && path == h.path && p in t.files && env.tooLarge(t.files[p])
    case LooksBinary(path) => h.Update? && path == h.path && p in t.files && env.binary(t.files[p])
    case _ => h.Update? && p in t.files && PlaceAll(FileLines(t.files[p]), h.chunks, 0) == Err(e)
  }

  lemma {:induction false} PlacingErrors(original: seq<string>, chunks: seq<Chunk>, index: nat)
    requires PlaceAll(original, chunks, index).Err?
    ensures var e := PlaceAll(original, chunks, index).error; e.ContextNotFound? || e.LinesNotFound?
    decreases |chunks|
  {
    hide Seek;
    var placed := Place(original, chunks[0], index);
    if placed.Ok? { PlacingErrors(original, chunks[1..], placed.value.next); }
  }

  lemma AddIsAcceptedIff(env: Env, t: Tree, planned: seq<Op>, h: Hunk, gone: set<Path>)
    requires h.Add? && forall p :: Unlinks(planned, p) <==> p in gone
    ensures HunkOps(env, t, planned, h).Ok? <==> Admissible(env, t, h, gone)
    ensures HunkOps(env, t, planned, h).Err? ==> Explains(env, t, h, gone, HunkOps(env, t, planned, h).error)
  {
    hide Unlinks;
  }

  lemma TextIsMadeIff(env: Env, t: Tree, h: Hunk, gone: set<Path>)
    requires h.Update?
    ensures UpdatedText(env, t, h).Ok? <==>
              var p := env.resolve(h.path);
              && p in t.files && !env.linked(p) && !env.tooLarge(t.files[p]) && !env.binary(t.files[p])
              && PlaceAll(FileLines(t.files[p]), h.chunks, 0).Ok?
    ensures UpdatedText(env, t, h).Err? ==> Explains(env, t, h, gone, UpdatedText(env, t, h).error)
  {
    hide PlaceAll, FileLines, SpliceBack, SortByStart, WithFinalNewline, Join;
    var p := env.resolve(h.path);
    if p in t.files && PlaceAll(FileLines(t.files[p]), h.chunks, 0).Err? { PlacingErrors(FileLines(t.files[p]), h.chunks, 0); }
  }

  lemma HunkIsAcceptedIff(env: Env, t: Tree, planned: seq<Op>, h: Hunk, gone: set<Path>)
    requires forall p :: Unlinks(planned, p) <==> p in gone
    ensures HunkOps(env, t, planned, h).Ok? <==> Admissible(env, t, h, gone)
    ensures HunkOps(env, t, planned, h).Err? ==> Explains(env, t, h, gone, HunkOps(env, t, planned, h).error)
  {
    match h
    case Add(_, _) => AddIsAcceptedIff(env, t, planned, h, gone);
    case Delete(_) =>
    case Update(_, _, _) =>
      TextIsMadeIff(env, t, h, gone);
      hide UpdatedText, PlaceAll, FileLines, Unlinks;
  }

  /** An accepted hunk removes what it says and nothing else. */
  lemma UnlinksIff(env: Env, t: Tree, planned: seq<Op>, h: Hunk, p: Path)
    requires HunkOps(env, t, planned, h).Ok?
    ensures Unlinks(planned + HunkOps(env, t, planned, h).value, p) <==> Unlinks(planned, p) || p in Removed(env, h)
  {
    hide UpdatedText;
  }

  lemma {:induction false} PlanIsAcceptedIff(env: Env, t: Tree, planned: seq<Op>, hunks: seq<Hunk>, gone: set<Path>)
    requires forall p :: Unlinks(planned, p) <==> p in gone
    ensures Plan(env, t, planned, hunks).Ok? <==> AllAdmissible(env, t, hunks, gone)
    decreases |hunks|
  {
    hide HunkOps, Plan, Admissible, Unlinks, Removed;
    if hunks == [] {
      PlanEnd(env, t, planned);
    } else {
      var h := hunks[0];
      PlanStep(env, t, planned, hunks);
      HunkIsAcceptedIff(env, t, planned, h, gone);
      if Admissible(env, t, h, gone) {
        var ops := HunkOps(env, t, planned, h).value;
        forall p ensures Unlinks(planned + ops, p) <==> p in gone + Removed(env, h) { UnlinksIff(env, t, planned, h, p); }
        PlanIsAcceptedIff(env, t, planned + ops, hunks[1..], gone + Removed(env, h));
      }
    }
  }

  /** The first phase accepts a patch exactly when every hunk is admissible: its file is there, or for an
      addition is not, unless an earlier hunk removes it; no path passes through a link; and the chunks of an
      update have their place in its text. */
  lemma AcceptedIff(env: Env, t: Tree, hunks: seq<Hunk>)
    ensures !Apply(env, t, hunks).Refused? <==> AllAdmissible(env, t, hunks, {})
  {
    hide Plan, AllAdmissible;
    NotRefused(env, t, hunks);
    PlanIsAcceptedIff(env, t, [], hunks, {});
  }

  /** A patch is refused for the first hunk that is not admissible. */
  lemma {:induction false} RefusedFor(env: Env, t: Tree, planned: seq<Op>, hunks: seq<Hunk>, gone: set<Path>)
    returns (k: nat, before: set<Path>)
    requires Plan(env, t, planned, hunks).Err? && forall p :: Unlinks(planned, p) <==> p in gone
    ensures k < |hunks| && AllAdmissible(env, t, hunks[..k], gone) && before == gone + AllRemoved(env, hunks[..k])
    ensures !Admissible(env, t, hunks[k], before) && Explains(env, t, hunks[k], before, Plan(env, t, planned, hunks).error)
    decreases |hunks|
  {
    hide HunkOps, Plan, Admissible, Unlinks, Removed, Explains;
    if hunks == [] { PlanEnd(env, t, planned); }
    var h := hunks[0];
    PlanStep(env, t, planned, hunks);
    HunkIsAcceptedIff(env, t, planned, h, gone);
    if Admissible(env, t, h, gone) {
      var ops := HunkOps(env, t, planned, h).value;
      forall p ensures Unlinks(planned + ops, p) <==> p in gone + Removed(env, h) { UnlinksIff(env, t, planned, h, p); }
      var m;
      m, before := RefusedFor(env, t, planned + ops, hunks[1..], gone + Removed(env, h));
      k := m + 1;
      assert hunks[..k][1..] == hunks[1..][..m] && hunks[..k][0] == h;
    } else {
      k, before := 0, gone;
    }
  }

  function AllRemoved(env: Env, hunks: seq<Hunk>): set<Path>
  {
    if hunks == [] then {} else Removed(env, hunks[0]) + AllRemoved(env, hunks[1..])
  }

  // ----- When the second phase completes -----

  /** With these files and directories, what the hunk writes is not a directory and not below a file, and what it
      removes is there, if need be because the hunk has just written it. */
  predicate HunkFits(env: Env, h: Hunk, files: set<Path>, dirs: set<Path>)
  {
    (forall p :: p in Written(env, h) ==> CanWrite(env, files, dirs, p)) && Removed(env, h) <= files + Written(env, h)
  }

  /** Each hunk fits what the ones before it leave. Only paths matter. */
  predicate Fits(env: Env, hunks: seq<Hunk>, files: set<Path>, dirs: set<Path>)
    decreases |hunks|
  {
    hunks == [] ||
    (var h := hunks[0];
     && HunkFits(env, h, files, dirs)
     && Fits(env, hunks[1..], files + Written(env, h) - Removed(env, h), dirs + Made(env, h)))
  }

  /** One more hunk is carried out exactly when it fits; if it breaks off at a removal, a file is missing. */
  lemma HunkFitsIff(env: Env, t: Tree, current: Tree, planned: seq<Op>, h: Hunk)
    requires HunkOps(env, t, planned, h).Ok?
    ensures var r := Execute(env, current, HunkOps(env, t, planned, h).value);
            if HunkFits(env, h, current.files.Keys, current.dirs) then
              r.Done? && r.tree.files.Keys == current.files.Keys + Written(env, h) - Removed(env, h)
              && r.tree.dirs == current.dirs + Made(env, h)
            else r.Broken? && (r.at.Unlink? ==> r.at.path in t.files && r.at.path !in r.tree.files)
  {
    OpsShape(env, t, planned, h);
    hide Execute, HunkOps, Written, Removed, Made;
    var ops := HunkOps(env, t, planned, h).value;
    if |ops| == 1 {
      assert ops == [ops[0]];
      ExecuteOne(env, current, ops[0]);
    } else {
      assert ops == [ops[0], ops[1]];
      ExecutePair(env, current, ops[0], ops[1]);
    }
  }

  lemma PlanStep(env: Env, t: Tree, planned: seq<Op>, hunks: seq<Hunk>)
    requires hunks != []
    ensures var one := HunkOps(env, t, planned, hunks[0]);
            Plan(env, t, planned, hunks) == if one.Err? then Err(one.error) else Plan(env, t, planned + one.value, hunks[1..])
  {
    hide HunkOps;
  }

  lemma PlanEnd(env: Env, t: Tree, planned: seq<Op>)
    ensures Plan(env, t, planned, []) == Ok(planned)
  {
  }

  lemma {:induction false} PlanGrows(env: Env, t: Tree, planned: seq<Op>, hunks: seq<Hunk>) returns (more: seq<Op>)
    requires Plan(env, t, planned, hunks).Ok?
    ensures Plan(env, t, planned, hunks).value == planned + more
    decreases |hunks|
  {
    hide Plan, HunkOps;
    if hunks == [] {
      PlanEnd(env, t, planned);
      more := [];
    } else {
      PlanStep(env, t, planned, hunks);
      var ops := HunkOps(env, t, planned, hunks[0]).value;
      var rest := PlanGrows(env, t, planned + ops, hunks[1..]);
      more := ops + rest;
      Associates(planned, ops, rest);
    }
  }

  /** Where one hunk breaks off, so does the whole patch. */
  lemma BreaksThere(env: Env, t: Tree, current: Tree, planned: seq<Op>, hunks: seq<Hunk>)
    requires Execute(env, t, planned) == Done(current) && hunks != [] && Plan(env, t, planned, hunks).Ok?
    ensures HunkOps(env, t, planned, hunks[0]).Ok?
    ensures var r := Execute(env, current, HunkOps(env, t, planned, hunks[0]).value);
            if r.Broken? then Execute(env, t, Plan(env, t, planned, hunks).value) == r
            else Execute(env, t, planned + HunkOps(env, t, planned, hunks[0]).value) == r
                 && Plan(env, t, planned, hunks) == Plan(env, t, planned + HunkOps(env, t, planned, hunks[0]).value, hunks[1..])
  {
    hide Plan, HunkOps, Execute;
    PlanStep(env, t, planned, hunks);
    var ops := HunkOps(env, t, planned, hunks[0]).value;
    var more := PlanGrows(env, t, planned + ops, hunks[1..]);
    ExecuteTwice(env, t, planned, ops);
    ExecuteTwice(env, t, planned + ops, more);
  }

  lemma {:induction false} PlanFitsIff(env: Env, t: Tree, current: Tree, planned: seq<Op>, hunks: seq<Hunk>)
    requires Execute(env, t, planned) == Done(current) && Plan(env, t, planned, hunks).Ok?
    ensures var r := Execute(env, t, Plan(env, t, planned, hunks).value);
            && (r.Done? <==> Fits(env, hunks, current.files.Keys, current.dirs)) && (r.Done? <==> !r.Broken?)
            && (r.Broken? && r.at.Unlink? ==> r.at.path in t.files && r.at.path !in r.tree.files)
    decreases |hunks|
  {
    hide HunkOps, Execute, HunkFits, Written, Removed, Made, Plan;
    if hunks == [] {
      PlanEnd(env, t, planned);
    } else {
      var h := hunks[0];
      BreaksThere(env, t, current, planned, hunks);
      HunkFitsIff(env, t, current, planned, h);
      if HunkFits(env, h, current.files.Keys, current.dirs) {
        var ops := HunkOps(env, t, planned, h).value;
        PlanFitsIff(env, t, Execute(env, current, ops).tree, planned + ops, hunks[1..]);
      }
    }
  }

  /** A patch that passes the first phase is applied completely exactly when each hunk fits what the ones before
      it leave: nothing is written below a file or over a directory, and nothing removed that is gone.
      Otherwise it breaks off, when at a removal with the tree changed. */
  lemma AppliesCompletelyIff(env: Env, t: Tree, hunks: seq<Hunk>)
    requires Plan(env, t, [], hunks).Ok?
    ensures Apply(env, t, hunks).Done? <==> Fits(env, hunks, t.files.Keys, t.dirs)
    ensures Apply(env, t, hunks).Broken? <==> !Fits(env, hunks, t.files.Keys, t.dirs)
    ensures Apply(env, t, hunks).Broken? && Apply(env, t, hunks).at.Unlink? ==> Apply(env, t, hunks).tree.files != t.files
  {
    PlanFitsIff(env, t, t, [], hunks);
  }

  /** A patch is applied completely or refused before anything is written, exactly when the first phase refuses
      it or each hunk fits what the ones before it leave. */
  lemma AllOrNothingIff(env: Env, t: Tree, hunks: seq<Hunk>)
    ensures !Apply(env, t, hunks).Broken? <==> Plan(env, t, [], hunks).Err? || Fits(env, hunks, t.files.Keys, t.dirs)
  {
    hide Execute, Plan, Fits;
    if Plan(env, t, [], hunks).Ok? { AppliesCompletelyIff(env, t, hunks); }
  }

  /** What a patch that breaks off leaves is what the operations before the break make of the tree: the tree
      itself, if it breaks at the first. */
  lemma {:induction false} BrokenLeavesPrefix(env: Env, t: Tree, ops: seq<Op>) returns (n: nat)
    requires Execute(env, t, ops).Broken?
    ensures n < |ops| && ops[n] == Execute(env, t, ops).at && !Can(env, Execute(env, t, ops).tree, ops[n])
    ensures Execute(env, t, ops[..n]) == Done(Execute(env, t, ops).tree)
    ensures n == 0 ==> Execute(env, t, ops).tree == t
    decreases |ops|
  {
    hide Can, After;
    if Can(env, t, ops[0]) {
      var m := BrokenLeavesPrefix(env, After(env, t, ops[0]), ops[1..]);
      n := m + 1;
      assert ops[..n][1..] == ops[1..][..m];
    } else {
      n := 0;
    }
  }

  // ----- When the two phases are sequential -----

  /** No hunk looks at a path that an earlier one touched, except to add a file that was removed; and none adds a
      file where an earlier one made a directory. */
  predicate Independent(env: Env, hunks: seq<Hunk>, touched: set<Path>, removed: set<Path>, made: set<Path>)
    decreases |hunks|
  {
    hunks == [] ||
    (var h := hunks[0];
     && LooksElsewhere(env, h, touched, removed, made)
     && Independent(env, hunks[1..], touched + Touched(env, h), removed - Written(env, h) + Removed(env, h),
                    made + Made(env, h)))
  }

  predicate LooksElsewhere(env: Env, h: Hunk, touched: set<Path>, removed: set<Path>, made: set<Path>)
  {
    var p := env.resolve(h.path);
    if h.Add? then (p !in touched || p in removed) && p !in made else p !in touched
  }

  /** `removed` is gone from `current`, by the planned operations. */
  ghost predicate Gone(files: Files, current: Files, planned: seq<Op>, removed: set<Path>)
  {
    forall p :: p in removed ==> p in files && p !in current && Unlinks(planned, p)
  }

  /** `t` became `current` by the planned operations, which touched and finally removed these paths and made
      these directories. */
  ghost predicate Reached(env: Env, t: Tree, current: Tree, planned: seq<Op>, touched: set<Path>, removed: set<Path>,
                          made: set<Path>)
  {
    && Execute(env, t, planned) == Done(current)
    && Agree(t.files, current.files, touched) && current.dirs == t.dirs + made
    && Gone(t.files, current.files, planned, removed)
    && (forall op :: op in planned ==> op.path in touched)
  }

  /** Outside these paths the two hold the same files. */
  ghost predicate Agree(a: Files, b: Files, except: set<Path>)
  {
    forall p :: p !in except ==> (p in a <==> p in b) && (p in a ==> a[p] == b[p])
  }

  lemma AgreeTwice(a: Files, b: Files, c: Files, first: set<Path>, second: set<Path>)
    requires Agree(a, b, first) && Agree(b, c, second)
    ensures Agree(a, c, first + second)
  {
  }

  /** A hunk that looks only where nothing was touched plans the same before and after. */
  lemma SameOps(env: Env, t: Tree, current: Tree, planned: seq<Op>, touched: set<Path>, removed: set<Path>, made: set<Path>,
                h: Hunk)
    requires Reached(env, t, current, planned, touched, removed, made) && t.files.Keys !! t.dirs
    requires LooksElsewhere(env, h, touched, removed, made)
    ensures HunkOps(env, t, planned, h) == HunkOps(env, current, [], h)
  {
    hide Execute, UpdatedContents;
    var p := env.resolve(h.path);
    assert p !in touched ==> !Unlinks(planned, p);
    assert !Unlinks([], p);
  }

  /** The operations of one hunk touch its paths only, and remove what it removes. */
  lemma OpsTouch(env: Env, t: Tree, planned: seq<Op>, h: Hunk)
    requires HunkOps(env, t, planned, h).Ok?
    ensures forall op :: op in HunkOps(env, t, planned, h).value ==> op.path in Touched(env, h)
    ensures forall p :: p in Removed(env, h) ==> p in t.files && Unlinks(HunkOps(env, t, planned, h).value, p)
  {
    OpsShape(env, t, planned, h);
    hide HunkOps, Written, Removed, Made;
    var ops := HunkOps(env, t, planned, h).value;
    if |ops| == 2 { assert ops[1] in ops; }
  }

  lemma OperationEffect(env: Env, t: Tree, op: Op)
    ensures Agree(t.files, After(env, t, op).files, {op.path})
    ensures After(env, t, op).dirs == if op.Write? then t.dirs + env.above(op.path) else t.dirs
    ensures op.Unlink? ==> op.path !in After(env, t, op).files
  {
  }

  /** Carried out, they change nothing else. */
  lemma HunkEffect(env: Env, t: Tree, current: Tree, planned: seq<Op>, h: Hunk, next: Tree)
    requires HunkOps(env, t, planned, h).Ok? && Execute(env, current, HunkOps(env, t, planned, h).value) == Done(next)
    ensures Agree(current.files, next.files, Touched(env, h)) && next.dirs == current.dirs + Made(env, h)
    ensures Removed(env, h) !! next.files.Keys
  {
    OpsShape(env, t, planned, h);
    hide Execute, HunkOps, Written, Removed, Made, Can, After, Agree;
    var ops := HunkOps(env, t, planned, h).value;
    var once := After(env, current, ops[0]);
    OperationEffect(env, current, ops[0]);
    if |ops| == 1 {
      assert ops == [ops[0]];
      ExecuteOne(env, current, ops[0]);
      assert Touched(env, h) == {ops[0].path};
    } else {
      assert ops == [ops[0], ops[1]];
      ExecutePair(env, current, ops[0], ops[1]);
      OperationEffect(env, once, ops[1]);
      AgreeTwice(current.files, once.files, next.files, {ops[0].path}, {ops[1].path});
      assert Touched(env, h) == {ops[0].path} + {ops[1].path};
    }
  }

  lemma GoneStep(env: Env, t: Tree, current: Tree, planned: seq<Op>, removed: set<Path>, h: Hunk, next: Tree)
    requires Gone(t.files, current.files, planned, removed) && HunkOps(env, t, planned, h).Ok?
    requires Agree(current.files, next.files, Touched(env, h)) && Removed(env, h) !! next.files.Keys
    ensures Gone(t.files, next.files, planned + HunkOps(env, t, planned, h).value,
                 removed - Written(env, h) + Removed(env, h))
  {
    OpsTouch(env, t, planned, h);
    hide HunkOps, Removed, Written, Unlinks;
    var ops := HunkOps(env, t, planned, h).value;
    forall p | p in removed - Written(env, h) + Removed(env, h)
      ensures p in t.files && p !in next.files && Unlinks(planned + ops, p)
    {
      UnlinksTogether(planned, ops, p);
      if p !in Removed(env, h) { assert p !in Touched(env, h); }
    }
  }

  lemma ReachedStep(env: Env, t: Tree, current: Tree, planned: seq<Op>, touched: set<Path>, removed: set<Path>,
                    made: set<Path>, h: Hunk, next: Tree)
    requires Reached(env, t, current, planned, touched, removed, made)
    requires HunkOps(env, t, planned, h).Ok? && Execute(env, current, HunkOps(env, t, planned, h).value) == Done(next)
    ensures Reached(env, t, next, planned + HunkOps(env, t, planned, h).value,
                    touched + Touched(env, h), removed - Written(env, h) + Removed(env, h), made + Made(env, h))
  {
    HunkEffect(env, t, current, planned, h, next);
    GoneStep(env, t, current, planned, removed, h, next);
    OpsTouch(env, t, planned, h);
    AgreeTwice(t.files, current.files, next.files, touched, Touched(env, h));
    hide Execute, HunkOps, Removed, Written, Made, Touched, Unlinks, Agree, Gone;
    ExecuteTwice(env, t, planned, HunkOps(env, t, planned, h).value);
    assert t.dirs + made + Made(env, h) == t.dirs + (made + Made(env, h));
  }

  lemma UnlinksTogether(a: seq<Op>, b: seq<Op>, path: Path)
    ensures Unlinks(a, path) || Unlinks(b, path) ==> Unlinks(a + b, path)
  {
    assert Unlink(path) in a || Unlink(path) in b ==> Unlink(path) in a + b;
  }

  lemma ApplyOne(env: Env, t: Tree, h: Hunk)
    ensures Apply(env, t, [h]) == Carry(env, t, HunkOps(env, t, [], h))
  {
    hide HunkOps, Execute;
    assert [h][1..] == [];
    match HunkOps(env, t, [], h)
    case Err(_) =>
    case Ok(ops) =>
      assert [] + ops == ops;
      assert Plan(env, t, ops, []) == Ok(ops);
      assert Plan(env, t, [], [h]) == Plan(env, t, ops, []);
  }

  lemma SequentialStep(env: Env, t: Tree, hunks: seq<Hunk>)
    requires hunks != []
    ensures var one := HunkOps(env, t, [], hunks[0]);
            Sequential(env, t, hunks) ==
            if one.Err? then Refused(one.error)
            else var r := Execute(env, t, one.value); if r.Done? then Sequential(env, r.tree, hunks[1..]) else r
  {
    hide HunkOps, Execute, Apply;
    assert hunks[..1] == [hunks[0]];
    ApplyOne(env, t, hunks[0]);
  }

  lemma {:induction false} PlanIsSequential(env: Env, t: Tree, current: Tree, planned: seq<Op>, touched: set<Path>,
                                            removed: set<Path>, made: set<Path>, hunks: seq<Hunk>)
    requires Reached(env, t, current, planned, touched, removed, made) && t.files.Keys !! t.dirs
    requires Independent(env, hunks, touched, removed, made)
    ensures var plan, r := Plan(env, t, planned, hunks), Sequential(env, current, hunks);
            && (plan.Ok? ==> r == Execute(env, t, plan.value))
            && (plan.Err? ==> r == Refused(plan.error) || r.Broken?)
            && (Fits(env, hunks, current.files.Keys, current.dirs) ==> !r.Broken?)
    decreases |hunks|
  {
    hide HunkOps, Execute, Reached, LooksElsewhere, Touched, Written, Removed, Made, HunkFits, Plan, Sequential;
    if hunks == [] {
      PlanEnd(env, t, planned);
      NothingLeft(env, t, current, planned, touched, removed, made);
    } else {
      var h := hunks[0];
      PlanStep(env, t, planned, hunks);
      SequentialStep(env, current, hunks);
      SameOps(env, t, current, planned, touched, removed, made, h);
      if HunkOps(env, current, [], h).Ok? {
        var ops := HunkOps(env, current, [], h).value;
        HunkFitsIff(env, t, current, planned, h);
        if Execute(env, current, ops).Done? {
          var next := Execute(env, current, ops).tree;
          ReachedStep(env, t, current, planned, touched, removed, made, h, next);
          PlanIsSequential(env, t, next, planned + ops, touched + Touched(env, h),
                           removed - Written(env, h) + Removed(env, h), made + Made(env, h), hunks[1..]);
        } else if Plan(env, t, planned, hunks).Ok? {
          assert Execute(env, t, planned) == Done(current) by {
            NothingLeft(env, t, current, planned, touched, removed, made);
          }
          BreaksThere(env, t, current, planned, hunks);
        }
      }
    }
  }

  lemma NothingLeft(env: Env, t: Tree, current: Tree, planned: seq<Op>, touched: set<Path>, removed: set<Path>, made: set<Path>)
    requires Reached(env, t, current, planned, touched, removed, made)
    ensures Execute(env, t, planned) == Done(current) == Sequential(env, current, [])
  {
  }

  /** For hunks that do not look at what earlier ones touched, a patch that is not refused does what applying the
      hunks one at a time does; a patch that is refused leaves no trace, where one at a time an earlier hunk
      might break off first. When each hunk fits, the two agree in every case and nothing breaks off. */
  lemma TwoPhasesAreSequential(env: Env, t: Tree, hunks: seq<Hunk>)
    requires t.files.Keys !! t.dirs && Independent(env, hunks, {}, {}, {})
    ensures !Apply(env, t, hunks).Refused? ==> Apply(env, t, hunks) == Sequential(env, t, hunks)
    ensures Apply(env, t, hunks).Refused? ==>
              Sequential(env, t, hunks) == Apply(env, t, hunks) || Sequential(env, t, hunks).Broken?
    ensures Fits(env, hunks, t.files.Keys, t.dirs) ==>
              Apply(env, t, hunks) == Sequential(env, t, hunks) && !Apply(env, t, hunks).Broken?
  {
    hide Independent, Plan, Sequential, Fits;
    assert Reached(env, t, t, [], {}, {}, {});
    PlanIsSequential(env, t, t, [], {}, {}, {}, hunks);
    NotRefused(env, t, hunks);
  }

  lemma {:induction false} ExecuteRefusesNothing(env: Env, t: Tree, ops: seq<Op>)
    ensures !Execute(env, t, ops).Refused?
    decreases |ops|
  {
    hide Can, After;
    if ops != [] && Can(env, t, ops[0]) { ExecuteRefusesNothing(env, After(env, t, ops[0]), ops[1..]); }
  }

  lemma NotRefused(env: Env, t: Tree, hunks: seq<Hunk>)
    ensures Apply(env, t, hunks).Refused? <==> Plan(env, t, [], hunks).Err?
  {
    hide Plan, Execute;
    if Plan(env, t, [], hunks).Ok? { ExecuteRefusesNothing(env, t, Plan(env, t, [], hunks).value); }
  }

  // ----- What each hunk leaves behind -----

  function AllTouched(env: Env, hunks: seq<Hunk>): set<Path>
  {
    if hunks == [] then {} else Touched(env, hunks[0]) + AllTouched(env, hunks[1..])
  }

  /** The hunks touch pairwise distinct paths, and no file is moved onto itself. */
  predicate Distinct(env: Env, hunks: seq<Hunk>)
  {
    hunks == [] ||
    (var h := hunks[0];
     && Touched(env, h) !! AllTouched(env, hunks[1..]) && Written(env, h) !! Removed(env, h)
     && Distinct(env, hunks[1..]))
  }

  /** The hunk did in `result` what it says, to the file as it was in `files`. */
  ghost predicate Landed(env: Env, files: Files, result: Files, h: Hunk)
  {
    var p := env.resolve(h.path);
    match h
    case Add(_, contents) => p in result && result[p] == contents
    case Delete(_) => p in files && p !in result
    case Update(_, _, chunks) =>
      && p in files && Destination(env, h) in result
      && UpdatedContents(files[p], chunks) == Ok(result[Destination(env, h)])
      && (MoveText(h).Some? ==> p !in result)
  }

  /** The operations of an accepted hunk, in full. */
  lemma OpsSay(env: Env, t: Tree, planned: seq<Op>, h: Hunk)
    requires HunkOps(env, t, planned, h).Ok?
    ensures var ops, p := HunkOps(env, t, planned, h).value, env.resolve(h.path);
            match h
            case Add(_, contents) => ops == [Write(p, contents)]
            case Delete(_) => ops == [Unlink(p)] && p in t.files
            case Update(_, _, chunks) =>
              && p in t.files && UpdatedContents(t.files[p], chunks).Ok?
              && (var write := Write(Destination(env, h), UpdatedContents(t.files[p], chunks).value);
                  ops == if MoveText(h).Some? then [write, Unlink(p)] else [write])
  {
    hide UpdatedContents;
  }

  lemma OneLands(env: Env, t: Tree, current: Tree, planned: seq<Op>, h: Hunk, next: Tree)
    requires HunkOps(env, t, planned, h).Ok? && Execute(env, current, HunkOps(env, t, planned, h).value) == Done(next)
    requires Written(env, h) !! Removed(env, h)
    ensures Landed(env, t.files, next.files, h)
  {
    OpsSay(env, t, planned, h);
    hide Execute, HunkOps, UpdatedContents;
    var ops := HunkOps(env, t, planned, h).value;
    if |ops| == 1 { ExecuteOne(env, current, ops[0]); } else { ExecutePair(env, current, ops[0], ops[1]); }
  }

  lemma LandedStays(env: Env, files: Files, next: Files, result: Files, h: Hunk, later: set<Path>)
    requires Landed(env, files, next, h) && Agree(next, result, later) && Touched(env, h) !! later
    ensures Landed(env, files, result, h)
  {
    hide UpdatedContents;
    assert env.resolve(h.path) in Touched(env, h);
    if h.Update? { assert Destination(env, h) in Touched(env, h); }
  }

  lemma {:induction false} AllLand(env: Env, t: Tree, current: Tree, planned: seq<Op>, hunks: seq<Hunk>)
    requires Distinct(env, hunks) && Execute(env, t, planned) == Done(current) && Plan(env, t, planned, hunks).Ok?
    requires Execute(env, t, Plan(env, t, planned, hunks).value).Done?
    ensures var result := Execute(env, t, Plan(env, t, planned, hunks).value).tree.files;
            Agree(current.files, result, AllTouched(env, hunks)) && forall h :: h in hunks ==> Landed(env, t.files, result, h)
    decreases |hunks|
  {
    hide Plan, Execute, HunkOps, Landed, Touched, Written, Removed, Made, Agree;
    if hunks == [] {
      PlanEnd(env, t, planned);
      AgreeWithItself(current.files);
    } else {
      var h, rest := hunks[0], hunks[1..];
      BreaksThere(env, t, current, planned, hunks);
      ExecuteRefusesNothing(env, current, HunkOps(env, t, planned, h).value);
      var ops := HunkOps(env, t, planned, h).value;
      var next := Execute(env, current, ops).tree;
      HunkEffect(env, t, current, planned, h, next);
      OneLands(env, t, current, planned, h, next);
      AllLand(env, t, next, planned + ops, rest);
      var result := Execute(env, t, Plan(env, t, planned, hunks).value).tree.files;
      LandedStays(env, t.files, next.files, result, h, AllTouched(env, rest));
      AgreeTwice(current.files, next.files, result, Touched(env, h), AllTouched(env, rest));
      assert forall g :: g in hunks ==> g == h || g in rest;
    }
  }

  lemma AgreeWithItself(files: Files)
    ensures Agree(files, files, {})
  {
  }

  /** A patch on pairwise distinct paths is refused, or breaks off at a hunk that does not fit, or leaves exactly
      what its hunks say: every hunk lands on the file as it was before the patch, and no other file changes. */
  lemma DistinctHunksAllLand(env: Env, t: Tree, hunks: seq<Hunk>)
    requires Distinct(env, hunks)
    ensures match Apply(env, t, hunks)
            case Refused(_) => true
            case Broken(_, _) => !Fits(env, hunks, t.files.Keys, t.dirs)
            case Done(result) =>
              Agree(t.files, result.files, AllTouched(env, hunks))
              && forall h :: h in hunks ==> Landed(env, t.files, result.files, h)
  {
    hide Plan, Execute, Fits, Distinct, Landed;
    NotRefused(env, t, hunks);
    if Plan(env, t, [], hunks).Ok? {
      AppliesCompletelyIff(env, t, hunks);
      ExecuteNothing(env, t);
      if Apply(env, t, hunks).Done? { AllLand(env, t, t, [], hunks); }
    }
  }

  lemma ExecuteNothing(env: Env, t: Tree)
    ensures Execute(env, t, []) == Done(t)
  {
  }

  // ----- Where the two phases differ -----

  lemma PlanTwo(env: Env, t: Tree, h: Hunk, g: Hunk, first: seq<Op>)
    requires HunkOps(env, t, [], h) == Ok(first)
    ensures Plan(env, t, [], [h, g]) ==
            match HunkOps(env, t, first, g) case Err(e) => Err(e) case Ok(second) => Ok(first + second)
  {
    hide HunkOps;
    assert [h, g][1..] == [g] && [g][1..] == [] && [] + first == first;
    assert Plan(env, t, [], [h, g]) == Plan(env, t, first, [g]);
    match HunkOps(env, t, first, g)
    case Err(_) =>
    case Ok(second) => assert Plan(env, t, first + second, []) == Ok(first + second);
  }

  /** Two hunks of one operation each. */
  lemma ApplyTwo(env: Env, t: Tree, h: Hunk, g: Hunk, a: Op, b: Op)
    requires HunkOps(env, t, [], h) == Ok([a]) && HunkOps(env, t, [a], g) == Ok([b])
    ensures Apply(env, t, [h, g]) ==
            if !Can(env, t, a) then Broken(t, a)
            else if !Can(env, After(env, t, a), b) then Broken(After(env, t, a), b)
            else Done(After(env, After(env, t, a), b))
  {
    hide HunkOps, Execute, Can, After, Plan;
    PlanTwo(env, t, h, g, [a]);
    assert [a] + [b] == [a, b];
    ExecutePair(env, t, a, b);
  }

  lemma SequentialTwo(env: Env, t: Tree, h: Hunk, g: Hunk, a: Op)
    requires HunkOps(env, t, [], h) == Ok([a]) && Can(env, t, a) && HunkOps(env, After(env, t, a), [], g).Err?
    ensures Sequential(env, t, [h, g]) == Refused(HunkOps(env, After(env, t, a), [], g).error)
  {
    hide HunkOps, Execute, Can, After, Sequential;
    assert [h, g][1..] == [g];
    SequentialStep(env, t, [h, g]);
    ExecuteOne(env, t, a);
    SequentialStep(env, After(env, t, a), [g]);
  }

  /** A patch that deletes a file and adds it again replaces it. */
  lemma DeletedThenAddedIsReplaced(env: Env, t: Tree, path: string, contents: string)
    requires IsTree(env, t) && env.resolve(path) in t.files && !env.linked(env.resolve(path))
    ensures Apply(env, t, [Delete(path), Add(path, contents)]) == Done(Tree(t.files[env.resolve(path) := contents], t.dirs))
  {
    var p := env.resolve(path);
    ApplyTwo(env, t, Delete(path), Add(path, contents), Unlink(p), Write(p, contents));
    assert (t.files - {p})[p := contents] == t.files[p := contents] && t.dirs + env.above(p) == t.dirs;
  }

  /** Two updates of one file are both computed from the file as it was, so only the second is kept. */
  lemma SecondUpdateWins(env: Env, t: Tree, h: Hunk, g: Hunk)
    requires IsTree(env, t) && h.Update? && g.Update? && MoveText(h).None? && MoveText(g).None?
    requires env.resolve(h.path) == env.resolve(g.path) && UpdatedText(env, t, h).Ok? && UpdatedText(env, t, g).Ok?
    ensures Apply(env, t, [h, g]) == Done(Tree(t.files[env.resolve(g.path) := UpdatedText(env, t, g).value], t.dirs))
  {
    hide UpdatedContents;
    var p := env.resolve(h.path);
    var first, second := UpdatedText(env, t, h).value, UpdatedText(env, t, g).value;
    ApplyTwo(env, t, h, g, Write(p, first), Write(p, second));
    FilesCanBeWritten(env, t, p, first);
    assert t.dirs + env.above(p) == t.dirs && t.files[p := first][p := second] == t.files[p := second];
  }

  /** An update of a file deleted earlier in the patch is accepted and brings the file back; one hunk at a
      time, it would be refused. */
  lemma UpdateRevivesDeleted(env: Env, t: Tree, path: string, g: Hunk)
    requires IsTree(env, t) && g.Update? && MoveText(g).None? && env.resolve(g.path) == env.resolve(path)
    requires env.resolve(path) in t.files && UpdatedText(env, t, g).Ok?
    ensures Apply(env, t, [Delete(path), g]) ==
            Done(Tree(t.files[env.resolve(path) := UpdatedText(env, t, g).value], t.dirs))
    ensures Sequential(env, t, [Delete(path), g]) == Refused(NotFound(g.path))
  {
    hide UpdatedContents, Execute, Sequential, Apply;
    var p, text := env.resolve(path), UpdatedText(env, t, g).value;
    ApplyTwo(env, t, Delete(path), g, Unlink(p), Write(p, text));
    SequentialTwo(env, t, Delete(path), g, Unlink(p));
    assert (t.files - {p})[p := text] == t.files[p := text] && t.dirs + env.above(p) == t.dirs;
  }

  /** A file moved onto itself is written, then removed. */
  lemma MoveOntoItselfDeletes(env: Env, t: Tree, h: Hunk)
    requires h.Update? && MoveText(h).Some? && Destination(env, h) == env.resolve(h.path)
    requires Apply(env, t, [h]).Done?
    ensures var p := env.resolve(h.path); p in t.files && Apply(env, t, [h]).tree.files == t.files - {p}
  {
    ApplyOne(env, t, h);
    hide Execute, UpdatedContents, Apply;
    var p, ops := env.resolve(h.path), HunkOps(env, t, [], h).value;
    ExecutePair(env, t, ops[0], ops[1]);
    assert t.files[p := ops[0].contents] - {p} == t.files - {p};
  }

  /** A file deleted twice passes the first phase and breaks the second, which has already removed it; one
      hunk at a time, the second would be refused. */
  lemma DeletingTwiceBreaks(env: Env, t: Tree, path: string)
    requires env.resolve(path) in t.files && !env.linked(env.resolve(path))
    ensures var p := env.resolve(path);
            Apply(env, t, [Delete(path), Delete(path)]) == Broken(Tree(t.files - {p}, t.dirs), Unlink(p))
    ensures Sequential(env, t, [Delete(path), Delete(path)]) == Refused(NotFound(path))
  {
    hide Execute, Apply, Sequential;
    var h, p := Delete(path), env.resolve(path);
    ApplyTwo(env, t, h, h, Unlink(p), Unlink(p));
    SequentialTwo(env, t, h, h, Unlink(p));
  }

  /** Adding a file and another below it passes the first phase, when neither exists, and breaks the second after
      the first of the two is written, in either order. */
  lemma NestedAddsBreak(env: Env, t: Tree, outer: string, inner: string, a: string, b: string)
    requires var p, q := env.resolve(outer), env.resolve(inner);
             && p in env.above(q) && p != q && !env.linked(p) && !env.linked(q) && !Exists(t, p) && !Exists(t, q)
             && CanWrite(env, t.files.Keys, t.dirs, p) && CanWrite(env, t.files.Keys, t.dirs, q)
    ensures var p, q := env.resolve(outer), env.resolve(inner);
            && Apply(env, t, [Add(outer, a), Add(inner, b)]) == Broken(After(env, t, Write(p, a)), Write(q, b))
            && Apply(env, t, [Add(inner, b), Add(outer, a)]) == Broken(After(env, t, Write(q, b)), Write(p, a))
  {
    hide Execute, Apply;
    var p, q := env.resolve(outer), env.resolve(inner);
    ApplyTwo(env, t, Add(outer, a), Add(inner, b), Write(p, a), Write(q, b));
    ApplyTwo(env, t, Add(inner, b), Add(outer, a), Write(q, b), Write(p, a));
  }

  // ----- The tool -----

  const SUCCESS := "Success. Updated the following files:\n"

  function Marker(h: Hunk): char { match h case Add(_, _) => 'A' case Delete(_) => 'D' case Update(_, _, _) => 'M' }

  function ShownPath(h: Hunk): string { if h.Update? && MoveText(h).Some? then MoveText(h).value else h.path }

  /** The preview shown before a patch is allowed: a marker and a path for each hunk, none if it does not parse. */
  function ChangedPaths(text: string): seq<(char, string)>
  {
    match Parse(text) case Err(_) => [] case Ok(hunks) => Pairs(hunks)
  }

  function Pairs(hunks: seq<Hunk>): seq<(char, string)>
  {
    seq(|hunks|, i requires 0 <= i < |hunks| => (Marker(hunks[i]), ShownPath(hunks[i])))
  }

  function PreviewLines(pairs: seq<(char, string)>): seq<string>
  {
    seq(|pairs|, i requires 0 <= i < |pairs| => [pairs[i].0] + " " + pairs[i].1)
  }

  /** How the preview names a hunk: an addition, a deletion, or a change under its new path. */
  lemma PreviewNames(hunks: seq<Hunk>, k: nat)
    requires k < |hunks|
    ensures PreviewLines(Pairs(hunks))[k] ==
            match hunks[k]
            case Add(path, _) => "A " + path
            case Delete(path) => "D " + path
            case Update(path, movePath, _) => "M " + if movePath.Some? && movePath.value != "" then movePath.value else path
  {
  }

  datatype Report = Success(summary: string) | Failed(error: PatchError) | Crashed

  class Workspace {
    const env: Env
    var files: Files
    var dirs: set<Path>

    function Value(): Tree
      reads this
    {
      Tree(files, dirs)
    }

    ghost predicate Valid()
      reads this
    {
      Nested(env) && IsTree(env, Value())
    }

    constructor (env: Env, t: Tree)
      ensures this.env == env && Value() == t
    {
      this.env, files, dirs := env, t.files, t.dirs;
    }

    /** The first phase: nothing is written. */
    method PlanHunks(hunks: seq<Hunk>) returns (plan: Result<seq<Op>>, summary: seq<string>)
      ensures plan == Plan(env, Value(), [], hunks) && (plan.Ok? <==> AllAdmissible(env, Value(), hunks, {}))
      ensures plan.Ok? ==> summary == PreviewLines(Pairs(hunks))
    {
      hide HunkOps, Plan, AllAdmissible;
      PlanIsAcceptedIff(env, Value(), [], hunks, {});
      var operations: seq<Op> := [];
      summary := [];
      assert hunks[0..] == hunks;
      for i := 0 to |hunks|
        invariant Plan(env, Value(), [], hunks) == Plan(env, Value(), operations, hunks[i..])
        invariant summary == PreviewLines(Pairs(hunks))[..i]
      {
        PlanStep(env, Value(), operations, hunks[i..]);
        assert hunks[i..][1..] == hunks[i + 1..];
        var ops := HunkOps(env, Value(), operations, hunks[i]);
        if ops.Err? { return Err(ops.error), summary; }
        operations := operations + ops.value;
        summary := summary + [[Marker(hunks[i])] + " " + ShownPath(hunks[i])];
      }
      PlanEnd(env, Value(), operations);
      assert hunks[|hunks|..] == [];
      plan := Ok(operations);
    }

    /** The second phase: the operations in order, until one cannot be carried out. */
    method CarryOut(operations: seq<Op>) returns (completed: bool)
      modifies this`files, this`dirs
      ensures var r := Execute(env, old(Value()), operations);
              completed == r.Done? && !r.Refused? && Value() == r.tree
    {
      hide Execute;
      assert operations[0..] == operations;
      for i := 0 to |operations|
        invariant Execute(env, old(Value()), operations) == Execute(env, Value(), operations[i..])
      {
        ExecuteStep(env, Value(), operations[i..]);
        assert operations[i..][1..] == operations[i + 1..];
        match operations[i]
        case Write(path, contents) =>
          if path in dirs || !(env.above(path) !! files.Keys) { return false; }
          files, dirs := files[path := contents], dirs + env.above(path);
        case Unlink(path) =>
          if path !in files { return false; }
          files := files - {path};
      }
      assert operations[|operations|..] == [];
      ExecuteNothing(env, Value());
      completed := true;
    }

    /** A patch that does not parse, or has a hunk that is not admissible, leaves everything as it was. The report
        of success lists what the preview lists. */
    method ApplyPatch(text: string) returns (r: Report)
      requires Valid()
      modifies this`files, this`dirs
      ensures Valid()
      ensures Parse(text).Err? ==> r == Failed(Parse(text).error) && Value() == old(Value())
      ensures Parse(text).Ok? ==> (r.Failed? <==> !AllAdmissible(env, old(Value()), Parse(text).value, {}))
      ensures Parse(text).Ok? ==>
                match Apply(env, old(Value()), Parse(text).value)
                case Refused(e) => r == Failed(e) && Value() == old(Value())
                case Done(result) => Value() == result && r == Success(SUCCESS + Join(PreviewLines(ChangedPaths(text)), '\n'))
                case Broken(left, _) => Value() == left && r == Crashed
    {
      hide Parse, Execute, Plan, Join, SUCCESS, IsTree, Nested, AllAdmissible;
      var parsed := ParsePatch(text);
      if parsed.Err? { return Failed(parsed.error); }
      var plan, summary := PlanHunks(parsed.value);
      if plan.Err? { return Failed(plan.error); }
      ExecuteKeepsTree(env, Value(), plan.value);
      var completed := CarryOut(plan.value);
      r := if completed then Success(SUCCESS + Join(summary, '\n')) else Crashed;
    }
  }

  lemma ExecuteStep(env: Env, t: Tree, ops: seq<Op>)
    requires ops != []
    ensures Execute(env, t, ops) ==
            if Can(env, t, ops[0]) then Execute(env, After(env, t, ops[0]), ops[1..]) else Broken(t, ops[0])
  {
    hide Can, After;
  }
}
