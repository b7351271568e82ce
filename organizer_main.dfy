/** `main` of the workspace organizer: the flags, the exit codes and the order
    of the steps, on the model filesystem. */
module OrganizerMain {
  import opened Wrappers
  import opened Text
  import opened OrganizerPaths
  import opened OrganizerClassify
  import opened OrganizerFs
  import opened OrganizerRuns
  import opened OrganizerPlan
  import opened OrganizerApply

  /** The parsed command line. `root` is the `--root` text (its default is the
      text of the working directory); `undo` is the `--undo` text when given. */
  datatype Args = Args(
    root: string, apply: bool, undo: Option<string>,
    includeDocs: bool, includeDemos: bool, onlyTests: bool)

  /** The process ends with an exit code, or with an uncaught exception. */
  datatype Outcome = Exit(code: int) | Crash(error: FsError)

  /** `Path(args.root).resolve()`: against the working directory, with every
      `..` taken away. */
  function RootOf(cwd: Path, args: Args): (r: Path)
    ensures forall k :: 0 <= k < |r| ==> r[k] != ".." && r[k] in Resolve(cwd, Parse(args.root))
  {
    Normalize(Resolve(cwd, Parse(args.root)))
  }

  /** `if args.undo:` — given and not empty. */
  predicate UndoRequested(args: Args) {
    args.undo.Some? && args.undo.value != ""
  }

  /** The file `Path(args.undo)` names: relative to the working directory,
      each `..` going up one directory as the operating system takes it. */
  function UndoLog(cwd: Path, args: Args): (r: Path)
    requires UndoRequested(args)
    ensures forall k :: 0 <= k < |r| ==> r[k] != ".." && r[k] in Resolve(cwd, Parse(args.undo.value))
  {
    Normalize(Resolve(cwd, Parse(args.undo.value)))
  }

  /** A root spelled without `..` is only resolved against the working
      directory. */
  lemma RootOfPlain(cwd: Path, args: Args)
    requires forall k :: 0 <= k < |cwd| ==> cwd[k] != ".."
    requires forall k :: 0 <= k < |Parse(args.root).parts| ==> Parse(args.root).parts[k] != ".."
    ensures RootOf(cwd, args) == Resolve(cwd, Parse(args.root))
  {
    NormalizePlain(Resolve(cwd, Parse(args.root)));
  }

  /** `--root ..` names the directory above the working directory. */
  lemma RootOfUp(cwd: Path, args: Args)
    requires forall k :: 0 <= k < |cwd| ==> cwd[k] != ".."
    requires args.root == ".." && cwd != []
    ensures RootOf(cwd, args) == cwd[..|cwd| - 1]
  {
    assert '/' !in args.root;
    assert Split(args.root, '/') == [".."];
    assert Components([".."]) == [".."] + Components([]);
    var q := cwd + [".."];
    assert Resolve(cwd, Parse(args.root)) == q;
    assert q[..|q| - 1] == cwd;
    NormalizePlain(cwd);
  }

  /** `include_docs`: documentation moves stay unless only tests are asked for. */
  predicate IncludeDocs(args: Args) {
    args.includeDocs || !args.onlyTests
  }

  predicate IsDocCategory(c: Category) {
    c.DocReports? || c.DocGuides? || c.DocMisc?
  }

  /** `Path(m.dst).as_posix().startswith("docs/")`. */
  predicate IsDocsMove(m: Move) {
    StartsWith(Format(Parse(m.dst)), "docs/")
  }

  /** The list comprehension that drops documentation moves, keeping order. */
  function DropDocs(ms: seq<Move>): (r: seq<Move>)
    ensures |r| <= |ms|
    ensures forall m :: m in r <==> m in ms && !IsDocsMove(m)
  {
    if ms == [] then []
    else
      var init := DropDocs(ms[..|ms| - 1]);
      var m := ms[|ms| - 1];
      assert ms == ms[..|ms| - 1] + [m];
      if IsDocsMove(m) then init else init + [m]
  }

  /** `plan_moves(root)`, filtered as the flags say. `tree` is the listing
      `os.walk` sees below the root; a root that is not a directory yields no
      walk step. */
  function Planned(fs: Fs, cwd: Path, args: Args, tree: seq<Entry>): seq<Move> {
    var root := RootOf(cwd, args);
    var walked := if IsDir(fs, root) then Walk(root, tree) else [];
    if IncludeDocs(args) then walked else DropDocs(walked)
  }

  /** `root / f"organize_moves_{ts}.json"`, `ts` being the formatted clock. */
  function LogPath(root: Path, ts: string): (p: Path)
    ensures p != [] && p[..|p| - 1] == root
  {
    root + ["organize_moves_" + ts + ".json"]
  }

  /** `main`: the filesystem afterwards and how the process ends. */
  function OrganizeSpec(fs: Fs, cwd: Path, args: Args, tree: seq<Entry>, ts: string): (r: (Fs, Outcome))
    requires Valid(fs) && IsDir(fs, cwd)
    ensures Valid(r.0) && IsDir(r.0, cwd)
  {
    var root := RootOf(cwd, args);
    if !Exists(fs, root) then (fs, Exit(2))
    else if UndoRequested(args) then UndoRun(fs, cwd, UndoLog(cwd, args))
    else ApplyRun(fs, cwd, root, Planned(fs, cwd, args, tree), args.apply, ts)
  }

  /** The `--undo` branch of `main` with the log at `log`. */
  function UndoRun(fs: Fs, cwd: Path, log: Path): (r: (Fs, Outcome))
    requires Valid(fs) && IsDir(fs, cwd)
    ensures Valid(r.0) && IsDir(r.0, cwd)
  {
    if !Exists(fs, log) then (fs, Exit(2))
    else
      match ReadLog(fs, log)
      case Err(e) => (fs, Crash(e))
      case Ok(es) =>
        var u := UndoSpec(fs, cwd, es);
        (u.fs, if u.out.Ok? then Exit(0) else Crash(u.out.error))
  }

  /** The planning branch of `main`: nothing more without `--apply` or
      without moves, else the moves and then the log under the root. */
  function ApplyRun(fs: Fs, cwd: Path, root: Path, planned: seq<Move>, apply: bool, ts: string): (r: (Fs, Outcome))
    requires Valid(fs) && IsDir(fs, cwd)
    ensures Valid(r.0) && IsDir(r.0, cwd)
  {
    if planned == [] || !apply then (fs, Exit(0))
    else
      var a := ApplyMovesSpec(fs, cwd, planned);
      if a.out.Err? then (a.fs, Crash(a.out.error))
      else
        match WriteFile(a.fs, LogPath(root, ts), MoveLog(a.out.value))
        case Err(e) => (a.fs, Crash(e))
        case Ok(fs2) =>
          WriteFileValid(a.fs, LogPath(root, ts), MoveLog(a.out.value));
          (fs2, Exit(0))
  }

  /** `main` on the filesystem in place. The printed plan and summary are not
      modelled. */
  method Organize(fsys: FileSystem, args: Args, tree: seq<Entry>, ts: string) returns (outcome: Outcome)
    requires fsys.Valid()
    modifies fsys
    ensures fsys.Valid()
    ensures (fsys.State(), outcome) == OrganizeSpec(old(fsys.State()), fsys.cwd, args, tree, ts)
  {
    var root := RootOf(fsys.cwd, args);
    if !Exists(fsys.State(), root) {
      return Exit(2);
    }
    if args.undo.Some? && args.undo.value != "" {
      outcome := RunUndo(fsys, UndoLog(fsys.cwd, args));
      return;
    }
    var planned := [];
    if IsDir(fsys.State(), root) {
      planned := PlanDir(root, tree);
    }
    if !(args.includeDocs || !args.onlyTests) {
      planned := DropDocs(planned);
    }
    outcome := RunApply(fsys, root, planned, args.apply, ts);
  }

  /** The `--undo` branch of `main`. */
  method RunUndo(fsys: FileSystem, log: Path) returns (outcome: Outcome)
    requires fsys.Valid()
    modifies fsys
    ensures fsys.Valid()
    ensures (fsys.State(), outcome) == UndoRun(old(fsys.State()), fsys.cwd, log)
  {
    if !Exists(fsys.State(), log) {
      return Exit(2);
    }
    var entries := fsys.LoadLog(log);
    if entries.Err? {
      return Crash(entries.error);
    }
    var executed := fsys.UndoFromLog(entries.value);
    if executed.Err? {
      return Crash(executed.error);
    }
    return Exit(0);
  }

  /** The planning branch of `main` once the moves are planned. */
  method RunApply(fsys: FileSystem, root: Path, planned: seq<Move>, apply: bool, ts: string) returns (outcome: Outcome)
    requires fsys.Valid()
    modifies fsys
    ensures fsys.Valid()
    ensures (fsys.State(), outcome) == ApplyRun(old(fsys.State()), fsys.cwd, root, planned, apply, ts)
  {
    if planned == [] || !apply {
      return Exit(0);
    }
    var executed := fsys.ApplyMoves(planned);
    if executed.Err? {
      return Crash(executed.error);
    }
    var err := fsys.WriteLog(executed.value, LogPath(root, ts));
    if err.Some? {
      return Crash(err.value);
    }
    return Exit(0);
  }

  /** Exit code 2 means exactly: the root does not exist, or an undo was asked
      for with a log that does not exist. Every other exit is 0. */
  lemma ExitCodes(fs: Fs, cwd: Path, args: Args, tree: seq<Entry>, ts: string)
    requires Valid(fs) && IsDir(fs, cwd)
    ensures var out := OrganizeSpec(fs, cwd, args, tree, ts).1;
      (out == Exit(2) <==>
         !Exists(fs, RootOf(cwd, args)) || (UndoRequested(args) && !Exists(fs, UndoLog(cwd, args))))
      && (out.Exit? ==> out.code == 0 || out.code == 2)
  {
  }

  /** Without `--apply` and without `--undo` nothing on disk changes and the
      process does not fail. */
  lemma DryRunChangesNothing(fs: Fs, cwd: Path, args: Args, tree: seq<Entry>, ts: string)
    requires Valid(fs) && IsDir(fs, cwd)
    requires !args.apply && !UndoRequested(args)
    ensures OrganizeSpec(fs, cwd, args, tree, ts).0 == fs
    ensures OrganizeSpec(fs, cwd, args, tree, ts).1.Exit?
  {
  }

  /** `--include-demos` changes nothing. */
  lemma IncludeDemosIgnored(fs: Fs, cwd: Path, args: Args, tree: seq<Entry>, ts: string)
    requires Valid(fs) && IsDir(fs, cwd)
    ensures OrganizeSpec(fs, cwd, args, tree, ts)
      == OrganizeSpec(fs, cwd, args.(includeDemos := !args.includeDemos), tree, ts)
  {
    var other := args.(includeDemos := !args.includeDemos);
    assert RootOf(cwd, other) == RootOf(cwd, args);
    assert UndoRequested(other) == UndoRequested(args);
    assert Planned(fs, cwd, other, tree) == Planned(fs, cwd, args, tree);
  }

  /** Undoing from a log written after a successful `apply_moves`: the run
      ends with exit 0, every file of the tree before the apply is back with
      its content, and the log stays, provided no move made started or ended
      at the log's path. */
  lemma LogThenUndo(fs: Fs, cwd: Path, ms: seq<Move>, log: Path)
    requires Valid(fs) && IsDir(fs, cwd) && log != []
    requires var a := ApplyMovesSpec(fs, cwd, ms);
      a.out.Ok? && WriteFile(a.fs, log, MoveLog(a.out.value)).Ok?
      && forall m :: m in a.out.value ==>
           Resolve(cwd, Parse(m.src)) != log && Resolve(cwd, Parse(m.dst)) != log
    ensures var a := ApplyMovesSpec(fs, cwd, ms);
      var fs2 := WriteFile(a.fs, log, MoveLog(a.out.value)).value;
      Valid(fs2) && IsDir(fs2, cwd)
      && UndoRun(fs2, cwd, log).1 == Exit(0)
      && UndoRun(fs2, cwd, log).0.files == fs.files[log := MoveLog(a.out.value)]
  {
    var a := ApplyMovesSpec(fs, cwd, ms);
    var es := a.out.value;
    WriteFileValid(a.fs, log, MoveLog(es));
    var fs2 := WriteFile(a.fs, log, MoveLog(es)).value;
    assert fs2 == WithFile(a.fs, log, MoveLog(es));
    ApplyThenUndo(fs, cwd, ms);
    var ps := ParseMoves(es);
    var u := UndoSteps(a.fs, cwd, ps, []);
    assert u == UndoSpec(a.fs, cwd, es);
    assert u.out == Ok(Inverted(es)) && log !in u.fs.dirs;
    ParseMovesWellFormed(es);
    LogAvoided(cwd, es, log);
    UndoStepsWith(a.fs, cwd, ps, [], log, MoveLog(es));
    assert ReadLog(fs2, log) == Ok(es);
    assert UndoRun(fs2, cwd, log) == (WithFile(u.fs, log, MoveLog(es)), Exit(0));
  }

  /** A log none of whose moves starts or ends at `log`: neither do its
      entries read back, nor its inverted moves. */
  lemma LogAvoided(cwd: Path, es: seq<Move>, log: Path)
    requires forall m :: m in es ==> Resolve(cwd, Parse(m.src)) != log && Resolve(cwd, Parse(m.dst)) != log
    ensures forall j :: 0 <= j < |ParseMoves(es)| ==> Resolve(cwd, ParseMoves(es)[j].to) != log
    ensures forall m :: m in Inverted(es) ==> Resolve(cwd, Parse(m.dst)) != log
  {
    var ps := ParseMoves(es);
    forall j | 0 <= j < |ps| ensures Resolve(cwd, ps[j].to) != log {
      ParseMovesAt(es, j);
      assert es[j] in es;
    }
    var inv := Inverted(es);
    forall m | m in inv ensures Resolve(cwd, Parse(m.dst)) != log {
      var k :| 0 <= k < |inv| && inv[k] == m;
      assert m.dst == es[|es| - 1 - k].src;
      assert es[|es| - 1 - k] in es;
    }
  }

  /** A successful `--apply` run with something to move leaves a log that holds
      exactly the moves made, and undoing those moves from the state the apply
      left behind gives every file back its original place. Running `--undo`
      with that log on that state ends with exit 0 and gives back every file
      of the original tree, the log staying where it was written, provided no
      move made started or ended at the log's path. */
  lemma ApplyLogUndoes(fs: Fs, cwd: Path, args: Args, tree: seq<Entry>, ts: string)
    requires Valid(fs) && IsDir(fs, cwd)
    requires args.apply && !UndoRequested(args) && Planned(fs, cwd, args, tree) != []
    requires OrganizeSpec(fs, cwd, args, tree, ts).1 == Exit(0)
    requires var a := ApplyMovesSpec(fs, cwd, Planned(fs, cwd, args, tree));
      var log := LogPath(RootOf(cwd, args), ts);
      a.out.Ok? ==> forall m :: m in a.out.value ==>
        Resolve(cwd, Parse(m.src)) != log && Resolve(cwd, Parse(m.dst)) != log
    ensures var a := ApplyMovesSpec(fs, cwd, Planned(fs, cwd, args, tree));
      var fs2 := OrganizeSpec(fs, cwd, args, tree, ts).0;
      var log := LogPath(RootOf(cwd, args), ts);
      a.out.Ok? && log in fs2.files && ReadLog(fs2, log) == Ok(a.out.value)
      && (forall p :: p != log ==> (p in fs2.files <==> p in a.fs.files))
      && UndoSpec(a.fs, cwd, a.out.value).fs.files == fs.files
      && UndoRun(fs2, cwd, log).1 == Exit(0)
      && UndoRun(fs2, cwd, log).0.files == fs.files[log := MoveLog(a.out.value)]
  {
    var planned := Planned(fs, cwd, args, tree);
    var root := RootOf(cwd, args);
    var a := ApplyMovesSpec(fs, cwd, planned);
    var log := LogPath(root, ts);
    assert OrganizeSpec(fs, cwd, args, tree, ts) == ApplyRun(fs, cwd, root, planned, true, ts);
    assert a.out.Ok?;
    var w := WriteFile(a.fs, log, MoveLog(a.out.value));
    assert w.Ok?;
    assert OrganizeSpec(fs, cwd, args, tree, ts).0 == w.value;
    ApplyThenUndo(fs, cwd, planned);
    LogThenUndo(fs, cwd, planned, log);
  }

  /** `Array.join`/`"/".join` of two or more pieces begins with the first piece
      and the separator. */
  lemma JoinHead(parts: seq<string>, sep: char)
    requires |parts| >= 2
    ensures Join(parts, sep) == parts[0] + [sep] + Join(parts[1..], sep)
  {
  }

  /** A category's directory joined with a name is printed under `docs/`
      exactly for the documentation categories. */
  lemma DocsDest(c: Category, n: string)
    ensures StartsWith(Format(Child(DestDir(c), n)), "docs/") <==> IsDocCategory(c)
  {
    var parts := DestDir(c).parts + [n];
    assert Child(DestDir(c), n) == PathExpr(false, parts);
    assert parts[0] == DestDir(c).parts[0];
    JoinHead(parts, '/');
    var f := Format(PathExpr(false, parts));
    assert f == parts[0] + ['/'] + Join(parts[1..], '/');
    if IsDocCategory(c) {
      assert f[..5] == "docs/";
    } else {
      assert f[0] == 't';
    }
  }

  /** A planned move goes to `docs/` exactly when its file is classified as
      documentation. */
  lemma DocsMoveIff(m: Move)
    requires Placed(Parse(m.src), Parse(m.dst))
    ensures IsDocsMove(m) <==> IsDocCategory(Classify(Name(Parse(m.src)), true).value.0)
  {
    var n := Name(Parse(m.src));
    var c := Classify(n, true).value.0;
    assert Parse(m.dst) == Child(DestDir(c), n);
    DocsDest(c, n);
  }

  /** With `--only-tests` and without `--include-docs`, a move of the walk is
      kept exactly when its file is not documentation. */
  lemma OnlyTestsDropsDocs(root: Path, tree: seq<Entry>, m: Move)
    requires WellFormed(PathExpr(true, root)) && WellNamed(tree)
    requires m in Walk(root, tree)
    ensures var c := CategoryOf(Name(Parse(m.src)), true);
      c.Some? && (m in DropDocs(Walk(root, tree)) <==> !IsDocCategory(c.value))
  {
    WalkMember(root, tree, m);
    DocsMoveIff(m);
  }

  /** Every move of the walk, taken by value, satisfies `PlannedFrom`. */
  lemma WalkMember(root: Path, tree: seq<Entry>, m: Move)
    requires WellFormed(PathExpr(true, root)) && WellNamed(tree)
    requires m in Walk(root, tree)
    ensures PlannedFrom(root, m)
  {
    var w := Walk(root, tree);
    WalkSound(root, tree);
    var k :| 0 <= k < |w| && w[k] == m;
  }
}
