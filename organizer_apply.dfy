/** The organizer's filesystem operations on a filesystem that changes in
    place, each proved to do what the run specifications say. */
module OrganizerApply {
  import opened Wrappers
  import opened OrganizerPaths
  import opened OrganizerFs
  import opened OrganizerRuns

  /** The tree under the organizer, with relative paths resolved against the
      process working directory `cwd`. */
  class FileSystem {
    var files: map<Path, Content>
    var dirs: set<Path>
    const cwd: Path

    function State(): Fs
      reads this
    {
      Fs(files, dirs)
    }

    ghost predicate Valid()
      reads this
    {
      OrganizerFs.Valid(State()) && IsDir(State(), cwd)
    }

    constructor (fs: Fs, cwd: Path)
      requires OrganizerFs.Valid(fs) && IsDir(fs, cwd)
      ensures Valid() && State() == fs && this.cwd == cwd
    {
      files := fs.files;
      dirs := fs.dirs;
      this.cwd := cwd;
    }

    /** `Path.exists()` for a path taken relative to the working directory. */
    predicate PathExists(p: PathExpr)
      reads this
    {
      Exists(State(), Resolve(cwd, p))
    }

    /** `next_available_path`: the target if it is free, else the first free
        `stem (i)suffix` beside it. */
    method NextAvailablePath(target: PathExpr) returns (r: PathExpr)
      requires Valid()
      ensures r == NextAvailable(State(), cwd, target)
      ensures !PathExists(r) && Parent(r) == Parent(target)
    {
      if !PathExists(target) {
        return target;
      }
      var i := 1;
      while PathExists(Candidate(target, i))
        invariant i >= 1
        invariant forall j :: 1 <= j < i ==> Exists(State(), Resolve(cwd, Candidate(target, j)))
        decreases |files| + |dirs| + 1 - i
      {
        CandidatesBound(State(), cwd, target, i);
        i := i + 1;
      }
      NextAvailableAt(State(), cwd, target, i);
      r := Candidate(target, i);
    }

    /** `mkdir(parents=True, exist_ok=True)`. */
    method Mkdir(p: Path) returns (err: Option<FsError>)
      requires Valid()
      modifies this
      ensures Valid()
      ensures MkdirP(old(State()), p) == if err.None? then Ok(State()) else Err(err.value)
      ensures err.Some? ==> State() == old(State())
    {
      if exists k :: 0 < k <= |p| && p[..k] in files {
        return Some(NotADirectory(p));
      }
      MkdirValid(State(), p);
      dirs := dirs + Prefixes(p);
      return None;
    }

    /** `shutil.move` of `s` to the free path `d` in an existing directory. */
    method MoveInto(s: Path, d: Path) returns (err: Option<FsError>)
      requires Valid() && d != [] && !Exists(State(), d) && IsDir(State(), d[..|d| - 1])
      modifies this
      ensures Valid()
      ensures MoveFile(old(State()), s, d) == if err.None? then Ok(State()) else Err(err.value)
      ensures err.Some? ==> State() == old(State())
    {
      if s !in files {
        return Some(DirectorySource(s));
      }
      MoveFileValid(State(), s, d);
      files := (files - {s})[d := files[s]];
      return None;
    }

    /** The body of the loops of `apply_moves` and `undo_from_log`: move
        `from` to a free path next to `to`. */
    method Step(from: PathExpr, to: PathExpr) returns (st: Step)
      requires Valid()
      modifies this
      ensures Valid() && (State(), st) == MoveStep(old(State()), cwd, from, to)
    {
      var s := Resolve(cwd, from);
      if !PathExists(from) {
        return Skipped;
      }
      var fin := NextAvailablePath(to);
      var d := Resolve(cwd, fin);
      ghost var fs0 := State();
      var err := Mkdir(Resolve(cwd, Parent(fin)));
      if err.Some? {
        return Failed(err.value);
      }
      PlaceFacts(fs0, cwd, fin, State());
      err := MoveInto(s, d);
      if err.Some? {
        return Failed(err.value);
      }
      return Moved(Move(Format(from), Format(fin)));
    }

    /** `ensure_dirs`: each destination directory once, remembered in
        `created`. */
    method EnsureDirs(ps: seq<PathMove>) returns (err: Option<FsError>)
      requires Valid()
      modifies this
      ensures Valid()
      ensures EnsureDirsRun(old(State()), cwd, ps) == Run(State(), if err.None? then Ok([]) else Err(err.value))
    {
      var created: set<PathExpr> := {};
      var i := 0;
      while i < |ps|
        invariant 0 <= i <= |ps| && Valid()
        invariant EnsureDirsRun(old(State()), cwd, ps[..i]) == Run(State(), Ok([]))
        invariant forall q :: q in created ==> IsDir(State(), Resolve(cwd, q))
      {
        var q := Parent(ps[i].to);
        EnsureDirsAdvance(old(State()), cwd, ps, i);
        if q !in created {
          ghost var before := State();
          err := Mkdir(Resolve(cwd, q));
          if err.Some? {
            EnsureDirsStop(old(State()), cwd, ps, i + 1);
            return;
          }
          assert before.dirs <= dirs;
          created := created + {q};
        } else {
          MkdirExisting(State(), Resolve(cwd, q));
        }
        i := i + 1;
      }
      assert ps[..i] == ps;
      return None;
    }

    /** `apply_moves`: the directories, then each planned move in order; the
        record holds each original source with its final destination. */
    method ApplyMoves(ms: seq<Move>) returns (out: Result<seq<Move>, FsError>)
      requires Valid()
      modifies this
      ensures Valid() && Run(State(), out) == ApplyMovesSpec(old(State()), cwd, ms)
    {
      var ps := ParseMoves(ms);
      var err := EnsureDirs(ps);
      if err.Some? {
        return Err(err.value);
      }
      out := MoveAll(ps);
    }

    /** The move loop of `apply_moves`: each planned move in order, stopping at
        the first failure; `out` holds the moves made. */
    method MoveAll(ps: seq<PathMove>) returns (out: Result<seq<Move>, FsError>)
      requires Valid()
      modifies this
      ensures Valid() && Run(State(), out) == ApplySteps(old(State()), cwd, ps)
    {
      var executed := [];
      var i := 0;
      while i < |ps|
        invariant 0 <= i <= |ps| && Valid()
        invariant ApplySteps(old(State()), cwd, ps[..i]) == Run(State(), Ok(executed))
      {
        ghost var cur := State();
        var st := Step(ps[i].from, ps[i].to);
        ApplyStepsAdvance(old(State()), cwd, ps, i);
        ApplyStepOk(Run(cur, Ok(executed)), cwd, ps[i], State(), st);
        if st.Failed? {
          ApplyStepsStop(old(State()), cwd, ps, i + 1);
          return Err(st.error);
        }
        if st.Moved? {
          executed := executed + [st.record];
        }
        i := i + 1;
      }
      assert ps[..i] == ps;
      return Ok(executed);
    }

    /** `undo_from_log` on the entries of a log: each entry from the last,
        moving its destination back to a free path at its source. */
    method UndoFromLog(es: seq<Move>) returns (out: Result<seq<Move>, FsError>)
      requires Valid()
      modifies this
      ensures Valid() && Run(State(), out) == UndoSpec(old(State()), cwd, es)
    {
      out := MoveBackAll(ParseMoves(es));
    }

    /** The loop of `undo_from_log`: from the last entry to the first, move
        the logged destination back to a free path at the logged source. */
    method MoveBackAll(ps: seq<PathMove>) returns (out: Result<seq<Move>, FsError>)
      requires Valid()
      modifies this
      ensures Valid() && Run(State(), out) == UndoSteps(old(State()), cwd, ps, [])
    {
      var executed := [];
      var i := |ps|;
      assert ps[..i] == ps;
      while i > 0
        invariant 0 <= i <= |ps| && Valid()
        invariant UndoSteps(old(State()), cwd, ps, []) == UndoSteps(State(), cwd, ps[..i], executed)
      {
        ghost var cur := State();
        var st := Step(ps[i - 1].to, ps[i - 1].from);
        UndoStepsAdvance(cur, cwd, ps, i, executed);
        if st.Failed? {
          return Err(st.error);
        }
        if st.Moved? {
          executed := executed + [st.record];
        }
        i := i - 1;
      }
      return Ok(executed);
    }

    /** `write_log`: the executed moves as the content of `log`. */
    method WriteLog(executed: seq<Move>, log: Path) returns (err: Option<FsError>)
      requires Valid() && log != []
      modifies this
      ensures Valid()
      ensures WriteFile(old(State()), log, MoveLog(executed)) == if err.None? then Ok(State()) else Err(err.value)
      ensures err.Some? ==> State() == old(State())
    {
      if log in dirs {
        return Some(IsADirectory(log));
      }
      if !IsDir(State(), log[..|log| - 1]) {
        return Some(NotFound(log[..|log| - 1]));
      }
      WriteFileValid(State(), log, MoveLog(executed));
      files := files[log := MoveLog(executed)];
      return None;
    }

    /** Reading the entries of an existing log file. */
    method LoadLog(log: Path) returns (r: Result<seq<Move>, FsError>)
      requires Exists(State(), log)
      ensures r == ReadLog(State(), log)
    {
      if log !in files {
        return Err(IsADirectory(log));
      }
      var content := files[log];
      if content.Blob? {
        return Err(NotALog(log));
      }
      return Ok(content.entries);
    }
  }
}
