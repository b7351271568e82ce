/** Specification of `ensure_dirs`, `apply_moves` and `undo_from_log` as runs
    over the filesystem model, and the round trip the organizer promises:
    undoing the log of an apply puts every file back. */
module OrganizerRuns {
  import opened Wrappers
  import opened Text
  import opened OrganizerPaths
  import opened OrganizerFs

  /** A move with both sides parsed, `(Path(src), Path(dst))`. */
  datatype PathMove = PathMove(from: PathExpr, to: PathExpr)

  function ParseMoves(ms: seq<Move>): (r: seq<PathMove>)
    ensures |r| == |ms|
    decreases |ms|
  {
    if ms == [] then []
    else ParseMoves(ms[..|ms| - 1]) + [PathMove(Parse(ms[|ms| - 1].src), Parse(ms[|ms| - 1].dst))]
  }

  /** Every parsed move is made of well-formed paths. */
  predicate AllWellFormed(ps: seq<PathMove>) {
    forall j :: 0 <= j < |ps| ==> WellFormed(ps[j].from) && WellFormed(ps[j].to)
  }

  lemma {:induction false} ParseMovesWellFormed(ms: seq<Move>)
    ensures AllWellFormed(ParseMoves(ms))
    decreases |ms|
  {
    if ms != [] {
      ParseMovesWellFormed(ms[..|ms| - 1]);
      ParseWellFormed(ms[|ms| - 1].src);
      ParseWellFormed(ms[|ms| - 1].dst);
    }
  }

  lemma ParseMovesSnoc(ms: seq<Move>, m: Move)
    ensures ParseMoves(ms + [m]) == ParseMoves(ms) + [PathMove(Parse(m.src), Parse(m.dst))]
  {
    assert (ms + [m])[..|ms|] == ms;
  }

  /** Every destination directory of `ps` is a directory of `fs`. */
  ghost predicate ParentsExist(fs: Fs, cwd: Path, ps: seq<PathMove>) {
    forall j :: 0 <= j < |ps| ==> IsDir(fs, Resolve(cwd, Parent(ps[j].to)))
  }

  /** `ensure_dirs`: `mkdir -p` of every move's destination directory, in
      order, ending at the first failure. */
  function EnsureDirsRun(fs: Fs, cwd: Path, ps: seq<PathMove>): (r: Run)
    requires Valid(fs) && IsDir(fs, cwd)
    ensures Valid(r.fs) && IsDir(r.fs, cwd) && r.fs.files == fs.files && fs.dirs <= r.fs.dirs
    ensures r.out.Ok? ==> r.out.value == [] && ParentsExist(r.fs, cwd, ps)
    decreases |ps|
  {
    if ps == [] then Run(fs, Ok([]))
    else
      var init := ps[..|ps| - 1];
      var r := EnsureDirsRun(fs, cwd, init);
      var n := EnsureStep(r, cwd, ps[|ps| - 1]);
      if n.out.Ok? then ParentsExtend(r.fs, n.fs, cwd, ps); n else n
  }

  /** Directories once made stay; one more destination directory extends
      `ParentsExist` to one more move. */
  lemma ParentsExtend(fs: Fs, fs1: Fs, cwd: Path, ps: seq<PathMove>)
    requires ps != [] && fs.dirs <= fs1.dirs
    requires ParentsExist(fs, cwd, ps[..|ps| - 1])
    requires IsDir(fs1, Resolve(cwd, Parent(ps[|ps| - 1].to)))
    ensures ParentsExist(fs1, cwd, ps)
  {
    forall j | 0 <= j < |ps|
      ensures IsDir(fs1, Resolve(cwd, Parent(ps[j].to)))
    {
      if j < |ps| - 1 {
        assert ps[..|ps| - 1][j] == ps[j];
      }
    }
  }

  /** One iteration of `ensure_dirs`: `mkdir -p` of the move's destination
      directory, unless an earlier one failed. */
  function EnsureStep(r: Run, cwd: Path, p: PathMove): (n: Run)
    requires Valid(r.fs) && IsDir(r.fs, cwd)
    ensures Valid(n.fs) && IsDir(n.fs, cwd) && n.fs.files == r.fs.files && r.fs.dirs <= n.fs.dirs
    ensures n.out.Ok? ==> r.out.Ok? && n.out.value == [] && IsDir(n.fs, Resolve(cwd, Parent(p.to)))
  {
    if r.out.Err? then r
    else
      var m := MkdirP(r.fs, Resolve(cwd, Parent(p.to)));
      if m.Err? then Run(r.fs, Err(m.error))
      else
        MkdirValid(r.fs, Resolve(cwd, Parent(p.to)));
        Run(m.value, Ok([]))
  }

  /** The move loop of `apply_moves`, over the plan in order. */
  function ApplySteps(fs: Fs, cwd: Path, ps: seq<PathMove>): (r: Run)
    requires Valid(fs) && IsDir(fs, cwd)
    ensures Valid(r.fs) && IsDir(r.fs, cwd)
    decreases |ps|
  {
    if ps == [] then Run(fs, Ok([]))
    else ApplyStep(ApplySteps(fs, cwd, ps[..|ps| - 1]), cwd, ps[|ps| - 1])
  }

  /** One iteration of the move loop, unless an earlier one failed. */
  function ApplyStep(r: Run, cwd: Path, p: PathMove): (n: Run)
    requires Valid(r.fs) && IsDir(r.fs, cwd)
    ensures Valid(n.fs) && IsDir(n.fs, cwd)
  {
    if r.out.Err? then r
    else
      var st := MoveStep(r.fs, cwd, p.from, p.to);
      Run(st.0, Record(r.out.value, st.1))
  }

  /** The log after one iteration: a completed move is appended, a failure
      ends the run. */
  function Record(done: seq<Move>, st: Step): Result<seq<Move>, FsError> {
    match st
    case Skipped => Ok(done)
    case Moved(m) => Ok(done + [m])
    case Failed(e) => Err(e)
  }

  /** `apply_moves`: the directories first, then the moves. */
  function ApplyMovesSpec(fs: Fs, cwd: Path, ms: seq<Move>): (r: Run)
    requires Valid(fs) && IsDir(fs, cwd)
    ensures Valid(r.fs) && IsDir(r.fs, cwd)
  {
    var ps := ParseMoves(ms);
    var e := EnsureDirsRun(fs, cwd, ps);
    if e.out.Err? then e else ApplySteps(e.fs, cwd, ps)
  }

  /** The loop of `undo_from_log` over `reversed(entries)`: the last entry is
      handled first, moving `Path(dst)` back to `Path(src)`; `acc` holds the
      moves made so far. */
  function UndoSteps(fs: Fs, cwd: Path, ps: seq<PathMove>, acc: seq<Move>): (r: Run)
    requires Valid(fs) && IsDir(fs, cwd)
    ensures Valid(r.fs) && IsDir(r.fs, cwd)
    decreases |ps|, 1
  {
    if ps == [] then Run(fs, Ok(acc))
    else
      var p := ps[|ps| - 1];
      UndoNext(MoveStep(fs, cwd, p.to, p.from), cwd, ps[..|ps| - 1], acc)
  }

  /** The rest of the undo loop after one iteration with outcome `st`: a
      skipped entry adds nothing, a completed move is logged, a failure ends
      the loop. */
  function UndoNext(st: (Fs, Step), cwd: Path, rest: seq<PathMove>, acc: seq<Move>): (r: Run)
    requires Valid(st.0) && IsDir(st.0, cwd)
    ensures Valid(r.fs) && IsDir(r.fs, cwd)
    decreases |rest|, 2
  {
    match st.1
    case Skipped => UndoSteps(st.0, cwd, rest, acc)
    case Moved(m) => UndoSteps(st.0, cwd, rest, acc + [m])
    case Failed(e) => Run(st.0, Err(e))
  }

  /** `undo_from_log` on the entries of a log. */
  function UndoSpec(fs: Fs, cwd: Path, es: seq<Move>): (r: Run)
    requires Valid(fs) && IsDir(fs, cwd)
    ensures Valid(r.fs) && IsDir(r.fs, cwd)
  {
    UndoSteps(fs, cwd, ParseMoves(es), [])
  }

  /** A log read backwards with source and destination exchanged. */
  function Inverted(es: seq<Move>): (r: seq<Move>)
    ensures |r| == |es|
    ensures forall k :: 0 <= k < |es| ==> r[k] == Move(es[|es| - 1 - k].dst, es[|es| - 1 - k].src)
    decreases |es|
  {
    if es == [] then []
    else [Move(es[|es| - 1].dst, es[|es| - 1].src)] + Inverted(es[..|es| - 1])
  }

  /** Inverting a log that grew by one move puts that move's inverse first. */
  lemma InvertedSnoc(acc: seq<Move>, es: seq<Move>, m: Move)
    ensures acc + [Move(m.dst, m.src)] + Inverted(es) == acc + Inverted(es + [m])
  {
    assert (es + [m])[..|es|] == es;
  }

  /** Component names built by the collision search are components again. */
  lemma NextAvailableWellFormed(fs: Fs, cwd: Path, to: PathExpr)
    requires WellFormed(to)
    ensures WellFormed(NextAvailable(fs, cwd, to))
  {
    var k := NextIndex(fs, cwd, to);
    if k > 0 {
      CandidateWellFormed(to, k);
    }
  }

  /** A numbered sibling of a well-formed path is well formed. */
  lemma CandidateWellFormed(to: PathExpr, k: nat)
    requires WellFormed(to)
    ensures WellFormed(Candidate(to, k))
  {
    var n := Name(to);
    assert '/' !in n by {
      if to.parts != [] {
        assert IsComponent(to.parts[|to.parts| - 1]);
      }
    }
    CandidateNameComponent(n, k);
    var p := Parent(to);
    assert WellFormed(p) by {
      if to.parts != [] {
        assert forall j :: 0 <= j < |p.parts| ==> p.parts[j] == to.parts[j];
      }
    }
    assert Candidate(to, k).parts == p.parts + [CandidateName(n, k)];
  }

  /** A numbered candidate for a name without a slash is a component. */
  lemma CandidateNameComponent(n: string, k: nat)
    requires '/' !in n
    ensures IsComponent(CandidateName(n, k))
  {
    StemSuffix(n);
    var st, su, d := Stem(n), Suffix(n), NatToString(k);
    assert '/' !in st && '/' !in su by {
      assert forall c :: c in st ==> c in st + su;
      assert forall c :: c in su ==> c in st + su;
    }
    assert '/' !in d;
    var mid := " (" + d + ")";
    assert '/' !in mid;
    assert CandidateName(n, k) == st + mid + su;
    assert |mid| >= 3;
  }

  /** Moving a file back from `fin` to the free place `from` it came from,
      whose directory still exists, restores the filesystem `g`. */
  lemma MoveBack(g: Fs, fs1: Fs, cwd: Path, from: PathExpr, fin: PathExpr)
    requires Valid(g) && Valid(fs1) && IsDir(g, cwd)
    requires Resolve(cwd, from) in g.files && Resolve(cwd, fin) !in g.files
    requires Resolve(cwd, fin) != Resolve(cwd, from)
    requires fs1.dirs == g.dirs
    requires fs1.files == (g.files - {Resolve(cwd, from)})[Resolve(cwd, fin) := g.files[Resolve(cwd, from)]]
    ensures MoveStep(fs1, cwd, fin, from) == (g, Moved(Move(Format(fin), Format(from))))
  {
    var s := Resolve(cwd, from);
    var d := Resolve(cwd, fin);
    assert d in fs1.files;
    // the original location is free again, so it is chosen unchanged
    assert s !in fs1.files && s !in fs1.dirs && s != [];
    assert NextIndex(fs1, cwd, from) == 0;
    assert NextAvailable(fs1, cwd, from) == from;
    // its directory still exists, so creating it changes nothing
    assert from.parts == [] ==> s == cwd;
    assert Resolve(cwd, Parent(from)) == s[..|s| - 1];
    assert IsDir(fs1, s[..|s| - 1]);
    MkdirExisting(fs1, s[..|s| - 1]);
    assert MoveFile(fs1, d, s) == Ok(Fs((fs1.files - {d})[s := fs1.files[d]], fs1.dirs));
    assert ((fs1.files - {d})[s := fs1.files[d]]) == g.files;
  }

  /** Undoing one completed move from the state it produced gives back the
      state before it, when the destination directory already existed; the
      record parses back to the source and the chosen destination. */
  lemma UndoOneStep(g: Fs, cwd: Path, from: PathExpr, to: PathExpr)
    requires Valid(g) && IsDir(g, cwd) && WellFormed(from) && WellFormed(to)
    requires IsDir(g, Resolve(cwd, Parent(to)))
    requires MoveStep(g, cwd, from, to).1.Moved?
    ensures var (fs1, st) := MoveStep(g, cwd, from, to);
      var fin := Parse(st.record.dst);
      Parse(st.record.src) == from
      && MoveStep(fs1, cwd, fin, from) == (g, Moved(Move(st.record.dst, st.record.src)))
  {
    var (fs1, st) := MoveStep(g, cwd, from, to);
    MoveStepMoved(g, cwd, from, to);
    MoveStepDirs(g, cwd, from, to);
    var fin := NextAvailable(g, cwd, to);
    NextAvailableWellFormed(g, cwd, to);
    ParseFormat(fin);
    ParseFormat(from);
    MoveBack(g, fs1, cwd, from, fin);
  }

  /** The move loop stops at its first failure. */
  lemma ApplyPrefixOk(g: Fs, cwd: Path, ps: seq<PathMove>)
    requires Valid(g) && IsDir(g, cwd) && ps != []
    requires ApplySteps(g, cwd, ps).out.Ok?
    ensures ApplySteps(g, cwd, ps[..|ps| - 1]).out.Ok?
  {
  }

  /** One iteration of the undo loop, as its definition reads. */
  lemma UndoLastUnfold(fs: Fs, cwd: Path, ps: seq<PathMove>, acc: seq<Move>)
    requires Valid(fs) && IsDir(fs, cwd) && ps != []
    ensures var p := ps[|ps| - 1];
      var st := MoveStep(fs, cwd, p.to, p.from);
      st.1.Moved? ==> UndoSteps(fs, cwd, ps, acc) == UndoSteps(st.0, cwd, ps[..|ps| - 1], acc + [st.1.record])
  {
  }

  /** The last iteration of the move loop, run where its destination
      directory exists: it creates no directory, and it either is skipped or
      records one move that the first iteration of an undo reverses. */
  lemma ApplyLastStep(g: Fs, cwd: Path, ps: seq<PathMove>, acc: seq<Move>)
    requires Valid(g) && IsDir(g, cwd) && ps != []
    requires WellFormed(ps[|ps| - 1].from) && WellFormed(ps[|ps| - 1].to)
    requires IsDir(ApplySteps(g, cwd, ps[..|ps| - 1]).fs, Resolve(cwd, Parent(ps[|ps| - 1].to)))
    requires ApplySteps(g, cwd, ps).out.Ok?
    ensures var a0 := ApplySteps(g, cwd, ps[..|ps| - 1]);
      var a := ApplySteps(g, cwd, ps);
      a0.out.Ok? && a.fs.dirs == a0.fs.dirs
      && (|a.out.value| == |a0.out.value| ==> a == a0)
      && (|a.out.value| != |a0.out.value| ==>
            var rec := a.out.value[|a.out.value| - 1];
            a.out.value == a0.out.value + [rec]
            && UndoSteps(a.fs, cwd, ParseMoves(a.out.value), acc)
               == UndoSteps(a0.fs, cwd, ParseMoves(a0.out.value), acc + [Move(rec.dst, rec.src)]))
  {
    var init := ps[..|ps| - 1];
    var p := ps[|ps| - 1];
    var a0 := ApplySteps(g, cwd, init);
    assert ApplySteps(g, cwd, ps) == ApplyStep(a0, cwd, p);
    assert a0.out.Ok?;
    var r := MoveStep(a0.fs, cwd, p.from, p.to);
    ApplyStepOk(a0, cwd, p, r.0, r.1);
    MoveStepDirs(a0.fs, cwd, p.from, p.to);
    if r.1.Skipped? {
      MoveStepSkip(a0.fs, cwd, p.from, p.to);
    } else {
      UndoAfterStep(a0, cwd, p, acc);
    }
  }

  /** A recorded iteration of the move loop is the first one an undo reverses. */
  lemma UndoAfterStep(a0: Run, cwd: Path, p: PathMove, acc: seq<Move>)
    requires Valid(a0.fs) && IsDir(a0.fs, cwd) && a0.out.Ok?
    requires WellFormed(p.from) && WellFormed(p.to)
    requires IsDir(a0.fs, Resolve(cwd, Parent(p.to)))
    requires MoveStep(a0.fs, cwd, p.from, p.to).1.Moved?
    ensures var r := MoveStep(a0.fs, cwd, p.from, p.to);
      var rec := r.1.record;
      UndoSteps(r.0, cwd, ParseMoves(a0.out.value + [rec]), acc)
      == UndoSteps(a0.fs, cwd, ParseMoves(a0.out.value), acc + [Move(rec.dst, rec.src)])
  {
    var r := MoveStep(a0.fs, cwd, p.from, p.to);
    var rec := r.1.record;
    var es := a0.out.value + [rec];
    UndoOneStep(a0.fs, cwd, p.from, p.to);
    ParseMovesSnoc(a0.out.value, rec);
    var qs := ParseMoves(es);
    assert qs[..|qs| - 1] == ParseMoves(a0.out.value);
    UndoLastUnfold(r.0, cwd, qs, acc);
  }

  /** Run from a state in which every destination directory exists, the move
      loop creates no directory, and undoing its record right afterwards
      restores the state exactly and logs the inverted moves. */
  lemma {:induction false} StepsThenUndo(g: Fs, cwd: Path, ps: seq<PathMove>, acc: seq<Move>)
    requires Valid(g) && IsDir(g, cwd) && AllWellFormed(ps) && ParentsExist(g, cwd, ps)
    requires ApplySteps(g, cwd, ps).out.Ok?
    ensures ApplySteps(g, cwd, ps).fs.dirs == g.dirs
    ensures var a := ApplySteps(g, cwd, ps);
      UndoSteps(a.fs, cwd, ParseMoves(a.out.value), acc) == Run(g, Ok(acc + Inverted(a.out.value)))
    decreases |ps|
  {
    if ps != [] {
      var init := ps[..|ps| - 1];
      var a0 := ApplySteps(g, cwd, init);
      var a := ApplySteps(g, cwd, ps);
      assert forall j :: 0 <= j < |init| ==> init[j] == ps[j];
      ApplyPrefixOk(g, cwd, ps);
      StepsThenUndo(g, cwd, init, acc);
      assert IsDir(a0.fs, Resolve(cwd, Parent(ps[|ps| - 1].to)));
      ApplyLastStep(g, cwd, ps, acc);
      if |a.out.value| == |a0.out.value| {
        assert a == a0;
      } else {
        var rec := a.out.value[|a.out.value| - 1];
        StepsThenUndo(g, cwd, init, acc + [Move(rec.dst, rec.src)]);
        InvertedSnoc(acc, a0.out.value, rec);
      }
    } else {
      assert Inverted([]) == [];
      assert acc + [] == acc;
    }
  }

  /** The organizer's promise: `--undo` with the log written by `--apply`
      restores every file to its original location (the directories the apply
      created remain), provided nothing else ran in between. */
  lemma ApplyThenUndo(fs: Fs, cwd: Path, ms: seq<Move>)
    requires Valid(fs) && IsDir(fs, cwd)
    requires ApplyMovesSpec(fs, cwd, ms).out.Ok?
    ensures var a := ApplyMovesSpec(fs, cwd, ms);
      var u := UndoSpec(a.fs, cwd, a.out.value);
      u.out == Ok(Inverted(a.out.value))
      && u.fs.files == fs.files
      && u.fs.dirs == EnsureDirsRun(fs, cwd, ParseMoves(ms)).fs.dirs
      && a.fs.dirs == u.fs.dirs
  {
    var ps := ParseMoves(ms);
    var e := EnsureDirsRun(fs, cwd, ps);
    ApplyMovesUnfold(fs, cwd, ms);
    ParseMovesWellFormed(ms);
    StepsThenUndo(e.fs, cwd, ps, []);
    EmptyAppend(Inverted(ApplySteps(e.fs, cwd, ps).out.value));
  }

  /** A successful `apply_moves` is the move loop run after `ensure_dirs`. */
  lemma ApplyMovesUnfold(fs: Fs, cwd: Path, ms: seq<Move>)
    requires Valid(fs) && IsDir(fs, cwd)
    requires ApplyMovesSpec(fs, cwd, ms).out.Ok?
    ensures var e := EnsureDirsRun(fs, cwd, ParseMoves(ms));
      e.out.Ok? && ApplyMovesSpec(fs, cwd, ms) == ApplySteps(e.fs, cwd, ParseMoves(ms))
  {
  }

  lemma EmptyAppend<T>(s: seq<T>)
    ensures [] + s == s
  {
  }

  /** No file is lost or duplicated: the move loop keeps the number of files. */
  lemma {:induction false} ApplyStepsKeepsFileCount(fs: Fs, cwd: Path, ps: seq<PathMove>)
    requires Valid(fs) && IsDir(fs, cwd)
    ensures |ApplySteps(fs, cwd, ps).fs.files| == |fs.files|
    decreases |ps|
  {
    if ps != [] {
      var init := ps[..|ps| - 1];
      ApplyStepsKeepsFileCount(fs, cwd, init);
      var r := ApplySteps(fs, cwd, init);
      if r.out.Ok? {
        var p := ps[|ps| - 1];
        MoveStepKeepsFileCount(r.fs, cwd, p.from, p.to);
      }
    }
  }

  /** One iteration of the move loop keeps the number of files. */
  lemma MoveStepKeepsFileCount(fs: Fs, cwd: Path, from: PathExpr, to: PathExpr)
    requires Valid(fs) && IsDir(fs, cwd)
    ensures |MoveStep(fs, cwd, from, to).0.files| == |fs.files|
  {
    MoveStepSkip(fs, cwd, from, to);
    MoveStepDirs(fs, cwd, from, to);
    if MoveStep(fs, cwd, from, to).1.Moved? {
      MoveStepMoved(fs, cwd, from, to);
    }
  }

  /** A parse of a log entry at index `i`. */
  lemma ParseMovesAt(ms: seq<Move>, i: nat)
    requires i < |ms|
    ensures ParseMoves(ms)[i] == PathMove(Parse(ms[i].src), Parse(ms[i].dst))
    decreases |ms|
  {
    if i < |ms| - 1 {
      ParseMovesAt(ms[..|ms| - 1], i);
    }
  }

  /** `ensure_dirs` over one more move. */
  lemma EnsureDirsAdvance(fs: Fs, cwd: Path, ps: seq<PathMove>, i: nat)
    requires Valid(fs) && IsDir(fs, cwd) && i < |ps|
    ensures EnsureDirsRun(fs, cwd, ps[..i + 1]) == EnsureStep(EnsureDirsRun(fs, cwd, ps[..i]), cwd, ps[i])
  {
    assert ps[..i + 1][..i] == ps[..i];
  }

  /** `ensure_dirs` ends at its first failure. */
  lemma {:induction false} EnsureDirsStop(fs: Fs, cwd: Path, ps: seq<PathMove>, i: nat)
    requires Valid(fs) && IsDir(fs, cwd) && i <= |ps|
    requires EnsureDirsRun(fs, cwd, ps[..i]).out.Err?
    ensures EnsureDirsRun(fs, cwd, ps) == EnsureDirsRun(fs, cwd, ps[..i])
    decreases |ps| - i
  {
    if i < |ps| {
      EnsureDirsAdvance(fs, cwd, ps, i);
      EnsureDirsStop(fs, cwd, ps, i + 1);
    } else {
      assert ps[..i] == ps;
    }
  }

  /** The move loop over one more move. */
  lemma ApplyStepsAdvance(fs: Fs, cwd: Path, ps: seq<PathMove>, i: nat)
    requires Valid(fs) && IsDir(fs, cwd) && i < |ps|
    ensures ApplySteps(fs, cwd, ps[..i + 1]) == ApplyStep(ApplySteps(fs, cwd, ps[..i]), cwd, ps[i])
  {
    assert ps[..i + 1][..i] == ps[..i];
  }

  /** One iteration of the move loop after a prefix that succeeded. */
  lemma ApplyStepOk(r: Run, cwd: Path, p: PathMove, fs1: Fs, st: Step)
    requires Valid(r.fs) && IsDir(r.fs, cwd) && r.out.Ok?
    requires (fs1, st) == MoveStep(r.fs, cwd, p.from, p.to)
    ensures ApplyStep(r, cwd, p) == Run(fs1, Record(r.out.value, st))
  {
  }

  /** The move loop ends at its first failure. */
  lemma {:induction false} ApplyStepsStop(fs: Fs, cwd: Path, ps: seq<PathMove>, i: nat)
    requires Valid(fs) && IsDir(fs, cwd) && i <= |ps|
    requires ApplySteps(fs, cwd, ps[..i]).out.Err?
    ensures ApplySteps(fs, cwd, ps) == ApplySteps(fs, cwd, ps[..i])
    decreases |ps| - i
  {
    if i < |ps| {
      ApplyStepsAdvance(fs, cwd, ps, i);
      ApplyStepsStop(fs, cwd, ps, i + 1);
    } else {
      assert ps[..i] == ps;
    }
  }

  /** The undo loop on the entries before `i`: its first iteration. */
  lemma UndoStepsAdvance(fs: Fs, cwd: Path, ps: seq<PathMove>, i: nat, acc: seq<Move>)
    requires Valid(fs) && IsDir(fs, cwd) && 0 < i <= |ps|
    ensures UndoSteps(fs, cwd, ps[..i], acc)
      == UndoNext(MoveStep(fs, cwd, ps[i - 1].to, ps[i - 1].from), cwd, ps[..i - 1], acc)
  {
    assert ps[..i][..i - 1] == ps[..i - 1];
  }

  /** `fs` with the file `x` holding `c`, as writing the log leaves it. */
  function WithFile(fs: Fs, x: Path, c: Content): (r: Fs)
    ensures r.dirs == fs.dirs && x in r.files && r.files[x] == c
    ensures forall p :: p != x ==> (p in r.files <==> p in fs.files)
  {
    Fs(fs.files[x := c], fs.dirs)
  }

  /** One more file changes no search whose answer is not that file: the
      rounds before the answer hit existing paths either way. */
  lemma NextAvailableWith(fs: Fs, cwd: Path, target: PathExpr, x: Path, c: Content)
    requires Resolve(cwd, NextAvailable(fs, cwd, target)) != x
    ensures NextAvailable(WithFile(fs, x, c), cwd, target) == NextAvailable(fs, cwd, target)
  {
    var fx := WithFile(fs, x, c);
    var k := NextIndex(fs, cwd, target);
    if k > 0 {
      assert Exists(fx, Resolve(cwd, target));
      assert forall j :: 1 <= j < k ==> Exists(fx, Resolve(cwd, Candidate(target, j)));
      NextAvailableAt(fx, cwd, target, k);
    }
  }

  /** `mkdir -p` of a path none of whose ancestors is `x` ignores the file `x`. */
  lemma MkdirWith(fs: Fs, p: Path, x: Path, c: Content)
    requires MkdirP(fs, p).Ok? && forall k :: 0 < k <= |p| ==> p[..k] != x
    ensures MkdirP(WithFile(fs, x, c), p) == Ok(WithFile(MkdirP(fs, p).value, x, c))
  {
  }

  /** Moving a file other than `x` to a place other than `x` ignores the file `x`. */
  lemma MoveFileWith(fs: Fs, s: Path, d: Path, x: Path, c: Content)
    requires d != [] && !Exists(fs, d) && IsDir(fs, d[..|d| - 1]) && MoveFile(fs, s, d).Ok?
    requires s != x && d != x
    ensures !Exists(WithFile(fs, x, c), d)
    ensures MoveFile(WithFile(fs, x, c), s, d) == Ok(WithFile(MoveFile(fs, s, d).value, x, c))
  {
    assert (fs.files[x := c] - {s})[d := fs.files[s]] == ((fs.files - {s})[d := fs.files[s]])[x := c];
  }

  /** An iteration that neither reads nor places `x`, nor makes a directory
      of it, does the same with or without the file `x`. */
  lemma MoveStepWith(fs: Fs, cwd: Path, from: PathExpr, to: PathExpr, x: Path, c: Content)
    requires Valid(fs) && IsDir(fs, cwd) && Valid(WithFile(fs, x, c))
    requires Resolve(cwd, from) != x
    requires MoveStep(fs, cwd, from, to).1.Skipped? || MoveStep(fs, cwd, from, to).1.Moved?
    requires MoveStep(fs, cwd, from, to).1.Moved? ==>
      Resolve(cwd, NextAvailable(fs, cwd, to)) != x && x !in MoveStep(fs, cwd, from, to).0.dirs
    ensures MoveStep(WithFile(fs, x, c), cwd, from, to)
      == (WithFile(MoveStep(fs, cwd, from, to).0, x, c), MoveStep(fs, cwd, from, to).1)
  {
    var s := Resolve(cwd, from);
    if Exists(fs, s) {
      var fin := NextAvailable(fs, cwd, to);
      NextAvailableWith(fs, cwd, to, x, c);
      var d := Resolve(cwd, fin);
      var parent := Resolve(cwd, Parent(fin));
      var fs1 := MkdirP(fs, parent).value;
      PlaceFacts(fs, cwd, fin, fs1);
      var fs2 := MoveFile(fs1, s, d).value;
      assert MoveStep(fs, cwd, from, to).0 == fs2;
      assert forall k :: 0 < k <= |parent| ==> parent[..k] in fs2.dirs;
      MkdirWith(fs, parent, x, c);
      MoveFileWith(fs1, s, d, x, c);
    }
  }

  /** The undo loop never removes a directory or a recorded move. */
  lemma {:induction false} UndoStepsGrow(fs: Fs, cwd: Path, ps: seq<PathMove>, acc: seq<Move>)
    requires Valid(fs) && IsDir(fs, cwd)
    ensures fs.dirs <= UndoSteps(fs, cwd, ps, acc).fs.dirs
    ensures UndoSteps(fs, cwd, ps, acc).out.Ok? ==> acc <= UndoSteps(fs, cwd, ps, acc).out.value
    decreases |ps|
  {
    if ps != [] {
      var p := ps[|ps| - 1];
      var st := MoveStep(fs, cwd, p.to, p.from);
      var init := ps[..|ps| - 1];
      MoveStepDirs(fs, cwd, p.to, p.from);
      assert UndoSteps(fs, cwd, ps, acc) == UndoNext(st, cwd, init, acc);
      if st.1.Skipped? {
        UndoStepsGrow(st.0, cwd, init, acc);
      } else if st.1.Moved? {
        UndoStepsGrow(st.0, cwd, init, acc + [st.1.record]);
      }
    }
  }

  /** A file the undo loop never reads, places or makes a directory of is
      carried through it unchanged, and the loop does the same around it. */
  lemma {:induction false} UndoStepsWith(fs: Fs, cwd: Path, ps: seq<PathMove>, acc: seq<Move>, x: Path, c: Content)
    requires Valid(fs) && IsDir(fs, cwd) && Valid(WithFile(fs, x, c)) && AllWellFormed(ps)
    requires forall j :: 0 <= j < |ps| ==> Resolve(cwd, ps[j].to) != x
    requires var r := UndoSteps(fs, cwd, ps, acc);
      r.out.Ok? && x !in r.fs.dirs
      && forall m :: m in r.out.value ==> Resolve(cwd, Parse(m.dst)) != x
    ensures var r := UndoSteps(fs, cwd, ps, acc);
      UndoSteps(WithFile(fs, x, c), cwd, ps, acc) == Run(WithFile(r.fs, x, c), r.out)
    decreases |ps|
  {
    if ps != [] {
      var r := UndoSteps(fs, cwd, ps, acc);
      var init := ps[..|ps| - 1];
      var p := ps[|ps| - 1];
      var st := MoveStep(fs, cwd, p.to, p.from);
      assert forall j :: 0 <= j < |init| ==> init[j] == ps[j];
      assert WellFormed(p.from);
      if st.1.Moved? {
        var m := st.1.record;
        assert r == UndoSteps(st.0, cwd, init, acc + [m]);
        UndoStepsGrow(st.0, cwd, init, acc + [m]);
        assert r.out.value[|acc|] == m;
        var fin := NextAvailable(fs, cwd, p.from);
        MoveStepMoved(fs, cwd, p.to, p.from);
        NextAvailableWellFormed(fs, cwd, p.from);
        ParseFormat(fin);
        assert Resolve(cwd, fin) != x;
        MoveStepWith(fs, cwd, p.to, p.from, x, c);
        UndoStepsWith(st.0, cwd, init, acc + [m], x, c);
      } else {
        assert r == UndoSteps(st.0, cwd, init, acc);
        MoveStepWith(fs, cwd, p.to, p.from, x, c);
        UndoStepsWith(st.0, cwd, init, acc, x, c);
      }
    }
  }
}
