/** The filesystem as the organizer sees it, and the specification of its
    moves: `mkdir -p`, a file move that never overwrites, the collision-free
    name search, applying a plan and undoing a log. */
module OrganizerFs {
  import opened Wrappers
  import opened Text
  import opened OrganizerPaths

  /** An absolute path, as a list of components from the root. */
  type Path = seq<string>

  /** One planned or executed move, as the strings the program keeps. */
  datatype Move = Move(src: string, dst: string)

  /** What a file holds: an organizer move log, or anything else. */
  datatype Content = Blob(bytes: seq<int>) | MoveLog(entries: seq<Move>)

  datatype FsError =
    | NotADirectory(at: Path)     // a component on the way is a regular file
    | DirectorySource(at: Path)   // the source is a directory (not modelled)
    | IsADirectory(at: Path)      // a file is opened where a directory is
    | NotFound(at: Path)          // the directory to write into is not one
    | NotALog(at: Path)           // the file does not hold a list of {src, dst}

  /** Regular files with their contents, and the directories other than the root. */
  datatype Fs = Fs(files: map<Path, Content>, dirs: set<Path>)

  /** A filesystem tree: files and directories are distinct, and every
      ancestor of an entry is a directory. */
  ghost predicate Valid(fs: Fs) {
    (forall p :: p in fs.files ==> p != [] && p !in fs.dirs)
    && (forall p, k :: p in fs.files && 0 < k < |p| ==> p[..k] in fs.dirs)
    && (forall d :: d in fs.dirs ==> d != [])
    && (forall d, k :: d in fs.dirs && 0 < k < |d| ==> d[..k] in fs.dirs)
  }

  predicate IsDir(fs: Fs, p: Path) {
    p == [] || p in fs.dirs
  }

  /** `Path.exists()`. */
  predicate Exists(fs: Fs, p: Path) {
    IsDir(fs, p) || p in fs.files
  }

  /** The non-root ancestors of `p` and `p` itself. */
  function Prefixes(p: Path): (r: set<Path>)
    ensures forall q :: q in r ==> 0 < |q| <= |p| && q == p[..|q|]
  {
    set k | 0 < k <= |p| :: p[..k]
  }

  /** `mkdir(parents=True, exist_ok=True)`: fails when `p` or one of its
      ancestors is a regular file, and otherwise makes `p` and its ancestors
      directories. */
  function MkdirP(fs: Fs, p: Path): (r: Result<Fs, FsError>)
    ensures r.Ok? <==> (forall k :: 0 < k <= |p| ==> p[..k] !in fs.files)
    ensures r.Ok? ==> r.value.files == fs.files && r.value.dirs == fs.dirs + Prefixes(p)
  {
    if exists k :: 0 < k <= |p| && p[..k] in fs.files then Err(NotADirectory(p))
    else Ok(Fs(fs.files, fs.dirs + Prefixes(p)))
  }

  /** A successful `mkdir -p` leaves a valid tree in which `p` is a directory. */
  lemma MkdirValid(fs: Fs, p: Path)
    requires Valid(fs) && MkdirP(fs, p).Ok?
    ensures Valid(MkdirP(fs, p).value) && IsDir(MkdirP(fs, p).value, p)
  {
    var r := MkdirP(fs, p).value;
    assert p != [] ==> p == p[..|p|];
    forall d, k | d in r.dirs && 0 < k < |d| ensures d[..k] in r.dirs {
      if d !in fs.dirs {
        assert d == p[..|d|] && d[..k] == p[..k];
      }
    }
  }

  /** `mkdir -p` of an existing directory changes nothing. */
  lemma MkdirExisting(fs: Fs, p: Path)
    requires Valid(fs) && IsDir(fs, p)
    ensures MkdirP(fs, p) == Ok(fs)
  {
    DirPrefixes(fs, p);
    assert fs.dirs + Prefixes(p) == fs.dirs;
  }

  /** Every non-root ancestor of a directory, and the directory, are directories. */
  lemma DirPrefixes(fs: Fs, p: Path)
    requires Valid(fs)
    ensures IsDir(fs, p) ==> Prefixes(p) <= fs.dirs
  {
    if IsDir(fs, p) {
      forall k | 0 < k <= |p| ensures p[..k] in fs.dirs {
        if k == |p| { assert p[..k] == p; }
      }
    }
  }

  /** `shutil.move` onto a path that does not exist, inside an existing
      directory: the file's content moves to the new path. */
  function MoveFile(fs: Fs, src: Path, dst: Path): (r: Result<Fs, FsError>)
    requires dst != [] && !Exists(fs, dst) && IsDir(fs, dst[..|dst| - 1])
    ensures r.Ok? <==> src in fs.files
    ensures r.Ok? ==>
      r.value.dirs == fs.dirs && r.value.files == (fs.files - {src})[dst := fs.files[src]]
  {
    if src in fs.files then Ok(Fs((fs.files - {src})[dst := fs.files[src]], fs.dirs))
    else Err(DirectorySource(src))
  }

  lemma MoveFileValid(fs: Fs, src: Path, dst: Path)
    requires Valid(fs) && dst != [] && !Exists(fs, dst) && IsDir(fs, dst[..|dst| - 1])
    requires MoveFile(fs, src, dst).Ok?
    ensures Valid(MoveFile(fs, src, dst).value)
  {
    var r := MoveFile(fs, src, dst).value;
    forall k | 0 < k < |dst| ensures dst[..k] in r.dirs {
      assert dst[..k] == dst[..|dst| - 1][..k];
    }
  }

  /** Opening `p` for writing and writing `c`: fails on a directory and
      when the enclosing directory does not exist; an existing file is
      replaced. */
  function WriteFile(fs: Fs, p: Path, c: Content): (r: Result<Fs, FsError>)
    requires p != []
    ensures r.Ok? <==> p !in fs.dirs && IsDir(fs, p[..|p| - 1])
    ensures r.Ok? ==> r.value.files == fs.files[p := c] && r.value.dirs == fs.dirs
  {
    if p in fs.dirs then Err(IsADirectory(p))
    else if !IsDir(fs, p[..|p| - 1]) then Err(NotFound(p[..|p| - 1]))
    else Ok(Fs(fs.files[p := c], fs.dirs))
  }

  lemma WriteFileValid(fs: Fs, p: Path, c: Content)
    requires Valid(fs) && p != [] && WriteFile(fs, p, c).Ok?
    ensures Valid(WriteFile(fs, p, c).value)
  {
    forall k | 0 < k < |p| ensures p[..k] in fs.dirs {
      assert p[..k] == p[..|p| - 1][..k];
    }
  }

  /** `json.load` of an existing path followed by reading each entry's
      `src` and `dst`: only a move log gives its entries. */
  function ReadLog(fs: Fs, p: Path): (r: Result<seq<Move>, FsError>)
    requires Exists(fs, p)
    ensures r.Ok? <==> p in fs.files && fs.files[p].MoveLog?
    ensures r.Ok? ==> fs.files[p] == MoveLog(r.value)
  {
    if p !in fs.files then Err(IsADirectory(p))
    else match fs.files[p]
      case MoveLog(es) => Ok(es)
      case Blob(_) => Err(NotALog(p))
  }

  /** The name `next_available_path` tries in round `i`: `stem (i)suffix`. */
  function CandidateName(name: string, i: nat): string {
    Stem(name) + " (" + NatToString(i) + ")" + Suffix(name)
  }

  /** `parent / f"{stem} ({i}){ext}"`. */
  function Candidate(target: PathExpr, i: nat): (c: PathExpr)
    ensures |c.parts| >= 1 && c.absolute == target.absolute
    ensures Parent(c) == Parent(target) && Name(c) == CandidateName(Name(target), i)
  {
    Child(Parent(target), CandidateName(Name(target), i))
  }

  lemma CandidateNameInjective(name: string, i: nat, j: nat)
    requires CandidateName(name, i) == CandidateName(name, j)
    ensures i == j
  {
    var a, b := Stem(name) + " (", ")" + Suffix(name);
    assert CandidateName(name, i) == a + NatToString(i) + b;
    assert CandidateName(name, j) == a + NatToString(j) + b;
    SameMiddle(a, NatToString(i), NatToString(j), b);
    NatToStringInjective(i, j);
  }

  /** Distinct rounds try distinct paths. */
  lemma CandidateInjective(cwd: Path, target: PathExpr, i: nat, j: nat)
    requires Resolve(cwd, Candidate(target, i)) == Resolve(cwd, Candidate(target, j))
    ensures i == j
  {
    var ci, cj := Resolve(cwd, Candidate(target, i)), Resolve(cwd, Candidate(target, j));
    assert ci[|ci| - 1] == CandidateName(Name(target), i);
    assert cj[|cj| - 1] == CandidateName(Name(target), j);
    CandidateNameInjective(Name(target), i, j);
  }

  function CandidateSet(cwd: Path, target: PathExpr, i: nat): set<Path> {
    set j | 1 <= j <= i :: Resolve(cwd, Candidate(target, j))
  }

  lemma {:induction false} CandidateSetSize(cwd: Path, target: PathExpr, i: nat)
    ensures |CandidateSet(cwd, target, i)| == i
  {
    if i > 0 {
      var c := Resolve(cwd, Candidate(target, i));
      assert CandidateSet(cwd, target, i) == CandidateSet(cwd, target, i - 1) + {c};
      if c in CandidateSet(cwd, target, i - 1) {
        var j :| 1 <= j <= i - 1 && c == Resolve(cwd, Candidate(target, j));
        CandidateInjective(cwd, target, i, j);
      }
      CandidateSetSize(cwd, target, i - 1);
    }
  }

  /** If the first `i` rounds all hit existing paths, there are at least `i`
      files and directories: the search cannot go on forever. */
  lemma CandidatesBound(fs: Fs, cwd: Path, target: PathExpr, i: nat)
    requires forall j :: 1 <= j <= i ==> Exists(fs, Resolve(cwd, Candidate(target, j)))
    ensures i <= |fs.files| + |fs.dirs|
  {
    var s := CandidateSet(cwd, target, i);
    CandidateSetSize(cwd, target, i);
    forall c | c in s ensures c in fs.files.Keys + fs.dirs {
      var j :| 1 <= j <= i && c == Resolve(cwd, Candidate(target, j));
      assert Exists(fs, c) && c != [];
    }
    SubsetSize(s, fs.files.Keys + fs.dirs);
    assert |fs.files.Keys + fs.dirs| <= |fs.files.Keys| + |fs.dirs|;
  }

  lemma SubsetSize<T>(a: set<T>, b: set<T>)
    requires a <= b
    ensures |a| <= |b|
    decreases |a|
  {
    if a != {} {
      var x :| x in a;
      SubsetSize(a - {x}, b - {x});
    }
  }

  /** The first round at or after `i` whose candidate does not exist. */
  function FirstFree(fs: Fs, cwd: Path, target: PathExpr, i: nat): (r: nat)
    requires i >= 1
    requires forall j :: 1 <= j < i ==> Exists(fs, Resolve(cwd, Candidate(target, j)))
    ensures r >= i && !Exists(fs, Resolve(cwd, Candidate(target, r)))
    ensures forall j :: 1 <= j < r ==> Exists(fs, Resolve(cwd, Candidate(target, j)))
    decreases |fs.files| + |fs.dirs| + 1 - i
  {
    if !Exists(fs, Resolve(cwd, Candidate(target, i))) then i
    else
      CandidatesBound(fs, cwd, target, i);
      FirstFree(fs, cwd, target, i + 1)
  }

  /** The round `next_available_path` stops at: 0 when the target itself is
      free, otherwise the first `i >= 1` whose candidate is free. */
  function NextIndex(fs: Fs, cwd: Path, target: PathExpr): (r: nat)
    ensures r == 0 <==> !Exists(fs, Resolve(cwd, target))
    ensures r > 0 ==> !Exists(fs, Resolve(cwd, Candidate(target, r)))
    ensures forall j :: 1 <= j < r ==> Exists(fs, Resolve(cwd, Candidate(target, j)))
  {
    if !Exists(fs, Resolve(cwd, target)) then 0 else FirstFree(fs, cwd, target, 1)
  }

  /** `next_available_path`: the target when it is free, else the first free
      numbered sibling; the result never exists. */
  function NextAvailable(fs: Fs, cwd: Path, target: PathExpr): (r: PathExpr)
    ensures !Exists(fs, Resolve(cwd, r))
    ensures Parent(r) == Parent(target) && r.absolute == target.absolute
  {
    var k := NextIndex(fs, cwd, target);
    if k == 0 then
      assert target.parts == [] ==> Parent(target) == target;
      target
    else Candidate(target, k)
  }

  /** The search stops at the first free candidate. */
  lemma NextAvailableAt(fs: Fs, cwd: Path, target: PathExpr, i: nat)
    requires Exists(fs, Resolve(cwd, target)) && i >= 1
    requires forall j :: 1 <= j < i ==> Exists(fs, Resolve(cwd, Candidate(target, j)))
    requires !Exists(fs, Resolve(cwd, Candidate(target, i)))
    ensures NextAvailable(fs, cwd, target) == Candidate(target, i)
  {
    var k := NextIndex(fs, cwd, target);
    assert k >= 1;
    assert !(k < i) && !(i < k);
  }

  /** What one iteration of the apply or undo loop did. */
  datatype Step = Skipped | Moved(record: Move) | Failed(error: FsError)

  /** The state a run reached and either its record of executed moves or the
      exception that ended it. */
  datatype Run = Run(fs: Fs, out: Result<seq<Move>, FsError>)

  /** The loop body shared by `apply_moves` and `undo_from_log`: skip a missing
      source, otherwise pick a free destination next to `to`, create its
      directory and move the file there. */
  function MoveStep(fs: Fs, cwd: Path, from: PathExpr, to: PathExpr): (r: (Fs, Step))
    requires Valid(fs) && IsDir(fs, cwd)
    ensures Valid(r.0) && IsDir(r.0, cwd)
  {
    var s := Resolve(cwd, from);
    if !Exists(fs, s) then (fs, Skipped)
    else
      var fin := NextAvailable(fs, cwd, to);
      var d := Resolve(cwd, fin);
      var parent := Resolve(cwd, Parent(fin));
      match MkdirP(fs, parent)
      case Err(e) => (fs, Failed(e))
      case Ok(fs1) =>
        PlaceFacts(fs, cwd, fin, fs1);
        match MoveFile(fs1, s, d)
        case Err(e) => (fs1, Failed(e))
        case Ok(fs2) =>
          MoveFileValid(fs1, s, d);
          (fs2, Moved(Move(Format(from), Format(fin))))
  }

  /** After creating the parent of a free path, the path is still free and
      can be moved to. */
  lemma PlaceFacts(fs: Fs, cwd: Path, fin: PathExpr, fs1: Fs)
    requires Valid(fs) && IsDir(fs, cwd) && !Exists(fs, Resolve(cwd, fin))
    requires MkdirP(fs, Resolve(cwd, Parent(fin))) == Ok(fs1)
    ensures var d := Resolve(cwd, fin);
      d != [] && d[..|d| - 1] == Resolve(cwd, Parent(fin))
      && Valid(fs1) && IsDir(fs1, cwd) && !Exists(fs1, d) && IsDir(fs1, d[..|d| - 1])
      && fs1.files == fs.files
      && (IsDir(fs, Resolve(cwd, Parent(fin))) ==> fs1 == fs)
  {
    var d := Resolve(cwd, fin);
    var parent := Resolve(cwd, Parent(fin));
    assert fin.parts == [] ==> d == cwd || d == [];
    assert d[..|d| - 1] == parent;
    MkdirValid(fs, parent);
    DirPrefixes(fs, parent);
    assert d !in Prefixes(parent);
  }

  /** A skipped iteration is exactly one whose source is missing, and it
      changes nothing. */
  lemma MoveStepSkip(fs: Fs, cwd: Path, from: PathExpr, to: PathExpr)
    requires Valid(fs) && IsDir(fs, cwd)
    ensures MoveStep(fs, cwd, from, to).1.Skipped? <==> !Exists(fs, Resolve(cwd, from))
    ensures MoveStep(fs, cwd, from, to).1.Skipped? ==> MoveStep(fs, cwd, from, to).0 == fs
  {
  }

  /** A completed iteration relocates the source's content to a path where no
      file was: no file is overwritten and no other file changes. */
  lemma MoveStepMoved(fs: Fs, cwd: Path, from: PathExpr, to: PathExpr)
    requires Valid(fs) && IsDir(fs, cwd)
    requires MoveStep(fs, cwd, from, to).1.Moved?
    ensures var r := MoveStep(fs, cwd, from, to);
      var s := Resolve(cwd, from);
      var fin := NextAvailable(fs, cwd, to);
      var d := Resolve(cwd, fin);
      && s in fs.files && d !in fs.files && d != s
      && r.0.files == (fs.files - {s})[d := fs.files[s]]
      && r.1.record == Move(Format(from), Format(fin))
  {
  }

  /** Directories only grow; when the destination's directory already exists
      they stay as they are and the iteration cannot fail. */
  lemma MoveStepDirs(fs: Fs, cwd: Path, from: PathExpr, to: PathExpr)
    requires Valid(fs) && IsDir(fs, cwd)
    ensures fs.dirs <= MoveStep(fs, cwd, from, to).0.dirs
    ensures MoveStep(fs, cwd, from, to).1.Failed? ==> MoveStep(fs, cwd, from, to).0.files == fs.files
    ensures IsDir(fs, Resolve(cwd, Parent(to))) ==>
      MoveStep(fs, cwd, from, to).0.dirs == fs.dirs
      && (MoveStep(fs, cwd, from, to).1.Failed? ==> Resolve(cwd, from) in fs.dirs || Resolve(cwd, from) == [])
  {
    var s := Resolve(cwd, from);
    if Exists(fs, s) {
      var fin := NextAvailable(fs, cwd, to);
      var parent := Resolve(cwd, Parent(fin));
      assert parent == Resolve(cwd, Parent(to));
      DirPrefixes(fs, parent);
      var m := MkdirP(fs, parent);
      if m.Ok? {
        PlaceFacts(fs, cwd, fin, m.value);
        assert IsDir(fs, parent) ==> m.value == fs;
      }
    }
  }
}
