/** `plan_moves`: the pruned walk of the tree under the root and the move
    planned for every file that is classified. */
module OrganizerPlan {
  import opened Wrappers
  import opened Text
  import opened OrganizerPaths
  import opened OrganizerClassify
  import opened OrganizerFs

  /** One entry of a directory listing as `os.walk` sees it: a directory
      (`link` when it is a symbolic link, which the walk does not follow) or
      anything else, with `isFile` the answer of `Path.is_file()` for it. */
  datatype Entry =
    | File(name: string, isFile: bool)
    | Dir(name: string, link: bool, entries: seq<Entry>)

  /** Every name in the tree is a single path component. */
  ghost predicate WellNamed(es: seq<Entry>)
    decreases es
  {
    forall k :: 0 <= k < |es| ==>
      IsComponent(es[k].name) && (es[k].Dir? ==> WellNamed(es[k].entries))
  }

  /** The `dirnames` of one `os.walk` step, in listing order. */
  function DirNames(es: seq<Entry>): (r: seq<Entry>)
    ensures forall k :: 0 <= k < |r| ==> r[k] in es && r[k].Dir?
  {
    if es == [] then []
    else
      var init := es[..|es| - 1];
      assert forall x :: x in init ==> x in es;
      DirNames(init) + (if es[|es| - 1].Dir? then [es[|es| - 1]] else [])
  }

  /** The `filenames` of one `os.walk` step, in listing order. */
  function FileNames(es: seq<Entry>): (r: seq<Entry>)
    ensures forall k :: 0 <= k < |r| ==> r[k] in es && r[k].File?
  {
    if es == [] then []
    else
      var init := es[..|es| - 1];
      assert forall x :: x in init ==> x in es;
      FileNames(init) + (if es[|es| - 1].File? then [es[|es| - 1]] else [])
  }

  /** `dirnames` after the pruning loop: the directories `should_skip_dir`
      lets through, in order. */
  function Kept(ds: seq<Entry>): (r: seq<Entry>)
    ensures forall k :: 0 <= k < |r| ==> r[k] in ds && !ShouldSkipDir(r[k].name)
  {
    if ds == [] then []
    else
      var init := ds[..|ds| - 1];
      assert forall x :: x in init ==> x in ds;
      Kept(init) + (if ShouldSkipDir(ds[|ds| - 1].name) then [] else [ds[|ds| - 1]])
  }

  /** The body of the file loop: the move for `dirpath/fname`, unless the
      file is hidden or `classify` leaves it where it is. */
  function PlannedMove(dir: Path, e: Entry): Option<Move>
    requires e.File?
  {
    if IsHidden(e.name) then None
    else
      match Classify(e.name, e.isFile)
      case None => None
      case Some((_, dest)) => Some(Move(Format(PathExpr(true, dir + [e.name])), Format(Child(dest, e.name))))
  }

  /** The file loop of one `os.walk` step. */
  function PlanFiles(dir: Path, fs: seq<Entry>): seq<Move> {
    Collect(fs, PlanOf(dir))
  }

  /** `PlannedMove` for the directory `dir`, as a function of the entry. */
  function PlanOf(dir: Path): Entry -> Option<Move> {
    (e: Entry) => if e.File? then PlannedMove(dir, e) else None
  }

  /** The moves a loop collects, in order, when `plan` gives each entry at
      most one. */
  function Collect(fs: seq<Entry>, plan: Entry -> Option<Move>): seq<Move> {
    if fs == [] then []
    else
      Collect(fs[..|fs| - 1], plan)
      + match plan(fs[|fs| - 1]) case None => [] case Some(m) => [m]
  }

  /** The moves `plan_moves` collects from the walk of directory `dir` with
      listing `es`: its own files first, then each directory that survives
      pruning, in order. */
  function Walk(dir: Path, es: seq<Entry>): seq<Move>
    decreases es, 1
  {
    PlanFiles(dir, FileNames(es)) + SubWalks(dir, es, Kept(DirNames(es)))
  }

  /** The walks of the subdirectories `ds` of a listing `es`; a symbolic link
      is not descended into. */
  function SubWalks(dir: Path, es: seq<Entry>, ds: seq<Entry>): seq<Move>
    requires forall k :: 0 <= k < |ds| ==> ds[k] in es && ds[k].Dir?
    decreases es, 0, |ds|
  {
    if ds == [] then []
    else
      var d := ds[|ds| - 1];
      SubWalks(dir, es, ds[..|ds| - 1]) + (if d.link then [] else Walk(dir + [d.name], d.entries))
  }

  /** `s` lies strictly under `dir`, and no directory between `dir` and the
      last component of `s` is one `should_skip_dir` names. */
  predicate Under(dir: Path, s: PathExpr) {
    && s.absolute && |s.parts| > |dir| && s.parts[..|dir|] == dir
    && (forall j :: |dir| <= j < |s.parts| - 1 ==> !ShouldSkipDir(s.parts[j]))
  }

  /** The file named by `s` is not hidden, a regular file with its name is
      classified, and `d` is the category's directory joined with that
      unchanged name. */
  predicate Placed(s: PathExpr, d: PathExpr) {
    var n := Name(s);
    && !IsHidden(n)
    && Classify(n, true).Some?
    && d == Child(Classify(n, true).value.1, n)
  }

  /** What every planned move satisfies, read back from its two strings. */
  ghost predicate PlannedFrom(dir: Path, m: Move) {
    Under(dir, Parse(m.src)) && Placed(Parse(m.src), Parse(m.dst))
  }

  /** The move planned for a file of the directory being walked. */
  lemma PlannedMoveFrom(dir: Path, e: Entry)
    requires WellFormed(PathExpr(true, dir)) && e.File? && IsComponent(e.name)
    requires PlannedMove(dir, e).Some?
    ensures PlannedFrom(dir, PlannedMove(dir, e).value)
  {
    var src := PathExpr(true, dir + [e.name]);
    var c := Classify(e.name, e.isFile).value.0;
    SourceParses(dir, e.name);
    DestDirWellFormed(c);
    ParseFormat(Child(DestDir(c), e.name));
  }

  /** The source string of a planned move reads back as the file's path under `dir`. */
  lemma SourceParses(dir: Path, n: string)
    requires WellFormed(PathExpr(true, dir)) && IsComponent(n)
    ensures var s := Parse(Format(PathExpr(true, dir + [n])));
      s == PathExpr(true, dir + [n]) && Under(dir, s) && Name(s) == n
  {
    var src := PathExpr(true, dir + [n]);
    assert WellFormed(src) by {
      assert forall k :: 0 <= k < |dir| ==> src.parts[k] == dir[k];
    }
    ParseFormat(src);
    assert src.parts[..|dir|] == dir;
  }

  /** Destination directories are well formed, and so is a file name joined to them. */
  lemma DestDirWellFormed(c: Category)
    ensures WellFormed(DestDir(c))
    ensures forall n :: IsComponent(n) ==> WellFormed(Child(DestDir(c), n))
  {
  }

  /** A path under a subdirectory `name` of `dir` that is not pruned is
      under `dir`. */
  lemma UnderParent(dir: Path, name: string, s: PathExpr)
    requires !ShouldSkipDir(name) && Under(dir + [name], s)
    ensures Under(dir, s)
  {
    assert s.parts[..|dir|] == (dir + [name])[..|dir|] == dir;
    assert s.parts[|dir|] == (dir + [name])[|dir|] == name;
  }

  lemma PlanFilesSound(dir: Path, fs: seq<Entry>)
    requires WellFormed(PathExpr(true, dir))
    requires forall k :: 0 <= k < |fs| ==> fs[k].File? && IsComponent(fs[k].name)
    ensures forall k :: 0 <= k < |PlanFiles(dir, fs)| ==> PlannedFrom(dir, PlanFiles(dir, fs)[k])
  {
    var plan := PlanOf(dir);
    forall k | 0 <= k < |fs| && plan(fs[k]).Some?
      ensures PlannedFrom(dir, plan(fs[k]).value)
    {
      PlannedMoveFrom(dir, fs[k]);
    }
    CollectSound(fs, plan, m => PlannedFrom(dir, m));
  }

  /** What holds of every move `plan` gives holds of every collected move. */
  lemma {:induction false} CollectSound(fs: seq<Entry>, plan: Entry -> Option<Move>, ok: Move -> bool)
    requires forall k :: 0 <= k < |fs| && plan(fs[k]).Some? ==> ok(plan(fs[k]).value)
    ensures forall k :: 0 <= k < |Collect(fs, plan)| ==> ok(Collect(fs, plan)[k])
  {
    if fs != [] {
      var init := fs[..|fs| - 1];
      assert forall k :: 0 <= k < |init| ==> init[k] == fs[k];
      CollectSound(init, plan, ok);
    }
  }

  /** Every move of the walk satisfies `PlannedFrom`: pruned directories are
      never visited, hidden files are skipped, and each destination is the
      category's directory joined with the unchanged file name. */
  lemma {:induction false} WalkSound(dir: Path, es: seq<Entry>)
    requires WellFormed(PathExpr(true, dir)) && WellNamed(es)
    ensures forall k :: 0 <= k < |Walk(dir, es)| ==> PlannedFrom(dir, Walk(dir, es)[k])
    decreases es, 1
  {
    var fs := FileNames(es);
    PlanFilesSound(dir, fs);
    SubWalksSound(dir, es, Kept(DirNames(es)));
  }

  lemma {:induction false} SubWalksSound(dir: Path, es: seq<Entry>, ds: seq<Entry>)
    requires WellFormed(PathExpr(true, dir)) && WellNamed(es)
    requires forall k :: 0 <= k < |ds| ==> ds[k] in es && ds[k].Dir? && !ShouldSkipDir(ds[k].name)
    ensures forall k :: 0 <= k < |SubWalks(dir, es, ds)| ==> PlannedFrom(dir, SubWalks(dir, es, ds)[k])
    decreases es, 0, |ds|
  {
    if ds != [] {
      var d := ds[|ds| - 1];
      SubWalksSound(dir, es, ds[..|ds| - 1]);
      if !d.link {
        var sub := dir + [d.name];
        assert WellFormed(PathExpr(true, sub)) by {
          assert forall k :: 0 <= k < |dir| ==> sub[k] == dir[k];
        }
        WalkSound(sub, d.entries);
        var w := Walk(sub, d.entries);
        forall k | 0 <= k < |w|
          ensures PlannedFrom(dir, w[k])
        {
          UnderParent(dir, d.name, Parse(w[k].src));
        }
      }
    }
  }

  /** Every file of the directory being walked that is not hidden and is
      classified gets its move. */
  lemma {:induction false} PlanFilesComplete(dir: Path, fs: seq<Entry>, i: nat)
    requires forall k :: 0 <= k < |fs| ==> fs[k].File?
    requires i < |fs| && PlannedMove(dir, fs[i]).Some?
    ensures PlannedMove(dir, fs[i]).value in PlanFiles(dir, fs)
  {
    assert PlanOf(dir)(fs[i]) == PlannedMove(dir, fs[i]);
    CollectComplete(fs, PlanOf(dir), i);
  }

  lemma {:induction false} CollectComplete(fs: seq<Entry>, plan: Entry -> Option<Move>, i: nat)
    requires i < |fs| && plan(fs[i]).Some?
    ensures plan(fs[i]).value in Collect(fs, plan)
  {
    if i < |fs| - 1 {
      assert fs[..|fs| - 1][i] == fs[i];
      CollectComplete(fs[..|fs| - 1], plan, i);
    }
  }


  /** The walk of a directory plans every file of its listing that is not
      hidden and is classified. */
  lemma WalkPlansFile(dir: Path, es: seq<Entry>, i: nat)
    requires i < |FileNames(es)| && PlannedMove(dir, FileNames(es)[i]).Some?
    ensures PlannedMove(dir, FileNames(es)[i]).value in Walk(dir, es)
  {
    PlanFilesComplete(dir, FileNames(es), i);
  }

  lemma {:induction false} SubWalksComplete(dir: Path, es: seq<Entry>, ds: seq<Entry>, i: nat, m: Move)
    requires forall k :: 0 <= k < |ds| ==> ds[k] in es && ds[k].Dir?
    requires i < |ds| && !ds[i].link && m in Walk(dir + [ds[i].name], ds[i].entries)
    ensures m in SubWalks(dir, es, ds)
  {
    if i < |ds| - 1 {
      SubWalksComplete(dir, es, ds[..|ds| - 1], i, m);
    }
  }

  /** The walk descends into every subdirectory that survives pruning and is
      not a symbolic link: all the moves planned there are planned. */
  lemma WalkDescends(dir: Path, es: seq<Entry>, i: nat, m: Move)
    requires i < |Kept(DirNames(es))|
    requires var d := Kept(DirNames(es))[i]; !d.link && m in Walk(dir + [d.name], d.entries)
    ensures m in Walk(dir, es)
  {
    SubWalksComplete(dir, es, Kept(DirNames(es)), i, m);
  }

  lemma SubWalksSnoc(dir: Path, es: seq<Entry>, ds: seq<Entry>, i: nat)
    requires forall k :: 0 <= k < |ds| ==> ds[k] in es && ds[k].Dir?
    requires i < |ds|
    ensures SubWalks(dir, es, ds[..i + 1]) ==
      SubWalks(dir, es, ds[..i]) + (if ds[i].link then [] else Walk(dir + [ds[i].name], ds[i].entries))
  {
    assert ds[..i + 1][..i] == ds[..i];
  }

  /** One iteration of the file loop: skip a hidden file, ask `classify`,
      and plan `dest_dir / fname`. */
  method PlanFile(dir: Path, e: Entry) returns (planned: Option<Move>)
    requires e.File?
    ensures planned == PlannedMove(dir, e)
  {
    var src := PathExpr(true, dir + [e.name]);
    if IsHidden(Name(src)) {
      return None;
    }
    var result := Classify(Name(src), e.isFile);
    if result.None? {
      return None;
    }
    var destDir := result.value.1;
    return Some(Move(Format(src), Format(Child(destDir, e.name))));
  }

  /** `plan_moves` for the directory `dir` with listing `es`: prune
      `dirnames`, plan the files, then let the walk descend; the recursion
      replays the order in which `os.walk` visits the directories that
      survive pruning. */
  method PlanDir(dir: Path, es: seq<Entry>) returns (moves: seq<Move>)
    ensures moves == Walk(dir, es)
    decreases es, 1
  {
    var kept := Prune(DirNames(es));
    KeptInListing(es);
    var own := PlanFileList(dir, FileNames(es));
    var below := PlanSubdirs(dir, es, kept);
    moves := own + below;
  }

  /** The descent into the directories `ds` of the listing `es` that survive
      pruning, in order, skipping symbolic links. */
  method PlanSubdirs(dir: Path, es: seq<Entry>, ds: seq<Entry>) returns (moves: seq<Move>)
    requires forall k :: 0 <= k < |ds| ==> ds[k] in es && ds[k].Dir?
    ensures moves == SubWalks(dir, es, ds)
    decreases es, 0
  {
    moves := [];
    var i := 0;
    while i < |ds|
      invariant 0 <= i <= |ds| && moves == SubWalks(dir, es, ds[..i])
    {
      SubWalksSnoc(dir, es, ds, i);
      if !ds[i].link {
        var sub := PlanDir(dir + [ds[i].name], ds[i].entries);
        moves := moves + sub;
      }
      i := i + 1;
    }
    assert ds[..i] == ds;
  }

  /** The directories kept by pruning are directories of the listing. */
  lemma KeptInListing(es: seq<Entry>)
    ensures forall k :: 0 <= k < |Kept(DirNames(es))| ==> Kept(DirNames(es))[k] in es && Kept(DirNames(es))[k].Dir?
  {
  }

  /** The pruning loop: the directories that `should_skip_dir` names are
      removed from `dirnames`, the others stay in order. */
  method Prune(dirnames: seq<Entry>) returns (kept: seq<Entry>)
    ensures kept == Kept(dirnames)
  {
    kept := [];
    var i := 0;
    while i < |dirnames|
      invariant 0 <= i <= |dirnames| && kept == Kept(dirnames[..i])
    {
      assert dirnames[..i + 1][..i] == dirnames[..i];
      if !ShouldSkipDir(dirnames[i].name) {
        kept := kept + [dirnames[i]];
      }
      i := i + 1;
    }
    assert dirnames[..i] == dirnames;
  }

  /** The file loop of one walk step. */
  method PlanFileList(dir: Path, filenames: seq<Entry>) returns (moves: seq<Move>)
    requires forall k :: 0 <= k < |filenames| ==> filenames[k].File?
    ensures moves == PlanFiles(dir, filenames)
  {
    moves := [];
    var i := 0;
    while i < |filenames|
      invariant 0 <= i <= |filenames| && moves == PlanFiles(dir, filenames[..i])
    {
      assert filenames[..i + 1][..i] == filenames[..i];
      var planned := PlanFile(dir, filenames[i]);
      assert PlanOf(dir)(filenames[i]) == planned;
      if planned.Some? {
        moves := moves + [planned.value];
      }
      i := i + 1;
    }
    assert filenames[..i] == filenames;
  }
}
