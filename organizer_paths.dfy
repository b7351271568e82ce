/** Lexical paths as the organizer's `pathlib.Path` values handle them: a flag
    for a leading `/` and the list of non-empty components, with `.` components
    and repeated separators dropped. */
module OrganizerPaths {
  import opened Text

  datatype PathExpr = PathExpr(absolute: bool, parts: seq<string>)

  /** A component `pathlib` can hold: not empty, not `.`, no separator. */
  predicate IsComponent(n: string) {
    n != "" && n != "." && '/' !in n
  }

  predicate WellFormed(p: PathExpr) {
    forall k :: 0 <= k < |p.parts| ==> IsComponent(p.parts[k])
  }

  /** The components that survive `Path(s)`: empty pieces and `.` are dropped. */
  function Components(pieces: seq<string>): seq<string> {
    if pieces == [] then []
    else if pieces[0] == "" || pieces[0] == "." then Components(pieces[1..])
    else [pieces[0]] + Components(pieces[1..])
  }

  /** The survivors are pieces; they are components when no piece holds a
      separator, and nothing is dropped when every piece is a component. */
  lemma {:induction false} ComponentsFacts(pieces: seq<string>)
    ensures forall k :: 0 <= k < |Components(pieces)| ==> Components(pieces)[k] in pieces
    ensures (forall k :: 0 <= k < |pieces| ==> '/' !in pieces[k]) ==>
              forall k :: 0 <= k < |Components(pieces)| ==> IsComponent(Components(pieces)[k])
    ensures (forall k :: 0 <= k < |pieces| ==> IsComponent(pieces[k])) ==> Components(pieces) == pieces
  {
    if pieces != [] {
      ComponentsFacts(pieces[1..]);
      assert forall k :: 0 <= k < |pieces[1..]| ==> pieces[1..][k] == pieces[k + 1];
    }
  }

  /** `Path(s)`. */
  function Parse(s: string): PathExpr {
    PathExpr(|s| > 0 && s[0] == '/', Components(Split(s, '/')))
  }

  /** `Path(s)` holds components only. */
  lemma ParseWellFormed(s: string)
    ensures WellFormed(Parse(s))
  {
    SplitPieces(s, '/');
    ComponentsFacts(Split(s, '/'));
  }

  /** `str(p)`, which is also `p.as_posix()` on a POSIX system. */
  function Format(p: PathExpr): string {
    if p.absolute then "/" + Join(p.parts, '/')
    else if p.parts == [] then "."
    else Join(p.parts, '/')
  }

  /** Parsing the text of a well-formed path gives the path back. */
  lemma ParseFormat(p: PathExpr)
    requires WellFormed(p)
    ensures Parse(Format(p)) == p
  {
    var j := Join(p.parts, '/');
    if p.parts != [] {
      JoinSplitPieces(p.parts, '/');
      ComponentsFacts(p.parts);
    }
    if p.absolute {
      FirstIndexAfterPiece("", '/', j);
      assert ("/" + j)[1..] == j;
      assert Split("/" + j, '/') == [""] + Split(j, '/');
      assert ([""] + Split(j, '/'))[1..] == Split(j, '/');
      assert Components([""] + Split(j, '/')) == Components(Split(j, '/'));
    } else if p.parts != [] {
      assert IsComponent(p.parts[0]);
      assert j[0] == p.parts[0][0] != '/';
    } else {
      assert '/' !in ".";
      assert Components(["."]) == [];
    }
  }

  /** Every path built by `Path(s)` is printed back as a string that parses to it. */
  lemma ParseFormatParse(s: string)
    ensures Parse(Format(Parse(s))) == Parse(s)
  {
    ParseWellFormed(s);
    ParseFormat(Parse(s));
  }

  /** `p.name`. */
  function Name(p: PathExpr): string {
    if p.parts == [] then "" else p.parts[|p.parts| - 1]
  }

  /** `p.parent`: the path without its last component (the path itself when it
      has none). */
  function Parent(p: PathExpr): (r: PathExpr)
    ensures r.absolute == p.absolute
    ensures |p.parts| > 0 ==> p.parts == r.parts + [Name(p)]
    ensures |p.parts| == 0 ==> r == p
  {
    if p.parts == [] then p else PathExpr(p.absolute, p.parts[..|p.parts| - 1])
  }

  /** `p / n` for a single component `n`. */
  function Child(p: PathExpr, n: string): (r: PathExpr)
    ensures Name(r) == n && Parent(r) == p
  {
    PathExpr(p.absolute, p.parts + [n])
  }

  /** `name.rfind('.')`. */
  function LastDot(name: string): (i: int)
    ensures -1 <= i < |name|
    ensures i >= 0 ==> name[i] == '.'
    ensures forall k :: i < k < |name| ==> name[k] != '.'
  {
    if name == [] then -1
    else if name[|name| - 1] == '.' then |name| - 1
    else LastDot(name[..|name| - 1])
  }

  /** The last dot is the one with no dot after it. */
  lemma {:induction false} LastDotAt(name: string, i: nat)
    requires i < |name| && name[i] == '.' && '.' !in name[i + 1..]
    ensures LastDot(name) == i
  {
    if i < |name| - 1 {
      assert name[|name| - 1] == name[i + 1..][|name| - 2 - i];
      assert name[..|name| - 1][i + 1..] == name[i + 1..|name| - 1];
      LastDotAt(name[..|name| - 1], i);
    }
  }

  /** Whether `pathlib` sees a suffix: a last dot that is neither the first nor
      the last character. */
  predicate HasSuffix(name: string) {
    var i := LastDot(name);
    0 < i < |name| - 1
  }

  /** `p.suffix` for a path whose name is `name`. */
  function Suffix(name: string): (r: string)
    ensures r == "" || (r[0] == '.' && '.' !in r[1..] && |r| >= 2)
  {
    if HasSuffix(name) then name[LastDot(name)..] else ""
  }

  /** `p.stem` for a path whose name is `name`. */
  function Stem(name: string): string {
    if HasSuffix(name) then name[..LastDot(name)] else name
  }

  /** The stem and the suffix put together give back the name. */
  lemma StemSuffix(name: string)
    ensures Stem(name) + Suffix(name) == name
  {
  }

  /** Lower-casing commutes with taking the suffix (dots are not letters). */
  lemma {:induction false} LastDotLower(name: string)
    ensures LastDot(Lower(name)) == LastDot(name)
  {
    if name != [] {
      assert Lower(name)[..|name| - 1] == Lower(name[..|name| - 1]);
      LastDotLower(name[..|name| - 1]);
    }
  }

  lemma SuffixLower(name: string)
    ensures Suffix(Lower(name)) == Lower(Suffix(name))
  {
    LastDotLower(name);
    if HasSuffix(name) {
      assert Lower(name)[LastDot(name)..] == Lower(name[LastDot(name)..]);
    }
  }

  /** Resolves a path against the process working directory `cwd` (an absolute
      list of components). */
  function Resolve(cwd: seq<string>, p: PathExpr): seq<string> {
    if p.absolute then p.parts else cwd + p.parts
  }

  /** The lexical part of `Path.resolve()`: each `..` takes away the component
      before it, and at the top of the tree it takes away nothing (the parent
      of `/` is `/`). */
  function Normalize(parts: seq<string>): (r: seq<string>)
    ensures |r| <= |parts|
    ensures forall k :: 0 <= k < |r| ==> r[k] != ".." && r[k] in parts
    decreases |parts|
  {
    if parts == [] then []
    else
      var init := Normalize(parts[..|parts| - 1]);
      var last := parts[|parts| - 1];
      if last != ".." then init + [last]
      else if init == [] then []
      else init[..|init| - 1]
  }

  /** A path without `..` is its own normal form. */
  lemma {:induction false} NormalizePlain(parts: seq<string>)
    requires forall k :: 0 <= k < |parts| ==> parts[k] != ".."
    ensures Normalize(parts) == parts
    decreases |parts|
  {
    if parts != [] {
      NormalizePlain(parts[..|parts| - 1]);
    }
  }

  /** Normalizing twice is normalizing once. */
  lemma NormalizeIdempotent(parts: seq<string>)
    ensures Normalize(Normalize(parts)) == Normalize(parts)
  {
    NormalizePlain(Normalize(parts));
  }

  /** A component followed by `..` cancels out. */
  lemma NormalizeUp(parts: seq<string>, n: string)
    requires n != ".."
    ensures Normalize(parts + [n, ".."]) == Normalize(parts)
  {
    var q := parts + [n, ".."];
    assert q[..|q| - 1] == parts + [n];
    assert (parts + [n])[..|parts|] == parts;
    assert (Normalize(parts) + [n])[..|Normalize(parts)|] == Normalize(parts);
  }
}
