/** `summarize`: the number of planned moves per destination bucket. */
module OrganizerSummary {
  import opened Text
  import opened OrganizerPaths
  import opened OrganizerFs

  /** The keys of the dictionary `summarize` builds. */
  datatype BucketKey =
    | TestScripts | TestPages | TestStyles | TestData | TestResultsLogs
    | DocReports | DocGuides | DocMisc | Other

  /** The key as the program spells it. */
  function KeyName(k: BucketKey): string {
    match k
    case TestScripts => "test_scripts"
    case TestPages => "test_pages"
    case TestStyles => "test_styles"
    case TestData => "test_data"
    case TestResultsLogs => "test_results_logs"
    case DocReports => "doc_reports"
    case DocGuides => "doc_guides"
    case DocMisc => "doc_misc"
    case Other => "other"
  }

  lemma KeyListed(k: BucketKey)
    ensures k in BucketKeys
  {
    match k
    case TestScripts => assert BucketKeys[0] == k;
    case TestPages => assert BucketKeys[1] == k;
    case TestStyles => assert BucketKeys[2] == k;
    case TestData => assert BucketKeys[3] == k;
    case TestResultsLogs => assert BucketKeys[4] == k;
    case DocReports => assert BucketKeys[5] == k;
    case DocGuides => assert BucketKeys[6] == k;
    case DocMisc => assert BucketKeys[7] == k;
    case Other => assert BucketKeys[8] == k;
  }

  /** Every key, once each. */
  const BucketKeys: seq<BucketKey> := [
    TestScripts, TestPages, TestStyles, TestData, TestResultsLogs,
    DocReports, DocGuides, DocMisc, Other]

  /** The directory names `summarize` looks for, in order, with their keys. */
  const Patterns: seq<(string, BucketKey)> := [
    ("tests/scripts", TestScripts), ("tests/pages", TestPages), ("tests/styles", TestStyles),
    ("tests/data", TestData), ("tests/results/logs", TestResultsLogs),
    ("docs/reports", DocReports), ("docs/guides", DocGuides), ("docs/misc", DocMisc)]

  /** The bucket of a destination: the key of the first directory name its
      POSIX form contains, and `Other` when it contains none. */
  function Bucket(dst: string): BucketKey {
    FirstMatch(Format(Parse(dst)), 0)
  }

  function FirstMatch(posix: string, i: nat): (k: BucketKey)
    decreases |Patterns| - i
  {
    if i >= |Patterns| then Other
    else if Contains(posix, Patterns[i].0) then Patterns[i].1
    else FirstMatch(posix, i + 1)
  }

  /** The first match decides: the bucket is the key of pattern `j` when the
      POSIX form contains it and none before it, and `Other` when it contains
      none. */
  lemma {:induction false} FirstMatchIs(posix: string, i: nat, j: nat)
    requires i <= j <= |Patterns|
    requires forall k :: i <= k < j ==> !Contains(posix, Patterns[k].0)
    ensures j < |Patterns| && Contains(posix, Patterns[j].0) ==> FirstMatch(posix, i) == Patterns[j].1
    ensures j == |Patterns| ==> FirstMatch(posix, i) == Other
    decreases j - i
  {
    if i < j {
      FirstMatchIs(posix, i + 1, j);
    }
  }

  /** `counts.get(key, 0)`. */
  function Get(counts: map<BucketKey, nat>, key: BucketKey): nat {
    if key in counts then counts[key] else 0
  }

  /** The bucket of each move, in order. */
  function Buckets(moves: seq<Move>): (keys: seq<BucketKey>)
    ensures |keys| == |moves|
  {
    seq(|moves|, k requires 0 <= k < |moves| => Bucket(moves[k].dst))
  }

  /** The dictionary built by one increment per key, in order. */
  function Tally(keys: seq<BucketKey>): map<BucketKey, nat> {
    if keys == [] then map[]
    else
      var counts := Tally(keys[..|keys| - 1]);
      var key := keys[|keys| - 1];
      counts[key := Get(counts, key) + 1]
  }

  lemma TallyNext(keys: seq<BucketKey>, i: nat, counts: map<BucketKey, nat>)
    requires i < |keys| && counts == Tally(keys[..i])
    ensures Tally(keys[..i + 1]) == counts[keys[i] := Get(counts, keys[i]) + 1]
  {
    assert keys[..i + 1][..i] == keys[..i];
  }

  /** Each count is the number of occurrences of its key; a key is present
      exactly when it occurs. */
  lemma {:induction false} TallyCounts(keys: seq<BucketKey>, key: BucketKey)
    ensures Get(Tally(keys), key) == multiset(keys)[key]
    ensures key in Tally(keys) <==> key in keys
  {
    if keys != [] {
      var init := keys[..|keys| - 1];
      TallyCounts(init, key);
      assert keys == init + [keys[|keys| - 1]];
      assert multiset(keys) == multiset(init) + multiset{keys[|keys| - 1]};
    }
  }

  /** The sum of the counts of `keys`. */
  function Total(counts: map<BucketKey, nat>, keys: seq<BucketKey>): nat {
    if keys == [] then 0 else Get(counts, keys[0]) + Total(counts, keys[1..])
  }

  predicate Distinct<T(==)>(keys: seq<T>) {
    forall i, j :: 0 <= i < j < |keys| ==> keys[i] != keys[j]
  }

  /** One more for `key` raises the sum over distinct keys by one when `key`
      is among them. */
  lemma {:induction false} TotalBump(counts: map<BucketKey, nat>, keys: seq<BucketKey>, key: BucketKey)
    requires Distinct(keys)
    ensures Total(counts[key := Get(counts, key) + 1], keys) ==
      Total(counts, keys) + (if key in keys then 1 else 0)
  {
    if keys != [] {
      assert Distinct(keys[1..]) by {
        forall i, j | 0 <= i < j < |keys[1..]| ensures keys[1..][i] != keys[1..][j] {
          assert keys[1..][i] == keys[i + 1] && keys[1..][j] == keys[j + 1];
        }
      }
      assert key in keys[1..] ==> key != keys[0] by {
        if key in keys[1..] {
          var j :| 0 <= j < |keys[1..]| && keys[1..][j] == key;
          assert keys[j + 1] == key;
        }
      }
      assert key in keys <==> key == keys[0] || key in keys[1..];
      TotalBump(counts, keys[1..], key);
    }
  }

  lemma {:induction false} TotalEmpty(keys: seq<BucketKey>)
    ensures Total(map[], keys) == 0
  {
    if keys != [] {
      TotalEmpty(keys[1..]);
    }
  }

  /** The counts of all bucket keys add up to the number of keys tallied. */
  lemma {:induction false} TallyTotal(keys: seq<BucketKey>)
    ensures Total(Tally(keys), BucketKeys) == |keys|
  {
    if keys == [] {
      TotalEmpty(BucketKeys);
    } else {
      var init := keys[..|keys| - 1];
      TallyTotal(init);
      KeyListed(keys[|keys| - 1]);
      TotalBump(Tally(init), BucketKeys, keys[|keys| - 1]);
    }
  }

  /** What `summarize` returns: a count per bucket that is the number of moves
      whose destination falls in it, present only when positive, with all
      counts adding up to the number of moves. */
  lemma SummaryCounts(moves: seq<Move>, key: BucketKey)
    ensures Get(Tally(Buckets(moves)), key) == multiset(Buckets(moves))[key]
    ensures key in Tally(Buckets(moves)) <==> key in Buckets(moves)
    ensures Total(Tally(Buckets(moves)), BucketKeys) == |moves|
  {
    TallyCounts(Buckets(moves), key);
    TallyTotal(Buckets(moves));
  }

  /** `summarize`. */
  method Summarize(moves: seq<Move>) returns (counts: map<BucketKey, nat>)
    ensures counts == Tally(Buckets(moves))
  {
    ghost var keys := Buckets(moves);
    counts := map[];
    var i := 0;
    while i < |moves|
      invariant 0 <= i <= |moves| && counts == Tally(keys[..i])
    {
      var key := Bucket(moves[i].dst);
      assert key == keys[i];
      TallyNext(keys, i, counts);
      counts := counts[key := Get(counts, key) + 1];
      i := i + 1;
    }
    assert keys[..i] == keys;
  }
}
