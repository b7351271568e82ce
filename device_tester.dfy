/** The pure scoring rules of the device compatibility tester: grades,
    critical issues, the report's top devices and counts, the device category,
    and the viewport and touch-target scores. Readings of the page (media
    queries, element sizes, meta tags) are inputs. */
module DeviceTester {
  import opened Wrappers
  import opened Text
  import opened Numbers

  /** One test's outcome, under the test's name. */
  datatype TestResult = TestResult(description: string, passed: bool, score: real)

  datatype Severity = High | Medium

  datatype Issue = Issue(test: string, score: real, description: string, severity: Severity)

  /** `calculateGrade`. */
  function CalculateGrade(score: real): (r: string)
    ensures r in Grades
  {
    if score >= 95.0 then "A+"
    else if score >= 90.0 then "A"
    else if score >= 85.0 then "A-"
    else if score >= 80.0 then "B+"
    else if score >= 75.0 then "B"
    else if score >= 70.0 then "B-"
    else if score >= 65.0 then "C+"
    else if score >= 60.0 then "C"
    else if score >= 55.0 then "C-"
    else if score >= 50.0 then "D"
    else "F"
  }

  /** The grades from worst to best. */
  const Grades: seq<string> := ["F", "D", "C-", "C", "C+", "B-", "B", "B+", "A-", "A", "A+"]

  /** The cutoffs, lowest first: grade `Grades[k]` needs `Cutoffs[k - 1]`. */
  const Cutoffs: seq<real> := [50.0, 55.0, 60.0, 65.0, 70.0, 75.0, 80.0, 85.0, 90.0, 95.0]

  /** The number of cutoffs from `i` on that `score` reaches. */
  function Reached(score: real, i: nat): nat
    requires i <= |Cutoffs|
    decreases |Cutoffs| - i
  {
    if i == |Cutoffs| then 0 else (if score >= Cutoffs[i] then 1 else 0) + Reached(score, i + 1)
  }

  /** The grade is the one whose rank is the number of cutoffs reached. */
  lemma GradeByCutoffs(score: real)
    ensures CalculateGrade(score) == Grades[Reached(score, 0)]
  {
    assert Reached(score, 10) == 0;
    assert Reached(score, 9) == (if score >= 95.0 then 1 else 0) + Reached(score, 10);
    assert Reached(score, 8) == (if score >= 90.0 then 1 else 0) + Reached(score, 9);
    assert Reached(score, 7) == (if score >= 85.0 then 1 else 0) + Reached(score, 8);
    assert Reached(score, 6) == (if score >= 80.0 then 1 else 0) + Reached(score, 7);
    assert Reached(score, 5) == (if score >= 75.0 then 1 else 0) + Reached(score, 6);
    assert Reached(score, 4) == (if score >= 70.0 then 1 else 0) + Reached(score, 5);
    assert Reached(score, 3) == (if score >= 65.0 then 1 else 0) + Reached(score, 4);
    assert Reached(score, 2) == (if score >= 60.0 then 1 else 0) + Reached(score, 3);
    assert Reached(score, 1) == (if score >= 55.0 then 1 else 0) + Reached(score, 2);
    assert Reached(score, 0) == (if score >= 50.0 then 1 else 0) + Reached(score, 1);
  }

  /** A higher score never gets a lower grade. */
  lemma GradeMonotone(s1: real, s2: real)
    requires s1 <= s2
    ensures Reached(s1, 0) <= Reached(s2, 0)
    ensures CalculateGrade(s1) == Grades[Reached(s1, 0)] && CalculateGrade(s2) == Grades[Reached(s2, 0)]
  {
    ReachedMonotone(s1, s2, 0);
    GradeByCutoffs(s1);
    GradeByCutoffs(s2);
  }

  lemma {:induction false} ReachedMonotone(s1: real, s2: real, i: nat)
    requires s1 <= s2 && i <= |Cutoffs|
    ensures Reached(s1, i) <= Reached(s2, i)
    decreases |Cutoffs| - i
  {
    if i < |Cutoffs| {
      ReachedMonotone(s1, s2, i + 1);
    }
  }

  /** What `identifyCriticalIssues` collects from a suite, in suite order. */
  function CriticalIssues(suite: seq<(string, TestResult)>): seq<Issue> {
    if suite == [] then []
    else
      var init := CriticalIssues(suite[..|suite| - 1]);
      var (name, r) := suite[|suite| - 1];
      if !r.passed && r.score < 50.0 then
        init + [IssueFor(name, r)]
      else init
  }

  /** The failed tests scoring below 50; severity high exactly below 30. */
  predicate Critical(r: TestResult) {
    !r.passed && r.score < 50.0
  }

  /** The issue pushed for a critical test. */
  function IssueFor(name: string, r: TestResult): Issue {
    Issue(name, r.score, r.description, if r.score < 30.0 then High else Medium)
  }

  /** Every issue is the issue of a critical test of the suite, and its
      severity is high exactly below 30. */
  lemma {:induction false} CriticalIssuesSound(suite: seq<(string, TestResult)>)
    ensures |CriticalIssues(suite)| <= |suite|
    ensures forall iss :: iss in CriticalIssues(suite) ==>
      exists k :: 0 <= k < |suite| && Critical(suite[k].1) && iss == IssueFor(suite[k].0, suite[k].1)
  {
    if suite != [] {
      var init := suite[..|suite| - 1];
      CriticalIssuesSound(init);
      forall iss | iss in CriticalIssues(suite)
        ensures exists k :: 0 <= k < |suite| && Critical(suite[k].1) && iss == IssueFor(suite[k].0, suite[k].1)
      {
        if iss in CriticalIssues(init) {
          var k :| 0 <= k < |init| && Critical(init[k].1) && iss == IssueFor(init[k].0, init[k].1);
          assert suite[k] == init[k];
        } else {
          assert iss == IssueFor(suite[|suite| - 1].0, suite[|suite| - 1].1);
        }
      }
    }
  }

  /** Every critical test of the suite has its issue listed. */
  lemma {:induction false} CriticalIssuesComplete(suite: seq<(string, TestResult)>, k: nat)
    requires k < |suite| && Critical(suite[k].1)
    ensures IssueFor(suite[k].0, suite[k].1) in CriticalIssues(suite)
  {
    var init := suite[..|suite| - 1];
    if k < |init| {
      assert suite[k] == init[k];
      CriticalIssuesComplete(init, k);
    }
  }

  /** The severity rule. */
  lemma IssueSeverity(name: string, r: TestResult)
    ensures IssueFor(name, r).severity == High <==> r.score < 30.0
  {
  }

  /** `identifyCriticalIssues`: the `forEach` that pushes one issue per
      critical test. */
  method IdentifyCriticalIssues(suite: seq<(string, TestResult)>) returns (issues: seq<Issue>)
    ensures issues == CriticalIssues(suite)
  {
    issues := [];
    var i := 0;
    while i < |suite|
      invariant 0 <= i <= |suite| && issues == CriticalIssues(suite[..i])
    {
      assert suite[..i + 1][..i] == suite[..i];
      var (name, r) := suite[i];
      if !r.passed && r.score < 50.0 {
        issues := issues + [Issue(name, r.score, r.description, if r.score < 30.0 then High else Medium)];
      }
      i := i + 1;
    }
    assert suite[..i] == suite;
  }

  /** The number of tests in a device's suite. */
  const SuiteSize := 16

  /** `Math.round((passed / total) * 100)` for the device's suite of 16 tests,
      where the quotient is exact. */
  function DeviceScore(passed: nat): (s: int)
    requires passed <= SuiteSize
    ensures 0 <= s <= 100
  {
    (200 * passed + SuiteSize) / (2 * SuiteSize)
  }

  /** The score is the percentage of passed tests rounded to nearest (halves
      up), within 0..100, and more passed tests never lower it. */
  lemma DeviceScoreFacts(p1: nat, p2: nat)
    requires p1 <= p2 <= SuiteSize
    ensures 2 * SuiteSize * DeviceScore(p1) <= 200 * p1 + SuiteSize < 2 * SuiteSize * (DeviceScore(p1) + 1)
    ensures 0 <= DeviceScore(p1) <= DeviceScore(p2) <= 100
    ensures DeviceScore(SuiteSize) == 100 && DeviceScore(0) == 0
  {
  }

  /** A device's entry in the report. A score or a list missing from the
      result is None. */
  datatype DeviceResult = DeviceResult(score: Option<real>, grade: Option<string>,
                                       criticalIssues: Option<seq<Issue>>,
                                       recommendations: Option<seq<string>>)

  /** `result.score || 0`. */
  function ScoreOr0(r: DeviceResult): real {
    if r.score.Some? then r.score.value else 0.0
  }

  /** Non-increasing by score. */
  predicate SortedDown(s: seq<(string, DeviceResult)>) {
    forall i, j :: 0 <= i < j < |s| ==> ScoreOr0(s[j].1) <= ScoreOr0(s[i].1)
  }

  /** Places `x`, which came before everything in `s`, in front of the first
      entry that does not score higher, as a stable sort does. */
  function Insert(x: (string, DeviceResult), s: seq<(string, DeviceResult)>): (r: seq<(string, DeviceResult)>)
    ensures multiset(r) == multiset(s) + multiset{x}
    ensures |r| == |s| + 1
  {
    if s == [] || ScoreOr0(s[0].1) <= ScoreOr0(x.1) then [x] + s
    else
      assert s == [s[0]] + s[1..];
      [s[0]] + Insert(x, s[1..])
  }

  lemma {:induction false} InsertSorted(x: (string, DeviceResult), s: seq<(string, DeviceResult)>)
    requires SortedDown(s)
    ensures SortedDown(Insert(x, s))
  {
    if s != [] && ScoreOr0(s[0].1) > ScoreOr0(x.1) {
      SortedDownTail(s);
      InsertSorted(x, s[1..]);
      InsertBelow(x, s[1..], ScoreOr0(s[0].1));
      SortedDownCons(s[0], Insert(x, s[1..]));
    } else {
      if s != [] {
        SortedDownTail(s);
      }
      SortedDownCons(x, s);
    }
  }

  /** Inserting an entry scoring at most `b` among entries scoring at most
      `b` gives entries scoring at most `b`. */
  lemma {:induction false} InsertBelow(x: (string, DeviceResult), s: seq<(string, DeviceResult)>, b: real)
    requires ScoreOr0(x.1) <= b && forall i :: 0 <= i < |s| ==> ScoreOr0(s[i].1) <= b
    ensures forall i :: 0 <= i < |Insert(x, s)| ==> ScoreOr0(Insert(x, s)[i].1) <= b
  {
    if s != [] && ScoreOr0(s[0].1) > ScoreOr0(x.1) {
      assert forall i :: 0 <= i < |s| - 1 ==> s[1..][i] == s[i + 1];
      InsertBelow(x, s[1..], b);
    }
  }

  /** The tail of a list sorted by falling score is sorted, below its head. */
  lemma SortedDownTail(s: seq<(string, DeviceResult)>)
    requires s != [] && SortedDown(s)
    ensures SortedDown(s[1..])
    ensures forall i :: 1 <= i < |s| ==> ScoreOr0(s[i].1) <= ScoreOr0(s[0].1)
  {
    assert forall i :: 0 <= i < |s| - 1 ==> s[1..][i] == s[i + 1];
  }

  /** A head scoring at least every element of a sorted list keeps it sorted. */
  lemma SortedDownCons(h: (string, DeviceResult), t: seq<(string, DeviceResult)>)
    requires SortedDown(t) && forall i :: 0 <= i < |t| ==> ScoreOr0(t[i].1) <= ScoreOr0(h.1)
    ensures SortedDown([h] + t)
  {
    var r := [h] + t;
    assert forall i :: 1 <= i < |r| ==> r[i] == t[i - 1];
  }

  /** The entries sorted by score, highest first, ties in their original order. */
  function SortByScore(s: seq<(string, DeviceResult)>): (r: seq<(string, DeviceResult)>)
    ensures multiset(r) == multiset(s) && |r| == |s|
  {
    if s == [] then []
    else
      assert s == [s[0]] + s[1..];
      Insert(s[0], SortByScore(s[1..]))
  }

  lemma {:induction false} SortByScoreSorted(s: seq<(string, DeviceResult)>)
    ensures SortedDown(SortByScore(s))
  {
    if s != [] {
      SortByScoreSorted(s[1..]);
      InsertSorted(s[0], SortByScore(s[1..]));
    }
  }

  datatype TopDevice = TopDevice(name: string, score: Option<real>, grade: Option<string>)

  /** The `{ name, score, grade }` record listed for an entry. */
  function Listing(e: (string, DeviceResult)): TopDevice {
    TopDevice(e.0, e.1.score, e.1.grade)
  }

  /** The records listed for a sequence of entries, in its order. */
  function Listings(s: seq<(string, DeviceResult)>): (r: seq<TopDevice>)
    ensures |r| == |s| && forall k :: 0 <= k < |s| ==> r[k] == Listing(s[k])
  {
    seq(|s|, k requires 0 <= k < |s| => Listing(s[k]))
  }

  /** The entries `getTopPerformingDevices` lists: the first three by score. */
  function TopEntries(results: seq<(string, DeviceResult)>): seq<(string, DeviceResult)> {
    var sorted := SortByScore(results);
    sorted[..if |sorted| > 3 then 3 else |sorted|]
  }

  /** `getTopPerformingDevices`. */
  function TopPerformingDevices(results: seq<(string, DeviceResult)>): seq<TopDevice> {
    Listings(TopEntries(results))
  }

  /** A prefix of a sorted permutation of `results` is drawn from `results`
      and holds every entry scoring above its last one. */
  lemma PrefixIsBest(sorted: seq<(string, DeviceResult)>, results: seq<(string, DeviceResult)>, t: nat)
    requires SortedDown(sorted) && multiset(sorted) == multiset(results) && t <= |sorted|
    ensures multiset(sorted[..t]) <= multiset(results)
    ensures forall k :: 0 <= k < |results| && 0 < t && ScoreOr0(sorted[t - 1].1) < ScoreOr0(results[k].1) ==>
              results[k] in sorted[..t]
  {
    assert sorted == sorted[..t] + sorted[t..];
    forall k | 0 <= k < |results| && 0 < t && ScoreOr0(sorted[t - 1].1) < ScoreOr0(results[k].1)
      ensures results[k] in sorted[..t]
    {
      assert results[k] in multiset(sorted);
      var m :| 0 <= m < |sorted| && sorted[m] == results[k];
      if m >= t {
        assert false;
      }
      assert sorted[..t][m] == results[k];
    }
  }

  /** At most three devices, best first, listed from entries drawn from the
      results without repeating any, and every result scoring above the last
      entry listed is listed: the best three. */
  lemma TopDevicesFacts(results: seq<(string, DeviceResult)>)
    ensures var top, chosen := TopPerformingDevices(results), TopEntries(results);
      && |top| == |chosen| == (if |results| > 3 then 3 else |results|)
      && (forall i :: 0 <= i < |top| ==> top[i] == Listing(chosen[i]))
      && (forall i, j :: 0 <= i < j < |top| ==> ScoreOf(top[j]) <= ScoreOf(top[i]))
      && multiset(chosen) <= multiset(results)
      && (forall k :: 0 <= k < |results| && chosen != [] && ScoreOr0(chosen[|chosen| - 1].1) < ScoreOr0(results[k].1) ==>
            results[k] in chosen)
  {
    var sorted := SortByScore(results);
    var t := if |sorted| > 3 then 3 else |sorted|;
    SortByScoreSorted(results);
    PrefixIsBest(sorted, results, t);
    ListedInOrder(sorted, t);
  }

  /** The records listed for a prefix of a sorted list are in score order. */
  lemma ListedInOrder(s: seq<(string, DeviceResult)>, t: nat)
    requires SortedDown(s) && t <= |s|
    ensures forall i, j :: 0 <= i < j < t ==> ScoreOf(Listings(s[..t])[j]) <= ScoreOf(Listings(s[..t])[i])
  {
  }

  /** `score || 0` of a listed device. */
  function ScoreOf(t: TopDevice): real {
    if t.score.Some? then t.score.value else 0.0
  }

  /** The best device of the results is listed first. */
  lemma TopDeviceIsBest(results: seq<(string, DeviceResult)>, k: nat)
    requires k < |results|
    ensures var top := TopPerformingDevices(results); top != [] && ScoreOr0(results[k].1) <= ScoreOf(top[0])
  {
    var sorted := SortByScore(results);
    SortByScoreSorted(results);
    assert results[k] in multiset(sorted);
    var m :| 0 <= m < |sorted| && sorted[m] == results[k];
  }

  /** The sum over devices of the lengths of a per-device list, a missing list
      counting as empty. */
  function CriticalIssuesCount(results: seq<DeviceResult>): nat {
    if results == [] then 0
    else
      CriticalIssuesCount(results[..|results| - 1])
      + (var r := results[|results| - 1]; if r.criticalIssues.Some? then |r.criticalIssues.value| else 0)
  }

  function RecommendationsCount(results: seq<DeviceResult>): nat {
    if results == [] then 0
    else
      RecommendationsCount(results[..|results| - 1])
      + (var r := results[|results| - 1]; if r.recommendations.Some? then |r.recommendations.value| else 0)
  }

  /** The counts are additive over the devices of the report. */
  lemma {:induction false} CountsAdditive(a: seq<DeviceResult>, b: seq<DeviceResult>)
    ensures CriticalIssuesCount(a + b) == CriticalIssuesCount(a) + CriticalIssuesCount(b)
    ensures RecommendationsCount(a + b) == RecommendationsCount(a) + RecommendationsCount(b)
    decreases |b|
  {
    if b == [] {
      assert a + b == a;
    } else {
      assert (a + b)[..|a + b| - 1] == a + b[..|b| - 1];
      CountsAdditive(a, b[..|b| - 1]);
    }
  }

  datatype Category = Mobile | Tablet | Desktop

  datatype Orientation = Landscape | Portrait

  /** `detectCurrentDevice`'s category and orientation. */
  function DeviceCategory(width: real): (c: Category)
    ensures c == Mobile <==> width <= 480.0
    ensures c == Tablet <==> 480.0 < width <= 1024.0
    ensures c == Desktop <==> width > 1024.0
  {
    if width <= 480.0 then Mobile else if width <= 1024.0 then Tablet else Desktop
  }

  function DeviceOrientation(width: real, height: real): (o: Orientation)
    ensures o == Landscape <==> width > height
  {
    if width > height then Landscape else Portrait
  }

  /** The viewport meta tag's content, when the tag exists, has the right
      settings. */
  predicate HasCorrectContent(meta: Option<string>) {
    meta.Some? && Contains(meta.value, "width=device-width") && Contains(meta.value, "initial-scale=1")
  }

  /** `checkZoomBehavior`. */
  predicate ZoomBehavior(meta: Option<string>) {
    meta.Some?
    && !Contains(meta.value, "user-scalable=no")
    && (!Contains(meta.value, "maximum-scale=1") || Contains(meta.value, "maximum-scale=5"))
  }

  datatype Scored = Scored(score: int, passed: bool)

  /** The viewport test's score: 25 for the tag, 25 for its content, 30 for
      a responding layout and 20 for zoom; it passes from 70. */
  method ViewportScore(meta: Option<string>, layoutResponds: bool) returns (r: Scored)
    ensures var checks := [meta.Some?, HasCorrectContent(meta), layoutResponds, ZoomBehavior(meta)];
      r.score == Weighted(checks, [25, 25, 30, 20]) && (r.passed <==> r.score >= 70)
  {
    var score := 0;
    if meta.Some? { score := score + 25; }
    if HasCorrectContent(meta) { score := score + 25; }
    if layoutResponds { score := score + 30; }
    if ZoomBehavior(meta) { score := score + 20; }
    WeightedFour(meta.Some?, HasCorrectContent(meta), layoutResponds, ZoomBehavior(meta));
    return Scored(score, score >= 70);
  }

  /** The sum of the weights of the checks that hold. */
  function Weighted(checks: seq<bool>, weights: seq<int>): int
    requires |checks| == |weights|
  {
    if checks == [] then 0
    else (if checks[0] then weights[0] else 0) + Weighted(checks[1..], weights[1..])
  }

  lemma WeightedFour(a: bool, b: bool, c: bool, d: bool)
    ensures Weighted([a, b, c, d], [25, 25, 30, 20]) ==
      (if a then 25 else 0) + (if b then 25 else 0) + (if c then 30 else 0) + (if d then 20 else 0)
  {
    assert [a, b, c, d][1..] == [b, c, d] && [25, 25, 30, 20][1..] == [25, 30, 20];
    assert [b, c, d][1..] == [c, d] && [25, 30, 20][1..] == [30, 20];
    assert [c, d][1..] == [d] && [30, 20][1..] == [20];
    assert Weighted([d], [20]) == (if d then 20 else 0) + Weighted([], []);
    assert Weighted([c, d], [30, 20]) == (if c then 30 else 0) + Weighted([d], [20]);
    assert Weighted([b, c, d], [25, 30, 20]) == (if b then 25 else 0) + Weighted([c, d], [30, 20]);
  }

  /** The viewport test passes exactly when at most one of its four checks
      fails. */
  lemma ViewportPassesIff(meta: Option<string>, layoutResponds: bool)
    ensures var checks := [meta.Some?, HasCorrectContent(meta), layoutResponds, ZoomBehavior(meta)];
      var failed := (if checks[0] then 0 else 1) + (if checks[1] then 0 else 1)
        + (if checks[2] then 0 else 1) + (if checks[3] then 0 else 1);
      Weighted(checks, [25, 25, 30, 20]) >= 70 <==> failed <= 1
  {
    WeightedFour(meta.Some?, HasCorrectContent(meta), layoutResponds, ZoomBehavior(meta));
  }

  /** The touch-target test. `size` is the device's minimum touch size (None
      for `null`), `targets` the measured width and height of each target.
      A score of None is `NaN` (no targets on a touch device). */
  datatype TouchTest = TouchTest(passed: bool, score: Option<int>)

  function Compliant(targets: seq<(real, real)>, size: real): nat {
    if targets == [] then 0
    else
      var (w, h) := targets[|targets| - 1];
      Compliant(targets[..|targets| - 1], size) + (if w >= size && h >= size then 1 else 0)
  }

  lemma {:induction false} CompliantBound(targets: seq<(real, real)>, size: real)
    ensures Compliant(targets, size) <= |targets|
  {
    if targets != [] {
      CompliantBound(targets[..|targets| - 1], size);
    }
  }

  /** `Math.round(rate)` and `rate >= 90` for the compliance rate
      `compliant / total * 100`. */
  function TouchTargets(size: Option<real>, targets: seq<(real, real)>): (t: TouchTest)
    ensures size.None? || size.value == 0.0 ==> t == TouchTest(true, Some(100))
  {
    if size.None? || size.value == 0.0 then TouchTest(true, Some(100))
    else if targets == [] then TouchTest(false, None)
    else
      var c := Compliant(targets, size.value);
      var rate := (c as real) * 100.0 / (|targets| as real);
      TouchTest(rate >= 90.0, Some((rate + 0.5).Floor))
  }

  /** On a touch device with targets the score is the rounded compliance
      percentage, within 0..100, and the test passes from 90 percent. */
  lemma TouchTargetsFacts(size: real, targets: seq<(real, real)>)
    requires size != 0.0 && targets != []
    ensures var t := TouchTargets(Some(size), targets);
      var c := Compliant(targets, size);
      && t.score.Some? && 0 <= t.score.value <= 100
      && 2 * |targets| * t.score.value <= 200 * c + |targets| < 2 * |targets| * (t.score.value + 1)
      && (t.passed <==> 10 * c >= 9 * |targets|)
  {
    CompliantBound(targets, size);
    var c := Compliant(targets, size);
    var n := |targets| as real;
    var x := (c as real) * 100.0;
    QuotientAtLeast(x, n, 90.0);
    QuotientAtLeast(x, n, 0.0);
    QuotientAtMost(x, n, 100.0);
    assert x <= 100.0 * n;
    RoundedRate(c, |targets|);
  }

  /** `Math.round(c / n * 100)` on the exact quotient is the nearest whole
      percentage, halves up. */
  lemma RoundedRate(c: nat, n: nat)
    requires n > 0
    ensures var sc := ((c as real) * 100.0 / (n as real) + 0.5).Floor;
      2 * n * sc <= 200 * c + n < 2 * n * (sc + 1)
  {
    RateHalfUp(c, n);
    FloorOfRatio(200 * c + n, 2 * n);
    DivBounds(200 * c + n, 2 * n);
  }

  /** Adding a half to `100 c / n` is taking `(200 c + n) / 2 n`. */
  lemma RateHalfUp(c: nat, n: nat)
    requires n > 0
    ensures (c as real) * 100.0 / (n as real) + 0.5 == ((200 * c + n) as real) / ((2 * n) as real)
  {
    var y := n as real;
    var x := (c as real) * 100.0;
    var k := (2 * n) as real;
    assert k == 2.0 * y;
    QuotientTimes(x, y);
    QuotientTimes((200 * c + n) as real, k);
    HalfUpScaled(x / y, y, x, k);
    assert (x / y + 0.5) * k == (200 * c + n) as real;
    Cancel(x / y + 0.5, ((200 * c + n) as real) / k, k);
  }

  lemma Cancel(a: real, b: real, k: real)
    requires k != 0.0 && a * k == b * k
    ensures a == b
  {
  }

  lemma QuotientTimes(x: real, y: real)
    requires y > 0.0
    ensures (x / y) * y == x
  {
  }

  lemma HalfUpScaled(q: real, y: real, x: real, k: real)
    requires q * y == x && k == 2.0 * y
    ensures (q + 0.5) * k == 2.0 * x + y
  {
  }

  /** The floor of an exact quotient of naturals is their integer quotient. */
  lemma FloorOfRatio(a: nat, b: nat)
    requires b > 0
    ensures ((a as real) / (b as real)).Floor == a / b
  {
    var t, r := a / b, a % b;
    var br := b as real;
    var f := (r as real) / br;
    assert a == b * t + r;
    CastProduct(b, t);
    assert (a as real) == (t as real) * br + (r as real);
    QuotientTimes(r as real, br);
    QuotientTimes(a as real, br);
    assert ((t as real) + f) * br == (t as real) * br + f * br;
    Cancel((a as real) / br, (t as real) + f, br);
    ScaleBelow(1.0, f, br);
    ScaleBelow(f, 0.0, br);
    assert 0.0 <= f < 1.0;
  }

  lemma CastProduct(m: nat, s: int)
    ensures (m * s) as real == (s as real) * (m as real)
  {
  }

  lemma DivBounds(a: nat, b: nat)
    requires b > 0
    ensures b * (a / b) <= a < b * (a / b + 1)
  {
  }

  lemma ScaleBelow(a: real, b: real, k: real)
    requires k > 0.0
    ensures a <= b ==> a * k <= b * k
    ensures a < b ==> a * k < b * k
  {
  }
}
