/** The statistics, grading, recommendations and clean-up of the animation
    performance tester. Samples are reals; the measuring itself is not
    modelled. */
module PerfTester {
  import opened Wrappers
  import opened Text
  import opened Numbers

  /** `array.reduce((a, b) => a + b, 0)`. */
  function Sum(a: seq<real>): real {
    if a == [] then 0.0 else Sum(a[..|a| - 1]) + a[|a| - 1]
  }

  /** `calculateAverage`. */
  function Average(a: seq<real>): real {
    if |a| > 0 then Sum(a) / (|a| as real) else 0.0
  }

  /** `Math.min(...a)` of a non-empty list. */
  function Min(a: seq<real>): real
    requires a != []
  {
    if |a| == 1 then a[0]
    else
      var m := Min(a[1..]);
      if a[0] < m then a[0] else m
  }

  /** `Math.max(...a)` of a non-empty list. */
  function Max(a: seq<real>): real
    requires a != []
  {
    if |a| == 1 then a[0]
    else
      var m := Max(a[1..]);
      if a[0] > m then a[0] else m
  }

  /** `Min` is a sample that no sample is below. */
  lemma {:induction false} MinIsLeast(a: seq<real>)
    requires a != []
    ensures Min(a) in a
    ensures forall i :: 0 <= i < |a| ==> Min(a) <= a[i]
  {
    if |a| > 1 {
      MinIsLeast(a[1..]);
      assert forall i :: 1 <= i < |a| ==> a[i] == a[1..][i - 1];
    }
  }

  /** `Max` is a sample that no sample is above. */
  lemma {:induction false} MaxIsGreatest(a: seq<real>)
    requires a != []
    ensures Max(a) in a
    ensures forall i :: 0 <= i < |a| ==> a[i] <= Max(a)
  {
    if |a| > 1 {
      MaxIsGreatest(a[1..]);
      assert forall i :: 1 <= i < |a| ==> a[i] == a[1..][i - 1];
    }
  }

  lemma {:induction false} SumBounds(a: seq<real>, lo: real, hi: real)
    requires forall i :: 0 <= i < |a| ==> lo <= a[i] <= hi
    ensures (|a| as real) * lo <= Sum(a) <= (|a| as real) * hi
  {
    if a != [] {
      var init := a[..|a| - 1];
      assert forall i :: 0 <= i < |init| ==> init[i] == a[i];
      SumBounds(init, lo, hi);
      var n := |init| as real;
      assert (|a| as real) * lo == n * lo + lo;
      assert (|a| as real) * hi == n * hi + hi;
    }
  }

  /** The average of a non-empty list lies between its minimum and maximum;
      the average of no samples is 0. */
  lemma AverageBetween(a: seq<real>)
    ensures a == [] ==> Average(a) == 0.0
    ensures a != [] ==> Min(a) <= Average(a) <= Max(a)
  {
    if a != [] {
      AverageAboveMin(a);
      AverageBelowMax(a);
    }
  }

  lemma AverageAboveMin(a: seq<real>)
    requires a != []
    ensures Min(a) <= Average(a)
  {
    var n, lo, hi, t := |a| as real, Min(a), Max(a), Sum(a);
    assert n * lo <= t by {
      MinIsLeast(a);
      MaxIsGreatest(a);
      SumBounds(a, lo, hi);
    }
    QuotientAtLeast(t, n, lo);
  }

  lemma AverageBelowMax(a: seq<real>)
    requires a != []
    ensures Average(a) <= Max(a)
  {
    var n, lo, hi, t := |a| as real, Min(a), Max(a), Sum(a);
    assert t <= n * hi by {
      MinIsLeast(a);
      MaxIsGreatest(a);
      SumBounds(a, lo, hi);
    }
    QuotientAtMost(t, n, hi);
  }

  predicate Ascending(s: seq<real>) {
    forall i, j :: 0 <= i < j < |s| ==> s[i] <= s[j]
  }

  /** Inserts `x` into an ascending list. */
  function InsertAsc(x: real, s: seq<real>): (r: seq<real>)
    ensures multiset(r) == multiset(s) + multiset{x} && |r| == |s| + 1
  {
    if s == [] || x <= s[0] then [x] + s
    else
      assert s == [s[0]] + s[1..];
      [s[0]] + InsertAsc(x, s[1..])
  }

  /** Inserting a value no smaller than a bound into values no smaller than
      it gives values no smaller than it. */
  lemma {:induction false} InsertAscAbove(x: real, s: seq<real>, b: real)
    requires b <= x && forall i :: 0 <= i < |s| ==> b <= s[i]
    ensures forall i :: 0 <= i < |InsertAsc(x, s)| ==> b <= InsertAsc(x, s)[i]
  {
    if s != [] && x > s[0] {
      InsertAscAbove(x, s[1..], b);
    }
  }

  lemma {:induction false} InsertAscSorted(x: real, s: seq<real>)
    requires Ascending(s)
    ensures Ascending(InsertAsc(x, s))
  {
    if s != [] && x > s[0] {
      var tail := s[1..];
      assert Ascending(tail);
      InsertAscSorted(x, tail);
      InsertAscAbove(x, tail, s[0]);
    }
  }

  /** `[...array].sort((a, b) => a - b)`: a sorted copy. */
  function SortAsc(a: seq<real>): (r: seq<real>)
    ensures multiset(r) == multiset(a) && |r| == |a|
  {
    if a == [] then []
    else
      assert a == [a[0]] + a[1..];
      InsertAsc(a[0], SortAsc(a[1..]))
  }

  lemma {:induction false} SortAscSorted(a: seq<real>)
    ensures Ascending(SortAsc(a))
  {
    if a != [] {
      SortAscSorted(a[1..]);
      InsertAscSorted(a[0], SortAsc(a[1..]));
    }
  }

  /** Every element of the sorted copy lies between the minimum and the
      maximum. */
  lemma SortedBetween(a: seq<real>, i: int)
    requires 0 <= i < |a|
    ensures Min(a) <= SortAsc(a)[i] <= Max(a)
  {
    var x := SortAsc(a)[i];
    assert x in multiset(SortAsc(a));
    assert x in a;
    var j :| 0 <= j < |a| && a[j] == x;
    MinIsLeast(a);
    MaxIsGreatest(a);
  }

  /** `calculateMedian`; None is the `NaN` an empty list gives. */
  function Median(a: seq<real>): Option<real> {
    var sorted := SortAsc(a);
    var mid := |sorted| / 2;
    if |sorted| % 2 != 0 then Some(sorted[mid])
    else if sorted == [] then None
    else Some((sorted[mid - 1] + sorted[mid]) / 2.0)
  }

  /** The median of no samples is None; otherwise it lies between the
      minimum and the maximum. */
  lemma MedianFacts(a: seq<real>)
    ensures Median(a).None? <==> a == []
    ensures a != [] ==> Min(a) <= Median(a).value <= Max(a)
  {
    if a != [] {
      var s := SortAsc(a);
      assert |s| == |a|;
      var mid := |a| / 2;
      if |a| % 2 != 0 {
        SortedBetween(a, mid);
      } else {
        assert 1 <= mid < |a|;
        SortedBetween(a, mid);
        SortedBetween(a, mid - 1);
      }
    }
  }

  /** `filter(p).length` for `fps < bound`. */
  function CountBelow(a: seq<real>, bound: real): (n: nat)
    ensures n <= |a|
  {
    if a == [] then 0 else CountBelow(a[..|a| - 1], bound) + (if a[|a| - 1] < bound then 1 else 0)
  }

  lemma {:induction false} CountBelowMonotone(a: seq<real>, b1: real, b2: real)
    requires b1 <= b2
    ensures CountBelow(a, b1) <= CountBelow(a, b2)
  {
    if a != [] {
      CountBelowMonotone(a[..|a| - 1], b1, b2);
    }
  }

  datatype FrameRateSummary = FrameRateSummary(
    average: real, min: real, max: real, median: real, below30fps: nat, below45fps: nat)

  datatype TimeSummary = TimeSummary(average: real, min: real, max: real, median: real)

  datatype MemorySummary = MemorySummary(averageUsed: real, minUsed: real, maxUsed: real, memoryIncrease: real)

  /** A part of the summary is None when its list of samples is empty. */
  datatype Summary = Summary(frameRate: Option<FrameRateSummary>, renderTime: Option<TimeSummary>,
                             memory: Option<MemorySummary>)

  /** `calculateSummary`, `memoryUsed` being the `used` field of each memory
      sample. */
  function CalculateSummary(frameRate: seq<real>, renderTime: seq<real>, memoryUsed: seq<real>): (s: Summary)
    ensures s.frameRate.Some? <==> frameRate != []
    ensures s.renderTime.Some? <==> renderTime != []
    ensures s.memory.Some? <==> memoryUsed != []
  {
    MedianFacts(frameRate);
    MedianFacts(renderTime);
    Summary(
      if frameRate == [] then None
      else Some(FrameRateSummary(Average(frameRate), Min(frameRate), Max(frameRate),
                                 Median(frameRate).value,
                                 CountBelow(frameRate, 30.0), CountBelow(frameRate, 45.0))),
      if renderTime == [] then None
      else Some(TimeSummary(Average(renderTime), Min(renderTime), Max(renderTime), Median(renderTime).value)),
      if memoryUsed == [] then None
      else Some(MemorySummary(Average(memoryUsed), Min(memoryUsed), Max(memoryUsed),
                              Max(memoryUsed) - Min(memoryUsed))))
  }

  /** The orderings the summary keeps. */
  lemma SummaryFacts(frameRate: seq<real>, renderTime: seq<real>, memoryUsed: seq<real>)
    ensures var s := CalculateSummary(frameRate, renderTime, memoryUsed);
      && (s.frameRate.Some? ==>
            var f := s.frameRate.value;
            && f.below30fps <= f.below45fps <= |frameRate|
            && f.min <= f.median <= f.max && f.min <= f.average <= f.max)
      && (s.renderTime.Some? ==>
            var t := s.renderTime.value; t.min <= t.median <= t.max && t.min <= t.average <= t.max)
      && (s.memory.Some? ==>
            var m := s.memory.value; m.memoryIncrease >= 0.0 && m.minUsed <= m.averageUsed <= m.maxUsed)
  {
    MedianFacts(frameRate);
    MedianFacts(renderTime);
    AverageBetween(frameRate);
    AverageBetween(renderTime);
    AverageBetween(memoryUsed);
    CountBelowMonotone(frameRate, 30.0, 45.0);
  }

  /** The thresholds the tester starts with. */
  const MinFrameRate := 30.0
  const WarningFrameRate := 45.0

  /** The report's overall summary as grading and recommendations read it.
      `minFrameRate` is None for the `Infinity` of an empty list. */
  datatype Overall = Overall(averageFrameRate: real, minFrameRate: Option<real>, memoryEfficiency: bool)

  /** The frame-rate deduction: 30 below the minimum, else 15 below the
      warning level. */
  function FpsPenalty(avg: real): (p: int)
    ensures p == 0 || p == 15 || p == 30
  {
    if avg < MinFrameRate then 30 else if avg < WarningFrameRate then 15 else 0
  }

  /** The letter for a grading score. */
  function PerfLetter(score: int): string {
    if score >= 90 then "A+"
    else if score >= 80 then "A"
    else if score >= 70 then "B"
    else if score >= 60 then "C"
    else if score >= 50 then "D"
    else "F"
  }

  /** `calculatePerformanceGrade`. */
  method CalculatePerformanceGrade(o: Overall) returns (grade: string)
    ensures grade == PerfLetter(PerfScore(o))
  {
    var score := 100;
    if o.averageFrameRate < MinFrameRate {
      score := score - 30;
    } else if o.averageFrameRate < WarningFrameRate {
      score := score - 15;
    }
    if !o.memoryEfficiency {
      score := score - 20;
    }
    if o.minFrameRate.Some? && o.minFrameRate.value < 20.0 {
      score := score - 25;
    }
    if score >= 90 { return "A+"; }
    if score >= 80 { return "A"; }
    if score >= 70 { return "B"; }
    if score >= 60 { return "C"; }
    if score >= 50 { return "D"; }
    return "F";
  }

  /** The score that grades `o`. */
  function PerfScore(o: Overall): int {
    100 - FpsPenalty(o.averageFrameRate)
    - (if o.memoryEfficiency then 0 else 20)
    - (if o.minFrameRate.Some? && o.minFrameRate.value < 20.0 then 25 else 0)
  }

  /** The score lies in 25..100; the top grade needs no deduction at all, and
      a worst run (every deduction) is graded F. */
  lemma PerfGradeFacts(o: Overall)
    ensures 25 <= PerfScore(o) <= 100
    ensures PerfLetter(PerfScore(o)) == "A+" <==>
      o.averageFrameRate >= WarningFrameRate && o.memoryEfficiency
      && !(o.minFrameRate.Some? && o.minFrameRate.value < 20.0)
    ensures (o.averageFrameRate < MinFrameRate && !o.memoryEfficiency
             && o.minFrameRate.Some? && o.minFrameRate.value < 20.0)
            ==> PerfLetter(PerfScore(o)) == "F"
  {
  }

  /** A higher average frame rate never lowers the score. */
  lemma PerfScoreMonotone(o: Overall, avg2: real)
    requires o.averageFrameRate <= avg2
    ensures PerfScore(o) <= PerfScore(o.(averageFrameRate := avg2))
  {
  }

  datatype Kind = Critical | Warning | Info

  datatype Priority = High | Medium | Low

  datatype Recommendation = Recommendation(kind: Kind, message: string, priority: Priority)

  const FpsCriticalMessage := "Frame rate is below minimum threshold. Consider reducing particle count or animation complexity."
  const FpsWarningMessage := "Frame rate is below optimal. Consider optimizing animations for better performance."
  const MemoryMessage := "High memory usage detected. Check for memory leaks in particle systems."
  const DpiMessage := "High DPI display detected. Consider adjusting canvas resolution for better performance."

  /** `generateRecommendations`, `pixelRatio` being the device's. */
  method GenerateRecommendations(o: Overall, pixelRatio: real) returns (recs: seq<Recommendation>)
    ensures recs == FpsAdvice(o.averageFrameRate)
      + (if o.memoryEfficiency then [] else [Recommendation(Warning, MemoryMessage, Medium)])
      + (if pixelRatio > 1.0 then [Recommendation(Info, DpiMessage, Low)] else [])
  {
    recs := [];
    if o.averageFrameRate < MinFrameRate {
      recs := recs + [Recommendation(Critical, FpsCriticalMessage, High)];
    } else if o.averageFrameRate < WarningFrameRate {
      recs := recs + [Recommendation(Warning, FpsWarningMessage, Medium)];
    }
    if !o.memoryEfficiency {
      recs := recs + [Recommendation(Warning, MemoryMessage, Medium)];
    }
    if pixelRatio > 1.0 {
      recs := recs + [Recommendation(Info, DpiMessage, Low)];
    }
  }

  /** The frame-rate recommendations for an average. */
  function FpsAdvice(avg: real): seq<Recommendation> {
    if avg < MinFrameRate then [Recommendation(Critical, FpsCriticalMessage, High)]
    else if avg < WarningFrameRate then [Recommendation(Warning, FpsWarningMessage, Medium)]
    else []
  }

  /** At most one frame-rate recommendation: critical exactly below 30, a
      warning exactly from 30 to below 45. */
  lemma FpsAdviceFacts(avg: real)
    ensures |FpsAdvice(avg)| <= 1
    ensures (FpsAdvice(avg) != [] && FpsAdvice(avg)[0].kind == Critical) <==> avg < 30.0
    ensures (FpsAdvice(avg) != [] && FpsAdvice(avg)[0].kind == Warning) <==> 30.0 <= avg < 45.0
  {
  }

  /** What one finished test contributes to the report: its configuration's
      name, its frame-rate samples and the `used` field of its memory samples. */
  datatype TestRun = TestRun(name: string, frameRate: seq<real>, memoryUsed: seq<real>)

  /** `flatMap(result => result.metrics.frameRate)`. */
  function AllFrameRates(ts: seq<TestRun>): seq<real> {
    if ts == [] then [] else ts[0].frameRate + AllFrameRates(ts[1..])
  }

  /** `flatMap` of the memory samples. */
  function AllMemoryUsed(ts: seq<TestRun>): seq<real> {
    if ts == [] then [] else ts[0].memoryUsed + AllMemoryUsed(ts[1..])
  }

  /** `Math.min(...a)`, None being the `Infinity` of an empty list. */
  function MinOr(a: seq<real>): Option<real> {
    if a == [] then None else Some(Min(a))
  }

  /** `find(result => Math.min(...frameRate) === m)?.config.name`. */
  function FirstWithMin(ts: seq<TestRun>, m: Option<real>): (r: Option<string>)
    ensures r.Some? <==> exists i :: 0 <= i < |ts| && MinOr(ts[i].frameRate) == m
  {
    if ts == [] then None
    else if MinOr(ts[0].frameRate) == m then Some(ts[0].name)
    else
      var r := FirstWithMin(ts[1..], m);
      assert forall i :: 1 <= i < |ts| ==> ts[i] == ts[1..][i - 1];
      assert r.Some? ==> exists i :: 0 <= i < |ts[1..]| && MinOr(ts[1..][i].frameRate) == m;
      r
  }

  /** The report's overall summary. */
  datatype OverallSummary = OverallSummary(overall: Overall, worstTest: Option<string>)

  /** The overall summary of `generateReport`: the mean of every frame-rate
      sample, the least of them, the first test that reached that least
      value, and whether memory use varied by less than 20 MB. */
  function OverallOf(ts: seq<TestRun>): OverallSummary {
    var frames := AllFrameRates(ts);
    var memory := AllMemoryUsed(ts);
    OverallSummary(
      Overall(Average(frames), MinOr(frames), memory == [] || Max(memory) - Min(memory) < 20.0),
      FirstWithMin(ts, MinOr(frames)))
  }

  /** A sample belongs to the flattened list exactly when it belongs to one
      of the tests. */
  lemma {:induction false} AllFrameRatesMembers(ts: seq<TestRun>, x: real)
    ensures x in AllFrameRates(ts) <==> exists i :: 0 <= i < |ts| && x in ts[i].frameRate
  {
    if ts != [] {
      AllFrameRatesMembers(ts[1..], x);
      assert forall i :: 1 <= i < |ts| ==> ts[i] == ts[1..][i - 1];
      if x in AllFrameRates(ts[1..]) {
        var i :| 0 <= i < |ts[1..]| && x in ts[1..][i].frameRate;
        assert x in ts[i + 1].frameRate;
      }
    }
  }

  /** Some test holds the overall least frame rate as its own least one. */
  lemma MinOfSomeTest(ts: seq<TestRun>)
    requires AllFrameRates(ts) != []
    ensures exists i :: 0 <= i < |ts| && MinOr(ts[i].frameRate) == MinOr(AllFrameRates(ts))
  {
    var frames := AllFrameRates(ts);
    var m := Min(frames);
    MinIsLeast(frames);
    AllFrameRatesMembers(ts, m);
    var i :| 0 <= i < |ts| && m in ts[i].frameRate;
    var own := ts[i].frameRate;
    MinIsLeast(own);
    AllFrameRatesMembers(ts, Min(own));
    assert Min(own) in frames;
    var j :| 0 <= j < |own| && own[j] == m;
    assert Min(own) <= m;
    var l :| 0 <= l < |frames| && frames[l] == Min(own);
    assert m <= Min(own);
  }

  /** When any frame rate was sampled, a worst test is named, and its own
      least frame rate is the overall least one. */
  lemma WorstTestFound(ts: seq<TestRun>)
    requires AllFrameRates(ts) != []
    ensures OverallOf(ts).worstTest.Some?
    ensures exists i :: 0 <= i < |ts| && ts[i].name == OverallOf(ts).worstTest.value
                        && MinOr(ts[i].frameRate) == OverallOf(ts).overall.minFrameRate
  {
    MinOfSomeTest(ts);
    FirstWithMinNames(ts, MinOr(AllFrameRates(ts)));
  }

  /** The test `FirstWithMin` names is the first one with that minimum. */
  lemma {:induction false} FirstWithMinNames(ts: seq<TestRun>, m: Option<real>)
    ensures FirstWithMin(ts, m).Some? ==>
      exists i :: 0 <= i < |ts| && ts[i].name == FirstWithMin(ts, m).value && MinOr(ts[i].frameRate) == m
                  && forall j :: 0 <= j < i ==> MinOr(ts[j].frameRate) != m
  {
    if ts != [] && MinOr(ts[0].frameRate) != m {
      FirstWithMinNames(ts[1..], m);
      if FirstWithMin(ts, m).Some? {
        var i :| 0 <= i < |ts[1..]| && ts[1..][i].name == FirstWithMin(ts[1..], m).value
                 && MinOr(ts[1..][i].frameRate) == m
                 && forall j :: 0 <= j < i ==> MinOr(ts[1..][j].frameRate) != m;
        assert ts[i + 1] == ts[1..][i];
        forall j | 0 <= j < i + 1 ensures MinOr(ts[j].frameRate) != m {
          if j > 0 {
            assert ts[j] == ts[1..][j - 1];
          }
        }
      }
    }
  }

  /** Memory counts as efficient when nothing was sampled. */
  lemma NoMemoryIsEfficient(ts: seq<TestRun>)
    requires AllMemoryUsed(ts) == []
    ensures OverallOf(ts).overall.memoryEfficiency
  {
  }

  /** The ids of the engine's maps, held as their keys in insertion order.
      The values do not influence the clean-up and are not modelled. */
  class Engine {
    var propertyAnimations: seq<string>
    var particleSystems: seq<string>
    var timelines: seq<string>
    var animationGroups: seq<string>

    constructor(propertyAnimations: seq<string>, particleSystems: seq<string>,
                timelines: seq<string>, animationGroups: seq<string>)
      ensures this.propertyAnimations == propertyAnimations && this.particleSystems == particleSystems
      ensures this.timelines == timelines && this.animationGroups == animationGroups
    {
      this.propertyAnimations := propertyAnimations;
      this.particleSystems := particleSystems;
      this.timelines := timelines;
      this.animationGroups := animationGroups;
    }

    /** `removePropertyAnimation(id)`, taken to be `propertyAnimations.delete(id)`. */
    method RemovePropertyAnimation(id: string)
      modifies this
      ensures propertyAnimations == Without(old(propertyAnimations), [id])
      ensures particleSystems == old(particleSystems)
      ensures timelines == old(timelines) && animationGroups == old(animationGroups)
    {
      propertyAnimations := Without(propertyAnimations, [id]);
    }

    /** `removeParticleSystem(id)`, taken to be `particleSystems.delete(id)`. */
    method RemoveParticleSystem(id: string)
      modifies this
      ensures particleSystems == Without(old(particleSystems), [id])
      ensures propertyAnimations == old(propertyAnimations)
      ensures timelines == old(timelines) && animationGroups == old(animationGroups)
    {
      particleSystems := Without(particleSystems, [id]);
    }
  }

  /** `id.startsWith(p)` for one of the prefixes. */
  predicate HasPrefix(id: string, prefixes: seq<string>) {
    exists k :: 0 <= k < |prefixes| && StartsWith(id, prefixes[k])
  }

  const TestAnimationPrefixes: seq<string> := ["test-", "stress-"]
  const TestSystemPrefixes: seq<string> := ["test-"]

  /** The keys of `keys` not in `ids`, in order. */
  function Without(keys: seq<string>, ids: seq<string>): (r: seq<string>)
  {
    if keys == [] then []
    else
      var init := Without(keys[..|keys| - 1], ids);
      init + (if keys[|keys| - 1] in ids then [] else [keys[|keys| - 1]])
  }

  /** The keys with one of the prefixes, in order: the collecting loops. */
  function Matching(keys: seq<string>, prefixes: seq<string>): (r: seq<string>)
  {
    if keys == [] then []
    else
      Matching(keys[..|keys| - 1], prefixes)
      + (if HasPrefix(keys[|keys| - 1], prefixes) then [keys[|keys| - 1]] else [])
  }

  /** The keys without any of the prefixes, in order: what clean-up leaves. */
  function Keep(keys: seq<string>, prefixes: seq<string>): (r: seq<string>)
  {
    if keys == [] then []
    else
      Keep(keys[..|keys| - 1], prefixes)
      + (if HasPrefix(keys[|keys| - 1], prefixes) then [] else [keys[|keys| - 1]])
  }

  /** The collected keys are exactly those with a prefix. */
  lemma {:induction false} MatchingMembers(keys: seq<string>, prefixes: seq<string>)
    ensures forall k :: k in Matching(keys, prefixes) <==> k in keys && HasPrefix(k, prefixes)
  {
    if keys != [] {
      MatchingMembers(keys[..|keys| - 1], prefixes);
      assert keys == keys[..|keys| - 1] + [keys[|keys| - 1]];
    }
  }

  /** The kept keys are exactly those without a prefix. */
  lemma {:induction false} KeepMembers(keys: seq<string>, prefixes: seq<string>)
    ensures forall k :: k in Keep(keys, prefixes) <==> k in keys && !HasPrefix(k, prefixes)
  {
    if keys != [] {
      KeepMembers(keys[..|keys| - 1], prefixes);
      assert keys == keys[..|keys| - 1] + [keys[|keys| - 1]];
    }
  }

  /** Every key is either collected or kept. */
  lemma {:induction false} MatchingKeepPartition(keys: seq<string>, prefixes: seq<string>)
    ensures multiset(Matching(keys, prefixes)) + multiset(Keep(keys, prefixes)) == multiset(keys)
  {
    if keys != [] {
      var init := keys[..|keys| - 1];
      var last := keys[|keys| - 1];
      MatchingKeepPartition(init, prefixes);
      assert keys == init + [last];
      assert multiset(keys) == multiset(init) + multiset{last};
      var m, k := Matching(init, prefixes), Keep(init, prefixes);
      if HasPrefix(last, prefixes) {
        assert Matching(keys, prefixes) == m + [last];
        assert Keep(keys, prefixes) == k;
        assert multiset(m + [last]) == multiset(m) + multiset{last};
      } else {
        assert Matching(keys, prefixes) == m;
        assert Keep(keys, prefixes) == k + [last];
        assert multiset(k + [last]) == multiset(k) + multiset{last};
      }
    }
  }

  /** Removing nothing keeps every key. */
  lemma {:induction false} WithoutNothing(keys: seq<string>)
    ensures Without(keys, []) == keys
  {
    if keys != [] {
      WithoutNothing(keys[..|keys| - 1]);
      assert keys == keys[..|keys| - 1] + [keys[|keys| - 1]];
    }
  }

  /** Deleting one more id is removing one more id from the original keys. */
  lemma {:induction false} DeleteMore(keys: seq<string>, ids: seq<string>, id: string)
    ensures Without(Without(keys, ids), [id]) == Without(keys, ids + [id])
  {
    if keys != [] {
      var init := keys[..|keys| - 1];
      var last := keys[|keys| - 1];
      DeleteMore(init, ids, id);
      var w := Without(keys, ids);
      var wi := Without(init, ids);
      if last in ids {
        assert w == wi;
      } else {
        assert w == wi + [last];
        assert w[..|w| - 1] == wi;
        assert Without(w, [id]) == Without(wi, [id]) + (if last == id then [] else [last]);
      }
      assert Without(keys, ids + [id])
        == Without(init, ids + [id]) + (if last in ids || last == id then [] else [last]);
    }
  }

  /** Removing a set of ids that holds exactly the prefixed keys keeps the
      others. */
  lemma {:induction false} WithoutMatching(keys: seq<string>, ids: seq<string>, prefixes: seq<string>)
    requires forall k :: k in keys ==> (k in ids <==> HasPrefix(k, prefixes))
    ensures Without(keys, ids) == Keep(keys, prefixes)
  {
    if keys != [] {
      var init := keys[..|keys| - 1];
      assert forall k :: k in init ==> k in keys;
      assert keys[|keys| - 1] in keys;
      WithoutMatching(init, ids, prefixes);
    }
  }

  /** `cleanupTestScenario`: animations whose id starts with `test-` or
      `stress-` and particle systems whose id starts with `test-` are
      removed, the rest kept in order; timelines and groups are cleared. */
  method CleanupTestScenario(engine: Engine)
    modifies engine
    ensures engine.propertyAnimations == Keep(old(engine.propertyAnimations), TestAnimationPrefixes)
    ensures engine.particleSystems == Keep(old(engine.particleSystems), TestSystemPrefixes)
    ensures engine.timelines == [] && engine.animationGroups == []
  {
    var animationsToRemove := CollectMatching(engine.propertyAnimations, TestAnimationPrefixes);
    var particleSystemsToRemove := CollectMatching(engine.particleSystems, TestSystemPrefixes);
    ghost var animations := engine.propertyAnimations;
    ghost var systems := engine.particleSystems;
    RemoveAnimations(engine, animationsToRemove);
    RemoveSystems(engine, particleSystemsToRemove);
    assert engine.propertyAnimations == Keep(animations, TestAnimationPrefixes) by {
      MatchingMembers(animations, TestAnimationPrefixes);
      WithoutMatching(animations, animationsToRemove, TestAnimationPrefixes);
    }
    assert engine.particleSystems == Keep(systems, TestSystemPrefixes) by {
      MatchingMembers(systems, TestSystemPrefixes);
      WithoutMatching(systems, particleSystemsToRemove, TestSystemPrefixes);
    }
    engine.timelines := [];
    engine.animationGroups := [];
  }

  /** The first deleting loop: each collected animation id is removed. */
  method RemoveAnimations(engine: Engine, ids: seq<string>)
    modifies engine
    ensures engine.propertyAnimations == Without(old(engine.propertyAnimations), ids)
    ensures engine.particleSystems == old(engine.particleSystems)
    ensures engine.timelines == old(engine.timelines) && engine.animationGroups == old(engine.animationGroups)
  {
    ghost var animations := engine.propertyAnimations;
    WithoutNothing(animations);
    var j := 0;
    while j < |ids|
      invariant 0 <= j <= |ids|
      invariant engine.propertyAnimations == Without(animations, ids[..j])
      invariant engine.particleSystems == old(engine.particleSystems)
      invariant engine.timelines == old(engine.timelines) && engine.animationGroups == old(engine.animationGroups)
    {
      DeleteMore(animations, ids[..j], ids[j]);
      assert ids[..j + 1] == ids[..j] + [ids[j]];
      engine.RemovePropertyAnimation(ids[j]);
      j := j + 1;
    }
    assert ids[..j] == ids;
  }

  /** The second deleting loop: each collected particle-system id is removed. */
  method RemoveSystems(engine: Engine, ids: seq<string>)
    modifies engine
    ensures engine.particleSystems == Without(old(engine.particleSystems), ids)
    ensures engine.propertyAnimations == old(engine.propertyAnimations)
    ensures engine.timelines == old(engine.timelines) && engine.animationGroups == old(engine.animationGroups)
  {
    ghost var systems := engine.particleSystems;
    WithoutNothing(systems);
    var k := 0;
    while k < |ids|
      invariant 0 <= k <= |ids|
      invariant engine.particleSystems == Without(systems, ids[..k])
      invariant engine.propertyAnimations == old(engine.propertyAnimations)
      invariant engine.timelines == old(engine.timelines) && engine.animationGroups == old(engine.animationGroups)
    {
      DeleteMore(systems, ids[..k], ids[k]);
      assert ids[..k + 1] == ids[..k] + [ids[k]];
      engine.RemoveParticleSystem(ids[k]);
      k := k + 1;
    }
    assert ids[..k] == ids;
  }

  /** One of the collecting loops: the keys with one of the prefixes, in
      order. */
  method CollectMatching(keys: seq<string>, prefixes: seq<string>) returns (ids: seq<string>)
    ensures ids == Matching(keys, prefixes)
  {
    ids := [];
    var i := 0;
    while i < |keys|
      invariant 0 <= i <= |keys| && ids == Matching(keys[..i], prefixes)
    {
      assert keys[..i + 1][..i] == keys[..i];
      if HasPrefix(keys[i], prefixes) {
        ids := ids + [keys[i]];
      }
      i := i + 1;
    }
    assert keys[..i] == keys;
  }
}
