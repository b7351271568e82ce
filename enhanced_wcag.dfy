/** The comparison of the current light theme with a palette proposed for
    WCAG level AAA. Parsing, ratios and levels are those of `Wcag`. */
module EnhancedWcag {
  import opened Wrappers
  import opened Wcag

  const CurrentColors := Palette(
    "#0c1419", "#1e2e38", "#3c4a54", "#1565c0", "#0d47a1",
    "#fefefe", "#f7f9fc", "#f1f5f9",
    "#2563eb", "#0067c5", "#7c3aed",
    "#0f7a22", "#a55a00", "#dc2626", "#2563eb")

  const EnhancedColors := Palette(
    "#0c1419", "#1e2e38", "#3c4a54", "#1346a0", "#0f3380",
    "#fefefe", "#f7f9fc", "#f1f5f9",
    "#1e40af", "#0052a3", "#6b21a8",
    "#0d6a1f", "#8f4a00", "#b91c1c", "#1e40af")

  /** The combinations `validateColorSet` checks: those of the light theme
      without the two on the secondary and tertiary backgrounds. */
  function SetCombos(c: Palette): seq<Combo> {
    [ Combo(c.textPrimary, c.bgPrimary, "Primary Text on Primary Background", true),
      Combo(c.textSecondary, c.bgPrimary, "Secondary Text on Primary Background", true),
      Combo(c.textMuted, c.bgPrimary, "Muted Text on Primary Background", true),
      Combo(c.textLink, c.bgPrimary, "Link Text on Primary Background", true),
      Combo(White, c.accentPrimary, "White on Primary Accent", true),
      Combo(White, c.accentSecondary, "White on Secondary Accent", true),
      Combo(White, c.accentTertiary, "White on Tertiary Accent", true),
      Combo(c.accentPrimary, c.bgPrimary, "Primary Accent on Background", true),
      Combo(c.accentSecondary, c.bgPrimary, "Secondary Accent on Background", true),
      Combo(White, c.statusSuccess, "White on Success Status", true),
      Combo(White, c.statusWarning, "White on Warning Status", true),
      Combo(White, c.statusError, "White on Error Status", true),
      Combo(White, c.statusInfo, "White on Info Status", true),
      Combo(c.statusSuccess, c.bgPrimary, "Success Status on Background", false),
      Combo(c.statusError, c.bgPrimary, "Error Status on Background", false)
    ]
  }

  /** The current palette is the light theme's. */
  lemma CurrentIsLightTheme()
    ensures CurrentColors == LightTheme
  {
  }

  /** The set's combinations are the light theme's in the same order, the
      fifth and sixth left out. */
  lemma SetCombosOfLight(c: Palette)
    ensures SetCombos(c) == LightCombos(c)[..4] + LightCombos(c)[6..]
  {
  }

  /** A result tagged with the name of its colour set. */
  datatype SetResult = SetResult(result: CheckResult, colorSet: string)

  /** `validateColorSet`: the `map` over the combinations. */
  function ValidateColorSet(colors: Palette, setName: string, gamma: real -> real): (r: seq<SetResult>)
    requires UnitCurve(gamma)
    ensures |r| == 15
    ensures forall i :: 0 <= i < 15 ==>
      r[i].result == Check(SetCombos(colors)[i], gamma) && r[i].colorSet == setName
  {
    var combos := SetCombos(colors);
    seq(15, i requires 0 <= i < 15 => SetResult(Check(combos[i], gamma), setName))
  }

  datatype Stats = Stats(total: nat, passed: nat, aaaCount: nat, aaCount: nat, failCount: nat)

  /** `filter(p).length`. */
  function CountPassed(rs: seq<SetResult>, want: bool): (n: nat)
    ensures n <= |rs|
  {
    if rs == [] then 0
    else CountPassed(rs[..|rs| - 1], want) + (if rs[|rs| - 1].result.passed == want then 1 else 0)
  }

  function CountLevel(rs: seq<SetResult>, level: Level): (n: nat)
    ensures n <= |rs|
  {
    if rs == [] then 0
    else CountLevel(rs[..|rs| - 1], level) + (if rs[|rs| - 1].result.compliance == level then 1 else 0)
  }

  /** `getStats`. */
  function GetStats(rs: seq<SetResult>): Stats {
    Stats(|rs|, CountPassed(rs, true), CountLevel(rs, AAA), CountLevel(rs, AA), CountPassed(rs, false))
  }

  /** Passed and failed results add up to the total, for any results. */
  lemma {:induction false} PassedAndFailed(rs: seq<SetResult>)
    ensures GetStats(rs).passed + GetStats(rs).failCount == GetStats(rs).total
  {
    if rs != [] {
      PassedAndFailed(rs[..|rs| - 1]);
    }
  }

  /** When a result passes exactly when it is not a failure, the passed ones
      are the AAA and AA ones. */
  lemma {:induction false} PassedAreAaOrAaa(rs: seq<SetResult>)
    requires forall i :: 0 <= i < |rs| ==> (rs[i].result.passed <==> rs[i].result.compliance != Fail)
    ensures GetStats(rs).aaaCount + GetStats(rs).aaCount == GetStats(rs).passed
  {
    if rs != [] {
      var init := rs[..|rs| - 1];
      assert forall i :: 0 <= i < |init| ==> init[i] == rs[i];
      PassedAreAaOrAaa(init);
    }
  }

  /** The statistics of a validated set are consistent. */
  lemma StatsOfSet(colors: Palette, setName: string, gamma: real -> real)
    requires UnitCurve(gamma)
    ensures var s := GetStats(ValidateColorSet(colors, setName, gamma));
      s.total == 15 && s.passed + s.failCount == s.total && s.aaaCount + s.aaCount == s.passed
  {
    var rs := ValidateColorSet(colors, setName, gamma);
    forall i | 0 <= i < |rs| ensures rs[i].result.passed <==> rs[i].result.compliance != Fail {
      PassedIffNotFail(SetCombos(colors)[i], gamma);
    }
    PassedAndFailed(rs);
    PassedAreAaOrAaa(rs);
  }

  /** The enhanced results whose rounded ratio beats the current result at
      the same position: `enhancedResults.filter((e, i) => e.ratio >
      currentResults[i].ratio)`. */
  function Improved(current: seq<SetResult>, enhanced: seq<SetResult>): (r: seq<SetResult>)
    requires |enhanced| <= |current|
    ensures |r| <= |enhanced|
  {
    if enhanced == [] then []
    else
      var k := |enhanced| - 1;
      Improved(current, enhanced[..k])
        + (if enhanced[k].result.ratio > current[k].result.ratio then [enhanced[k]] else [])
  }

  /** A result is selected exactly when it beats the current result at its
      own position. */
  lemma {:induction false} ImprovedMembers(current: seq<SetResult>, enhanced: seq<SetResult>, x: SetResult)
    requires |enhanced| <= |current|
    ensures x in Improved(current, enhanced) <==>
      exists i :: 0 <= i < |enhanced| && enhanced[i] == x && x.result.ratio > current[i].result.ratio
  {
    if enhanced != [] {
      var k := |enhanced| - 1;
      var init := enhanced[..k];
      ImprovedMembers(current, init, x);
      var last: seq<SetResult> := if enhanced[k].result.ratio > current[k].result.ratio then [enhanced[k]] else [];
      assert Improved(current, enhanced) == Improved(current, init) + last;
      if x in Improved(current, init) {
        var i :| 0 <= i < |init| && init[i] == x && x.result.ratio > current[i].result.ratio;
        assert enhanced[i] == x;
      }
      if exists i :: 0 <= i < |enhanced| && enhanced[i] == x && x.result.ratio > current[i].result.ratio {
        var i :| 0 <= i < |enhanced| && enhanced[i] == x && x.result.ratio > current[i].result.ratio;
        if i < k {
          assert init[i] == x;
        }
      }
    }
  }

  /** `currentResults.find(c => c.name === name)`. */
  function FindByName(rs: seq<SetResult>, name: string): (r: Option<nat>)
    ensures r.Some? ==> r.value < |rs| && rs[r.value].result.name == name
  {
    if rs == [] then None
    else if rs[0].result.name == name then Some(0)
    else
      var r := FindByName(rs[1..], name);
      if r.Some? then Some(r.value + 1) else None
  }

  /** `find` returns the first result with the name, and nothing only when
      no result has it. */
  lemma {:induction false} FindByNameFirst(rs: seq<SetResult>, name: string)
    ensures var r := FindByName(rs, name);
      (r.Some? ==> forall j :: 0 <= j < r.value ==> rs[j].result.name != name)
      && (r.None? <==> forall j :: 0 <= j < |rs| ==> rs[j].result.name != name)
  {
    if rs != [] && rs[0].result.name != name {
      FindByNameFirst(rs[1..], name);
      assert forall j :: 1 <= j < |rs| ==> rs[j] == rs[1..][j - 1];
    }
  }

  /** Every result names a combination the current results hold. */
  predicate AllFound(current: seq<SetResult>, xs: seq<SetResult>) {
    forall x :: x in xs ==> FindByName(current, x.result.name).Some?
  }

  /** The improvement the sort compares: the ratio minus that of the current
      result with the same name. */
  function Gain(current: seq<SetResult>, x: SetResult): real
    requires FindByName(current, x.result.name).Some?
  {
    x.result.ratio - current[FindByName(current, x.result.name).value].result.ratio
  }

  predicate GainsDown(current: seq<SetResult>, xs: seq<SetResult>)
    requires AllFound(current, xs)
  {
    forall i, j :: 0 <= i < j < |xs| ==> Gain(current, xs[i]) >= Gain(current, xs[j])
  }

  /** Inserts `x`, which came before every element of `s`, in front of the
      first element with no larger gain (equal gains keep their order). */
  function InsertByGain(current: seq<SetResult>, x: SetResult, s: seq<SetResult>): (r: seq<SetResult>)
    requires FindByName(current, x.result.name).Some? && AllFound(current, s)
    ensures multiset(r) == multiset(s) + multiset{x} && |r| == |s| + 1
    ensures AllFound(current, r)
  {
    if s == [] || Gain(current, s[0]) <= Gain(current, x) then [x] + s
    else
      assert s == [s[0]] + s[1..];
      [s[0]] + InsertByGain(current, x, s[1..])
  }

  /** Inserting a result with no larger gain than a bound into results with
      no larger gain keeps every gain at most the bound. */
  lemma {:induction false} InsertByGainBelow(current: seq<SetResult>, x: SetResult, s: seq<SetResult>, b: real)
    requires FindByName(current, x.result.name).Some? && AllFound(current, s)
    requires Gain(current, x) <= b && forall i :: 0 <= i < |s| ==> Gain(current, s[i]) <= b
    ensures forall i :: 0 <= i < |s| + 1 ==> Gain(current, InsertByGain(current, x, s)[i]) <= b
  {
    if s != [] && Gain(current, s[0]) > Gain(current, x) {
      InsertByGainBelow(current, x, s[1..], b);
    }
  }

  lemma {:induction false} InsertByGainSorted(current: seq<SetResult>, x: SetResult, s: seq<SetResult>)
    requires FindByName(current, x.result.name).Some? && AllFound(current, s)
    requires GainsDown(current, s)
    ensures GainsDown(current, InsertByGain(current, x, s))
  {
    if s != [] && Gain(current, s[0]) > Gain(current, x) {
      var tail := s[1..];
      GainsDownTail(current, s);
      InsertByGainSorted(current, x, tail);
      InsertByGainBelow(current, x, tail, Gain(current, s[0]));
      GainsDownCons(current, s[0], InsertByGain(current, x, tail));
    } else {
      if s != [] {
        GainsDownTail(current, s);
      }
      GainsDownCons(current, x, s);
    }
  }

  /** The tail of a list sorted by falling gain is sorted, below its head. */
  lemma GainsDownTail(current: seq<SetResult>, s: seq<SetResult>)
    requires s != [] && AllFound(current, s) && GainsDown(current, s)
    ensures AllFound(current, s[1..]) && GainsDown(current, s[1..])
    ensures forall i :: 1 <= i < |s| ==> Gain(current, s[i]) <= Gain(current, s[0])
  {
    assert forall i :: 0 <= i < |s| - 1 ==> s[1..][i] == s[i + 1];
  }

  /** A head with no smaller gain than any element of a sorted list keeps it sorted. */
  lemma GainsDownCons(current: seq<SetResult>, h: SetResult, t: seq<SetResult>)
    requires FindByName(current, h.result.name).Some? && AllFound(current, t) && GainsDown(current, t)
    requires forall i :: 0 <= i < |t| ==> Gain(current, t[i]) <= Gain(current, h)
    ensures AllFound(current, [h] + t) && GainsDown(current, [h] + t)
  {
    var r := [h] + t;
    assert forall i :: 1 <= i < |r| ==> r[i] == t[i - 1];
  }


  /** `improvements.sort((a, b) => gain(b) - gain(a))`, a stable sort. */
  function SortByGain(current: seq<SetResult>, xs: seq<SetResult>): (r: seq<SetResult>)
    requires AllFound(current, xs)
    ensures multiset(r) == multiset(xs) && |r| == |xs| && AllFound(current, r)
  {
    if xs == [] then []
    else
      assert xs == [xs[0]] + xs[1..];
      InsertByGain(current, xs[0], SortByGain(current, xs[1..]))
  }

  lemma {:induction false} SortByGainSorted(current: seq<SetResult>, xs: seq<SetResult>)
    requires AllFound(current, xs)
    ensures GainsDown(current, SortByGain(current, xs))
  {
    if xs != [] {
      SortByGainSorted(current, xs[1..]);
      InsertByGainSorted(current, xs[0], SortByGain(current, xs[1..]));
    }
  }

  /** The results with gain `g`, in order. */
  function WithGain(current: seq<SetResult>, s: seq<SetResult>, g: real): seq<SetResult>
    requires AllFound(current, s)
  {
    if s == [] then [] else (if Gain(current, s[0]) == g then [s[0]] else []) + WithGain(current, s[1..], g)
  }

  /** The results with gain `g` of a list with a result in front. */
  lemma WithGainCons(current: seq<SetResult>, y: SetResult, t: seq<SetResult>, g: real)
    requires FindByName(current, y.result.name).Some? && AllFound(current, t)
    ensures AllFound(current, [y] + t)
    ensures WithGain(current, [y] + t, g) == (if Gain(current, y) == g then [y] else []) + WithGain(current, t, g)
  {
    assert ([y] + t)[1..] == t;
  }

  /** Inserting a result puts it in front of the results with its own gain. */
  lemma {:induction false} InsertWithGain(current: seq<SetResult>, x: SetResult, s: seq<SetResult>, g: real)
    requires FindByName(current, x.result.name).Some? && AllFound(current, s)
    ensures WithGain(current, InsertByGain(current, x, s), g)
         == (if Gain(current, x) == g then [x] else []) + WithGain(current, s, g)
  {
    if s == [] || Gain(current, s[0]) <= Gain(current, x) {
      WithGainCons(current, x, s, g);
    } else {
      var t := s[1..];
      var t' := InsertByGain(current, x, t);
      assert s == [s[0]] + t;
      InsertWithGain(current, x, t, g);
      WithGainCons(current, s[0], t', g);
      WithGainCons(current, s[0], t, g);
      if Gain(current, x) == g {
        assert Gain(current, s[0]) != g;
        assert WithGain(current, InsertByGain(current, x, s), g) == WithGain(current, t', g);
        assert WithGain(current, s, g) == WithGain(current, t, g);
      } else {
        assert WithGain(current, t', g) == WithGain(current, t, g);
      }
    }
  }

  /** The sort keeps the order of the results with equal gain, as the stable
      `Array.prototype.sort` does. */
  lemma {:induction false} SortByGainStable(current: seq<SetResult>, xs: seq<SetResult>, g: real)
    requires AllFound(current, xs)
    ensures WithGain(current, SortByGain(current, xs), g) == WithGain(current, xs, g)
  {
    if xs != [] {
      SortByGainStable(current, xs[1..], g);
      InsertWithGain(current, xs[0], SortByGain(current, xs[1..]), g);
    }
  }

  /** Results of the same combinations at the same positions. */
  predicate SamePositions(current: seq<SetResult>, enhanced: seq<SetResult>) {
    |enhanced| <= |current| && forall i :: 0 <= i < |enhanced| ==> enhanced[i].result.name == current[i].result.name
  }

  /** Every selected result is found among the current ones by name. */
  lemma ImprovedFound(current: seq<SetResult>, enhanced: seq<SetResult>)
    requires SamePositions(current, enhanced)
    ensures AllFound(current, Improved(current, enhanced))
  {
    var imp := Improved(current, enhanced);
    forall x | x in imp ensures FindByName(current, x.result.name).Some? {
      ImprovedMembers(current, enhanced, x);
      var i :| 0 <= i < |enhanced| && enhanced[i] == x && x.result.ratio > current[i].result.ratio;
      assert current[i].result.name == x.result.name;
      FindByNameFirst(current, x.result.name);
    }
  }

  /** The "Priority Improvements" `compareColorSets` lists, in order. */
  function PriorityImprovements(current: seq<SetResult>, enhanced: seq<SetResult>): (r: seq<SetResult>)
    requires SamePositions(current, enhanced)
    ensures AllFound(current, r)
  {
    ImprovedFound(current, enhanced);
    SortByGain(current, Improved(current, enhanced))
  }

  /** The listed improvements are exactly the selected results, ordered by
      non-increasing gain. */
  lemma PriorityImprovementsFacts(current: seq<SetResult>, enhanced: seq<SetResult>)
    requires SamePositions(current, enhanced)
    ensures multiset(PriorityImprovements(current, enhanced)) == multiset(Improved(current, enhanced))
    ensures GainsDown(current, PriorityImprovements(current, enhanced))
  {
    ImprovedFound(current, enhanced);
    SortByGainSorted(current, Improved(current, enhanced));
  }

  /** The combination names of a set are all different. */
  lemma SetNamesDistinct(c: Palette)
    ensures forall i, j :: 0 <= i < j < 15 ==> SetCombos(c)[i].name != SetCombos(c)[j].name
  {
  }

  /** With distinct names, `find` locates each result at its own position. */
  lemma {:induction false} FindAtPosition(rs: seq<SetResult>, i: nat)
    requires i < |rs|
    requires forall j, k :: 0 <= j < k < |rs| ==> rs[j].result.name != rs[k].result.name
    ensures FindByName(rs, rs[i].result.name) == Some(i)
  {
    var name := rs[i].result.name;
    if i > 0 {
      var tail := rs[1..];
      assert tail[i - 1] == rs[i];
      assert forall j, k :: 0 <= j < k < |tail| ==> tail[j] == rs[j + 1] && tail[k] == rs[k + 1];
      FindAtPosition(tail, i - 1);
    }
  }

  /** When the current names are all different, each listed improvement is
      a strictly positive gain over the current result at its own position. */
  lemma PositiveGains(cur: seq<SetResult>, enh: seq<SetResult>)
    requires SamePositions(cur, enh)
    requires forall j, k :: 0 <= j < k < |cur| ==> cur[j].result.name != cur[k].result.name
    ensures forall x :: x in PriorityImprovements(cur, enh) ==> Gain(cur, x) > 0.0
  {
    PriorityImprovementsFacts(cur, enh);
    forall x | x in PriorityImprovements(cur, enh) ensures Gain(cur, x) > 0.0 {
      assert x in multiset(Improved(cur, enh));
      ImprovedMembers(cur, enh, x);
      var i :| 0 <= i < |enh| && enh[i] == x && x.result.ratio > cur[i].result.ratio;
      FindAtPosition(cur, i);
    }
  }

  /** Two validated sets hold the same combinations at the same positions,
      each named once. */
  lemma ValidatedPositions(current: Palette, enhanced: Palette, gamma: real -> real)
    requires UnitCurve(gamma)
    ensures var cur := ValidateColorSet(current, "Current", gamma);
      && SamePositions(cur, ValidateColorSet(enhanced, "Enhanced", gamma))
      && forall j, k :: 0 <= j < k < |cur| ==> cur[j].result.name != cur[k].result.name
  {
    SetNamesDistinct(current);
    SetNamesFixed(current, enhanced);
    var cur := ValidateColorSet(current, "Current", gamma);
    var enh := ValidateColorSet(enhanced, "Enhanced", gamma);
    forall i | 0 <= i < 15
      ensures cur[i].result.name == SetCombos(current)[i].name
      ensures enh[i].result.name == SetCombos(enhanced)[i].name
    {
      PassedIffNotFail(SetCombos(current)[i], gamma);
      PassedIffNotFail(SetCombos(enhanced)[i], gamma);
    }
  }

  /** The names do not depend on the palette. */
  lemma SetNamesFixed(c1: Palette, c2: Palette)
    ensures forall i :: 0 <= i < 15 ==> SetCombos(c1)[i].name == SetCombos(c2)[i].name
  {
  }

  /** For two validated sets every listed improvement is a strictly positive
      gain. */
  lemma ValidatedGains(current: Palette, enhanced: Palette, gamma: real -> real)
    requires UnitCurve(gamma)
    ensures var cur := ValidateColorSet(current, "Current", gamma);
      var enh := ValidateColorSet(enhanced, "Enhanced", gamma);
      && SamePositions(cur, enh)
      && forall x :: x in PriorityImprovements(cur, enh) ==> Gain(cur, x) > 0.0
  {
    ValidatedPositions(current, enhanced, gamma);
    PositiveGains(ValidateColorSet(current, "Current", gamma), ValidateColorSet(enhanced, "Enhanced", gamma));
  }
}
