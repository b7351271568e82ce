/** Contrast checking of the light theme against WCAG 2.1 success criteria
    1.4.3 (contrast, minimum: level AA) and 1.4.6 (contrast, enhanced: level
    AAA). The power curve of the sRGB transfer function is a parameter. */
module Wcag {
  import opened Wrappers
  import opened Text
  import opened Numbers

  datatype Rgb = Rgb(r: int, g: int, b: int)

  predicate IsHexDigit(c: char) {
    '0' <= c <= '9' || 'a' <= c <= 'f' || 'A' <= c <= 'F'
  }

  function HexValue(c: char): (v: nat)
    requires IsHexDigit(c)
    ensures v < 16
  {
    if '0' <= c <= '9' then c as int - '0' as int
    else if 'a' <= c <= 'f' then c as int - 'a' as int + 10
    else c as int - 'A' as int + 10
  }

  /** `parseInt(pair, 16)` of two hex digits. */
  function PairValue(s: string, i: nat): (v: nat)
    requires i + 1 < |s| && IsHexDigit(s[i]) && IsHexDigit(s[i + 1])
    ensures v < 256
  {
    16 * HexValue(s[i]) + HexValue(s[i + 1])
  }

  /** The part of `hex` after an optional leading `#`. */
  function Body(hex: string): string {
    if |hex| > 0 && hex[0] == '#' then hex[1..] else hex
  }

  predicate IsHexColor(hex: string) {
    var body := Body(hex);
    |body| == 6 && forall i :: 0 <= i < 6 ==> IsHexDigit(body[i])
  }

  /** `hexToRgb`: an optional `#` and six hex digits of either case give the
      three channels; anything else gives None (`null`). */
  function HexToRgb(hex: string): (c: Option<Rgb>)
    ensures c.Some? <==> IsHexColor(hex)
    ensures c.Some? ==> 0 <= c.value.r < 256 && 0 <= c.value.g < 256 && 0 <= c.value.b < 256
  {
    if IsHexColor(hex) then
      var body := Body(hex);
      Some(Rgb(PairValue(body, 0), PairValue(body, 2), PairValue(body, 4)))
    else None
  }

  function HexDigit(v: nat): (c: char)
    requires v < 16
    ensures IsHexDigit(c) && HexValue(c) == v && !('A' <= c <= 'Z')
  {
    if v < 10 then ('0' as int + v) as char else ('a' as int + v - 10) as char
  }

  /** Two lower-case hex digits for a channel. */
  function Pair(v: nat): (s: string)
    requires v < 256
    ensures |s| == 2 && IsHexDigit(s[0]) && IsHexDigit(s[1]) && PairValue(s, 0) == v
  {
    [HexDigit(v / 16), HexDigit(v % 16)]
  }

  /** The `#rrggbb` notation of a colour, in lower case. */
  function RgbToHex(c: Rgb): (s: string)
    requires 0 <= c.r < 256 && 0 <= c.g < 256 && 0 <= c.b < 256
    ensures |s| == 7
  {
    "#" + Pair(c.r) + Pair(c.g) + Pair(c.b)
  }

  /** Writing a colour out and reading it back gives the colour. */
  lemma HexRoundTrip(c: Rgb)
    requires 0 <= c.r < 256 && 0 <= c.g < 256 && 0 <= c.b < 256
    ensures HexToRgb(RgbToHex(c)) == Some(c)
  {
    var s := RgbToHex(c);
    var body := Body(s);
    assert body == Pair(c.r) + Pair(c.g) + Pair(c.b);
    assert body[0..2] == Pair(c.r) && body[2..4] == Pair(c.g) && body[4..6] == Pair(c.b);
    assert PairValue(body, 2) == PairValue(Pair(c.g), 0);
    assert PairValue(body, 4) == PairValue(Pair(c.b), 0);
  }

  /** Reading a colour and writing it back gives its digits in lower case
      behind a `#`: the case of the digits and the `#` do not matter. */
  lemma HexNormalizes(hex: string)
    requires HexToRgb(hex).Some?
    ensures RgbToHex(HexToRgb(hex).value) == "#" + Lower(Body(hex))
  {
    var body := Body(hex);
    PairNormalizes(body, 0);
    PairNormalizes(body, 2);
    PairNormalizes(body, 4);
    assert Lower(body) == [LowerChar(body[0]), LowerChar(body[1])] + [LowerChar(body[2]), LowerChar(body[3])]
                          + [LowerChar(body[4]), LowerChar(body[5])];
  }

  /** Two digits read and written back are the digits in lower case. */
  lemma PairNormalizes(s: string, i: nat)
    requires i + 1 < |s| && IsHexDigit(s[i]) && IsHexDigit(s[i + 1])
    ensures Pair(PairValue(s, i)) == [LowerChar(s[i]), LowerChar(s[i + 1])]
  {
    var hi := HexValue(s[i]);
    var lo := HexValue(s[i + 1]);
    assert (16 * hi + lo) / 16 == hi && (16 * hi + lo) % 16 == lo;
    HexDigitOfValue(s[i]);
    HexDigitOfValue(s[i + 1]);
  }

  lemma HexDigitOfValue(c: char)
    requires IsHexDigit(c)
    ensures HexDigit(HexValue(c)) == LowerChar(c)
  {
  }

  /** The curve `x ↦ x^2.4` as the transfer function uses it: on the unit
      interval it stays in the unit interval, and it fixes 1. */
  ghost predicate UnitCurve(gamma: real -> real) {
    (forall x :: 0.0 <= x <= 1.0 ==> 0.0 <= gamma(x) <= 1.0) && gamma(1.0) == 1.0
  }

  /** The linearised value of one channel, `v` being the channel over 255. */
  function Linear(v: real, gamma: real -> real): real {
    if v <= 0.03928 then v / 12.92 else gamma((v + 0.055) / 1.055)
  }

  /** `getRelativeLuminance`. */
  function Luminance(c: Rgb, gamma: real -> real): real {
    0.2126 * Linear(c.r as real / 255.0, gamma)
    + 0.7152 * Linear(c.g as real / 255.0, gamma)
    + 0.0722 * Linear(c.b as real / 255.0, gamma)
  }

  lemma LinearUnit(v: real, gamma: real -> real)
    requires UnitCurve(gamma) && 0.0 <= v <= 1.0
    ensures 0.0 <= Linear(v, gamma) <= 1.0
  {
    if v > 0.03928 {
      assert 0.0 <= (v + 0.055) / 1.055 <= 1.0;
    }
  }

  /** Every colour's luminance lies between 0 (black) and 1 (white). */
  lemma LuminanceUnit(c: Rgb, gamma: real -> real)
    requires UnitCurve(gamma)
    requires 0 <= c.r < 256 && 0 <= c.g < 256 && 0 <= c.b < 256
    ensures 0.0 <= Luminance(c, gamma) <= 1.0
  {
    LinearUnit(c.r as real / 255.0, gamma);
    LinearUnit(c.g as real / 255.0, gamma);
    LinearUnit(c.b as real / 255.0, gamma);
  }

  lemma BlackAndWhite(gamma: real -> real)
    requires UnitCurve(gamma)
    ensures Luminance(Rgb(0, 0, 0), gamma) == 0.0
    ensures Luminance(Rgb(255, 255, 255), gamma) == 1.0
  {
    assert (1.0 + 0.055) / 1.055 == 1.0;
  }

  function Max(x: real, y: real): real {
    if x >= y then x else y
  }

  function Min(x: real, y: real): real {
    if x <= y then x else y
  }

  /** `calculateContrastRatio`: 0 when either colour does not parse, else
      the lighter luminance plus 0.05 over the darker plus 0.05. */
  function ContrastRatio(color1: string, color2: string, gamma: real -> real): (r: real)
    requires UnitCurve(gamma)
    ensures r == 0.0 || 1.0 <= r <= 21.0
  {
    var rgb1 := HexToRgb(color1);
    var rgb2 := HexToRgb(color2);
    if rgb1.None? || rgb2.None? then 0.0
    else
      var lum1 := Luminance(rgb1.value, gamma);
      var lum2 := Luminance(rgb2.value, gamma);
      LuminanceUnit(rgb1.value, gamma);
      LuminanceUnit(rgb2.value, gamma);
      RatioBounds(Max(lum1, lum2) + 0.05, Min(lum1, lum2) + 0.05);
      (Max(lum1, lum2) + 0.05) / (Min(lum1, lum2) + 0.05)
  }

  /** The ratio does not depend on the order of the colours; it is 0 exactly
      when a colour does not parse and otherwise lies between 1 and 21. */
  lemma ContrastRatioFacts(color1: string, color2: string, gamma: real -> real)
    requires UnitCurve(gamma)
    ensures ContrastRatio(color1, color2, gamma) == ContrastRatio(color2, color1, gamma)
    ensures ContrastRatio(color1, color2, gamma) == 0.0 <==> !IsHexColor(color1) || !IsHexColor(color2)
    ensures IsHexColor(color1) && IsHexColor(color2) ==> 1.0 <= ContrastRatio(color1, color2, gamma) <= 21.0
  {
    if IsHexColor(color1) && IsHexColor(color2) {
      var c1 := HexToRgb(color1).value;
      var c2 := HexToRgb(color2).value;
      LuminanceUnit(c1, gamma);
      LuminanceUnit(c2, gamma);
      var lo := Min(Luminance(c1, gamma), Luminance(c2, gamma)) + 0.05;
      var hi := Max(Luminance(c1, gamma), Luminance(c2, gamma)) + 0.05;
      assert 0.05 <= lo <= hi <= 1.05;
      RatioBounds(hi, lo);
    }
  }

  lemma RatioBounds(hi: real, lo: real)
    requires 0.05 <= lo <= hi <= 1.05
    ensures 1.0 <= hi / lo <= 21.0
  {
    QuotientAtLeast(hi, lo, 1.0);
    QuotientAtMost(hi, lo, 21.0);
  }

  /** Black on white reaches the largest ratio, 21. */
  lemma BlackOnWhite(gamma: real -> real)
    requires UnitCurve(gamma)
    ensures ContrastRatio("#000000", "#ffffff", gamma) == 21.0
  {
    assert HexToRgb("#000000") == Some(Rgb(0, 0, 0));
    assert HexToRgb("#ffffff") == Some(Rgb(255, 255, 255));
    BlackAndWhite(gamma);
  }

  datatype Level = AAA | AA | Fail

  /** The minimum ratios: 4.5 for AA and 7 for AAA, and 3 and 4.5 for large
      text. */
  function AaMinimum(isLarge: bool): real {
    if isLarge then 3.0 else 4.5
  }

  function AaaMinimum(isLarge: bool): real {
    if isLarge then 4.5 else 7.0
  }

  /** `getComplianceLevel`. */
  function ComplianceLevel(ratio: real, isLarge: bool): (r: Level)
    ensures r != Fail ==> ratio >= 3.0
    ensures ratio >= 7.0 ==> r == AAA
  {
    if ratio >= AaaMinimum(isLarge) then AAA
    else if ratio >= AaMinimum(isLarge) then AA
    else Fail
  }

  function Rank(l: Level): nat {
    match l
    case Fail => 0
    case AA => 1
    case AAA => 2
  }

  /** The level each ratio gets, both ways round. */
  lemma ComplianceThresholds(ratio: real, isLarge: bool)
    ensures ComplianceLevel(ratio, isLarge) == AAA <==> ratio >= (if isLarge then 4.5 else 7.0)
    ensures ComplianceLevel(ratio, isLarge) != Fail <==> ratio >= (if isLarge then 3.0 else 4.5)
  {
  }

  /** A higher ratio never gets a lower level, and large text never gets a
      lower level than normal text. */
  lemma ComplianceMonotone(r1: real, r2: real, isLarge: bool)
    requires r1 <= r2
    ensures Rank(ComplianceLevel(r1, isLarge)) <= Rank(ComplianceLevel(r2, isLarge))
    ensures Rank(ComplianceLevel(r1, false)) <= Rank(ComplianceLevel(r1, true))
  {
  }

  /** `Math.round(x * 100) / 100`. */
  function Round2(x: real): (r: real)
    ensures (r * 100.0).Floor as real == r * 100.0
  {
    (x * 100.0 + 0.5).Floor as real / 100.0
  }

  /** Rounding moves a ratio by at most half a hundredth. */
  lemma Round2Near(x: real)
    ensures x - 0.005 < Round2(x) <= x + 0.005
  {
    var f := (x * 100.0 + 0.5).Floor;
    assert x * 100.0 + 0.5 - 1.0 < f as real <= x * 100.0 + 0.5;
  }

  /** The light theme's colours. */
  datatype Palette = Palette(
    textPrimary: string, textSecondary: string, textMuted: string, textLink: string, textLinkHover: string,
    bgPrimary: string, bgSecondary: string, bgTertiary: string,
    accentPrimary: string, accentSecondary: string, accentTertiary: string,
    statusSuccess: string, statusWarning: string, statusError: string, statusInfo: string)

  const LightTheme := Palette(
    "#0c1419", "#1e2e38", "#3c4a54", "#1565c0", "#0d47a1",
    "#fefefe", "#f7f9fc", "#f1f5f9",
    "#2563eb", "#0067c5", "#7c3aed",
    "#0f7a22", "#a55a00", "#dc2626", "#2563eb")

  const White := "#ffffff"

  datatype Combo = Combo(fg: string, bg: string, name: string, critical: bool)

  /** The combinations `validateLightTheme` checks: six of text, five of
      accents and six of status colours. */
  function LightCombos(c: Palette): seq<Combo> {
    [ Combo(c.textPrimary, c.bgPrimary, "Primary Text on Primary Background", true),
      Combo(c.textSecondary, c.bgPrimary, "Secondary Text on Primary Background", true),
      Combo(c.textMuted, c.bgPrimary, "Muted Text on Primary Background", true),
      Combo(c.textLink, c.bgPrimary, "Link Text on Primary Background", true),
      Combo(c.textPrimary, c.bgSecondary, "Primary Text on Secondary Background", true),
      Combo(c.textSecondary, c.bgTertiary, "Secondary Text on Tertiary Background", true)
    ] + [
      Combo(White, c.accentPrimary, "White on Primary Accent", true),
      Combo(White, c.accentSecondary, "White on Secondary Accent", true),
      Combo(White, c.accentTertiary, "White on Tertiary Accent", true),
      Combo(c.accentPrimary, c.bgPrimary, "Primary Accent on Background", true),
      Combo(c.accentSecondary, c.bgPrimary, "Secondary Accent on Background", true)
    ] + [
      Combo(White, c.statusSuccess, "White on Success Status", true),
      Combo(White, c.statusWarning, "White on Warning Status", true),
      Combo(White, c.statusError, "White on Error Status", true),
      Combo(White, c.statusInfo, "White on Info Status", true),
      Combo(c.statusSuccess, c.bgPrimary, "Success Status on Background", false),
      Combo(c.statusError, c.bgPrimary, "Error Status on Background", false)
    ]
  }

  /** One checked combination. `ratio` is rounded to hundredths; the level
      and `passed` are decided on the unrounded ratio. */
  datatype CheckResult = CheckResult(name: string, foreground: string, background: string, ratio: real,
                                     compliance: Level, passed: bool, critical: bool)

  /** The result for one combination. */
  function Check(combo: Combo, gamma: real -> real): CheckResult
    requires UnitCurve(gamma)
  {
    var ratio := ContrastRatio(combo.fg, combo.bg, gamma);
    CheckResult(combo.name, combo.fg, combo.bg, Round2(ratio),
                ComplianceLevel(ratio, false), ratio >= AaMinimum(false), combo.critical)
  }

  /** A result passes exactly when it is not a failure. */
  lemma PassedIffNotFail(combo: Combo, gamma: real -> real)
    requires UnitCurve(gamma)
    ensures Check(combo, gamma).passed <==> Check(combo, gamma).compliance != Fail
    ensures Check(combo, gamma).name == combo.name && Check(combo, gamma).critical == combo.critical
  {
  }

  /** The results of a list of combinations, in order. */
  function Checks(combos: seq<Combo>, gamma: real -> real): (r: seq<CheckResult>)
    requires UnitCurve(gamma)
    ensures |r| == |combos|
    ensures forall i :: 0 <= i < |combos| ==> r[i] == Check(combos[i], gamma)
  {
    seq(|combos|, i requires 0 <= i < |combos| => Check(combos[i], gamma))
  }

  /** `validateLightTheme`: one result per combination, pushed in order. */
  method ValidateLightTheme(gamma: real -> real) returns (results: seq<CheckResult>)
    requires UnitCurve(gamma)
    ensures results == Checks(LightCombos(LightTheme), gamma)
  {
    results := CheckAll(LightCombos(LightTheme), gamma);
  }

  /** The `forEach` loop of `validateLightTheme`. */
  method CheckAll(combos: seq<Combo>, gamma: real -> real) returns (results: seq<CheckResult>)
    requires UnitCurve(gamma)
    ensures results == Checks(combos, gamma)
  {
    results := [];
    var i := 0;
    while i < |combos|
      invariant 0 <= i <= |combos| && |results| == i
      invariant forall k :: 0 <= k < i ==> results[k] == Check(combos[k], gamma)
    {
      results := results + [Check(combos[i], gamma)];
      i := i + 1;
    }
  }

  /** Seventeen results, all colours well formed (so no ratio is the 0 of a
      parse failure), exactly the last two not critical. */
  lemma LightThemeShape(gamma: real -> real)
    requires UnitCurve(gamma)
    ensures var combos := LightCombos(LightTheme);
      && |combos| == 17
      && (forall i :: 0 <= i < 17 ==> IsHexColor(combos[i].fg) && IsHexColor(combos[i].bg))
      && (forall i :: 0 <= i < 17 ==> (combos[i].critical <==> i < 15))
  {
    var combos := LightCombos(LightTheme);
    forall i | 0 <= i < 17 ensures IsHexColor(combos[i].fg) && IsHexColor(combos[i].bg) {
      HexColorsOfTheme(combos[i].fg);
      HexColorsOfTheme(combos[i].bg);
    }
  }

  /** The theme's colours and white are well formed. */
  lemma HexColorsOfTheme(hex: string)
    requires hex in {White, "#0c1419", "#1e2e38", "#3c4a54", "#1565c0", "#fefefe", "#f7f9fc", "#f1f5f9",
                     "#2563eb", "#0067c5", "#7c3aed", "#0f7a22", "#a55a00", "#dc2626"}
    ensures IsHexColor(hex)
  {
  }

  /** The results at a level, in order: one group of `generateReport`. */
  function AtLevel(results: seq<CheckResult>, level: Level): (r: seq<CheckResult>)
    ensures |r| <= |results|
  {
    if results == [] then []
    else
      AtLevel(results[..|results| - 1], level)
        + (if results[|results| - 1].compliance == level then [results[|results| - 1]] else [])
  }

  /** The results with `passed` set. */
  function PassedOf(results: seq<CheckResult>): (r: seq<CheckResult>)
    ensures |r| <= |results|
  {
    if results == [] then []
    else
      PassedOf(results[..|results| - 1])
        + (if results[|results| - 1].passed then [results[|results| - 1]] else [])
  }

  /** The three groups share out the results: their sizes add up to the
      number of results (and each holds exactly the results of its level,
      below). */
  lemma {:induction false} GroupsCount(results: seq<CheckResult>)
    ensures |AtLevel(results, AAA)| + |AtLevel(results, AA)| + |AtLevel(results, Fail)| == |results|
  {
    if results != [] {
      GroupsCount(results[..|results| - 1]);
    }
  }

  /** Every member of a group has that group's level. */
  lemma {:induction false} AtLevelMembers(results: seq<CheckResult>, level: Level)
    ensures forall r :: r in AtLevel(results, level) <==> r in results && r.compliance == level
  {
    if results != [] {
      var init := results[..|results| - 1];
      AtLevelMembers(init, level);
      assert results == init + [results[|results| - 1]];
    }
  }

  /** For results that pass exactly when they do not fail (as every checked
      result does), the passed count of the report is the number of AAA and AA
      results. */
  lemma {:induction false} PassedCount(results: seq<CheckResult>)
    requires forall i :: 0 <= i < |results| ==> (results[i].passed <==> results[i].compliance != Fail)
    ensures |PassedOf(results)| == |AtLevel(results, AAA)| + |AtLevel(results, AA)|
  {
    if results != [] {
      var init := results[..|results| - 1];
      assert forall i :: 0 <= i < |init| ==> init[i] == results[i];
      PassedCount(init);
    }
  }

  /** The results flagged critical, in order. */
  function CriticalOf(results: seq<CheckResult>): (r: seq<CheckResult>)
    ensures |r| <= |results|
  {
    if results == [] then []
    else
      CriticalOf(results[..|results| - 1])
        + (if results[|results| - 1].critical then [results[|results| - 1]] else [])
  }

  /** The counts `generateReport` prints for a list of results. */
  datatype ReportCounts = ReportCounts(passed: nat, total: nat, critical: nat, criticalPassed: nat,
                                       aaaCount: nat, aaCount: nat, failCount: nat)

  function Counts(results: seq<CheckResult>): ReportCounts {
    var critical := CriticalOf(results);
    ReportCounts(|PassedOf(results)|, |results|, |critical|, |PassedOf(critical)|,
                 |AtLevel(results, AAA)|, |AtLevel(results, AA)|, |AtLevel(results, Fail)|)
  }

  /** For checked results the report's counts agree: the passed ones are the
      AAA and AA ones, the failures the rest, and "all combinations meet AA"
      is printed exactly when every result passed. */
  lemma ReportConsistent(combos: seq<Combo>, gamma: real -> real)
    requires UnitCurve(gamma)
    ensures var c := Counts(Checks(combos, gamma));
      && c.passed == c.aaaCount + c.aaCount
      && c.failCount == c.total - c.passed
      && c.criticalPassed <= c.critical <= c.total
      && (c.failCount == 0 <==> forall i :: 0 <= i < |combos| ==> Checks(combos, gamma)[i].passed)
  {
    var results := Checks(combos, gamma);
    forall i | 0 <= i < |results| ensures results[i].passed <==> results[i].compliance != Fail {
      PassedIffNotFail(combos[i], gamma);
    }
    PassedCount(results);
    GroupsCount(results);
    AtLevelMembers(results, Fail);
    if |AtLevel(results, Fail)| == 0 {
      forall i | 0 <= i < |results| ensures results[i].passed {
        assert results[i] in results;
      }
    } else {
      var r := AtLevel(results, Fail)[0];
      assert r in AtLevel(results, Fail);
      var i :| 0 <= i < |results| && results[i] == r;
    }
  }
}
