/** The analyzer page's own logic: the static metrics, written-number
    conversion, normalisation of the AI's answer, function-boundary
    truncation of large uploads, code-fence stripping, upload validation,
    API-key readiness and the theme state. Regular-expression scans (the
    decision-token count, the function headers) and JavaScript's `Number()`
    coercion are inputs. */
module AppCore {
  import opened Wrappers
  import opened Text
  import opened WrittenNumbers
  import CfgCalculator

  // ---------------------------------------------------------------------
  // performStaticAnalysis
  // ---------------------------------------------------------------------

  /** A line that counts as code: non-blank after trimming, not a `//`
      comment, and not a lone `{`, `}` or `;`. */
  predicate Testable(line: string) {
    var t := Trim(line);
    t != "" && !StartsWith(t, "//") && t != "{" && t != "}" && t != ";"
  }

  function LocOf(lines: seq<string>): nat {
    if lines == [] then 0 else LocOf(lines[..|lines| - 1]) + (if Testable(lines[|lines| - 1]) then 1 else 0)
  }

  /** No more lines count than there are. */
  lemma {:induction false} LocBound(lines: seq<string>)
    ensures LocOf(lines) <= |lines|
  {
    if lines != [] {
      LocBound(lines[..|lines| - 1]);
    }
  }

  /** A testable line makes the count positive. */
  lemma {:induction false} LocCounts(lines: seq<string>, j: nat)
    requires j < |lines| && Testable(lines[j])
    ensures LocOf(lines) > 0
  {
    if j < |lines| - 1 {
      var init := lines[..|lines| - 1];
      assert init[j] == lines[j];
      LocCounts(init, j);
    }
  }

  /** With a zero count, no line is testable. */
  lemma {:induction false} LocZero(lines: seq<string>, i: nat)
    requires i < |lines| && LocOf(lines) == 0
    ensures !Testable(lines[i])
  {
    if i < |lines| - 1 {
      var init := lines[..|lines| - 1];
      assert init[i] == lines[i];
      LocZero(init, i);
    }
  }

  /** No more lines count than there are, and none exactly when no line is
      testable. */
  lemma LocFacts(lines: seq<string>)
    ensures LocOf(lines) <= |lines|
    ensures LocOf(lines) == 0 <==> forall i :: 0 <= i < |lines| ==> !Testable(lines[i])
  {
    LocBound(lines);
    if LocOf(lines) == 0 {
      forall i | 0 <= i < |lines| ensures !Testable(lines[i]) {
        LocZero(lines, i);
      }
    } else {
      forall i | 0 <= i < |lines| ensures Testable(lines[i]) ==> LocOf(lines) > 0 {
        if Testable(lines[i]) { LocCounts(lines, i); }
      }
    }
  }

  /** The running depth: `{` deepens, `}` rises but never below 0. */
  function DepthAfter(s: string): nat {
    if s == [] then 0
    else
      var d := DepthAfter(s[..|s| - 1]);
      if s[|s| - 1] == '{' then d + 1 else if s[|s| - 1] == '}' then (if d == 0 then 0 else d - 1) else d
  }

  /** The deepest running depth over all prefixes. */
  function MaxDepthOf(s: string): nat {
    if s == [] then 0
    else
      var m := MaxDepthOf(s[..|s| - 1]);
      if DepthAfter(s) > m then DepthAfter(s) else m
  }

  /** One more character of the depth scan. */
  lemma DepthStep(s: string, i: nat)
    requires i < |s|
    ensures var d := DepthAfter(s[..i]);
      DepthAfter(s[..i + 1]) == if s[i] == '{' then d + 1 else if s[i] == '}' then (if d == 0 then 0 else d - 1) else d
    ensures MaxDepthOf(s[..i + 1])
         == if DepthAfter(s[..i + 1]) > MaxDepthOf(s[..i]) then DepthAfter(s[..i + 1]) else MaxDepthOf(s[..i])
  {
    assert s[..i + 1][..i] == s[..i];
  }

  function OpenCount(s: string): nat {
    if s == [] then 0 else OpenCount(s[..|s| - 1]) + (if s[|s| - 1] == '{' then 1 else 0)
  }

  /** The nesting depth bounds every prefix's depth, is reached by one of
      them, and is at most the number of `{`. */
  lemma {:induction false} MaxDepthFacts(s: string)
    ensures forall i :: 0 <= i <= |s| ==> DepthAfter(s[..i]) <= MaxDepthOf(s)
    ensures exists i :: 0 <= i <= |s| && DepthAfter(s[..i]) == MaxDepthOf(s)
    ensures DepthAfter(s) <= OpenCount(s) && MaxDepthOf(s) <= OpenCount(s)
  {
    if s == [] {
      assert DepthAfter(s[..0]) == 0;
    } else {
      var init := s[..|s| - 1];
      MaxDepthFacts(init);
      assert forall i :: 0 <= i <= |init| ==> init[..i] == s[..i];
      assert s[..|s|] == s;
      var j :| 0 <= j <= |init| && DepthAfter(init[..j]) == MaxDepthOf(init);
      if DepthAfter(s) > MaxDepthOf(init) {
        assert DepthAfter(s[..|s|]) == MaxDepthOf(s);
      } else {
        assert DepthAfter(s[..j]) == MaxDepthOf(s);
      }
    }
  }

  /** The brace scan of `performStaticAnalysis`: the deepest nesting reached. */
  method NestingDepth(code: string) returns (maxDepth: nat)
    ensures maxDepth == MaxDepthOf(code)
  {
    var depth: nat := 0;
    maxDepth := 0;
    var i := 0;
    while i < |code|
      invariant 0 <= i <= |code|
      invariant depth == DepthAfter(code[..i]) && maxDepth == MaxDepthOf(code[..i])
    {
      DepthStep(code, i);
      var ch := code[i];
      if ch == '{' {
        depth := depth + 1;
        maxDepth := if maxDepth > depth then maxDepth else depth;
      } else if ch == '}' {
        depth := if depth - 1 < 0 then 0 else depth - 1;
      }
      i := i + 1;
    }
    assert code[..|code|] == code;
  }

  datatype StaticResult = StaticResult(loc: nat, c1: int, c2: int, c3: int, decisionPoints: nat,
                                       nestingDepth: nat, cfgUsed: bool)

  /** `performStaticAnalysis(code)`, given the number of decision tokens the
      expression finds. The primary complexity comes from the app's
      control-flow graph calculator, which analyses the code afresh. */
  method PerformStaticAnalysis(code: string, decisionPoints: nat) returns (r: StaticResult)
    ensures r.loc == LocOf(SplitLines(code))
    ensures r.nestingDepth == MaxDepthOf(code)
    ensures r.decisionPoints == decisionPoints
    ensures r.c2 == decisionPoints + 1 && r.c3 == decisionPoints + 1
    ensures r.c1 == 1 && r.cfgUsed
  {
    var lines := SplitLines(code);
    var loc := LocOf(lines);
    var maxDepth := NestingDepth(code);
    var c1 := if decisionPoints + 1 < 1 then 1 else decisionPoints + 1;
    var c2 := if decisionPoints + 1 < 1 then 1 else decisionPoints + 1;
    var c3 := if c1 < 1 then 1 else c1;
    var cfg := new CfgCalculator.CFGCalculator();
    var cfgResult := cfg.Analyze(Some(code));
    var used := cfgResult.success && cfgResult.metrics.Some?;
    var primary := if used then cfgResult.metrics.value.cyclomaticComplexity else c1;
    r := StaticResult(loc, primary, c2, c3, decisionPoints, maxDepth, used);
  }

  // ---------------------------------------------------------------------
  // validateAndNormalizeAIResult / extractNumberFromObject
  // ---------------------------------------------------------------------

  /** A parsed JSON value; object fields keep their order. */
  datatype Value = Num(x: real) | Str(s: string) | Bool(b: bool) | Null
                 | Arr(items: seq<Value>) | Obj(fields: seq<Field>)
  datatype Field = Field(key: string, value: Value)

  /** `obj[key]` on a parsed object; `JSON.parse` keeps the last of repeated keys. */
  function Lookup(fields: seq<Field>, key: string): (r: Option<Value>)
    ensures r.None? <==> forall k :: 0 <= k < |fields| ==> fields[k].key != key
  {
    if fields == [] then None
    else if fields[|fields| - 1].key == key then Some(fields[|fields| - 1].value)
    else Lookup(fields[..|fields| - 1], key)
  }

  /** A key found is the value of its last field. */
  lemma {:induction false} LookupLast(fields: seq<Field>, key: string)
    ensures Lookup(fields, key).Some? ==>
      exists k :: 0 <= k < |fields| && fields[k] == Field(key, Lookup(fields, key).value)
                  && forall i :: k < i < |fields| ==> fields[i].key != key
  {
    if fields != [] && fields[|fields| - 1].key != key {
      var init := fields[..|fields| - 1];
      LookupLast(init, key);
      if Lookup(fields, key).Some? {
        var k :| 0 <= k < |init| && init[k] == Field(key, Lookup(init, key).value)
                 && forall i :: k < i < |init| ==> init[i].key != key;
        assert fields[k] == init[k];
        assert forall i :: k < i < |fields| - 1 ==> fields[i] == init[i];
      }
    }
  }

  /** A finite number that is also a non-negative integer. */
  predicate IsNatValue(x: real) {
    x >= 0.0 && x.Floor as real == x
  }

  /** `Number(v)` when finite: `toNumber` is JavaScript's coercion, with
      None for NaN and the infinities. */
  function FirstNonNegative(values: seq<Value>, toNumber: Value -> Option<real>): (r: real)
    ensures r >= 0.0
  {
    if values == [] then 0.0
    else
      var n := toNumber(values[0]);
      if n.Some? && n.value >= 0.0 then n.value else FirstNonNegative(values[1..], toNumber)
  }

  const PriorityKeys := ["effort", "volume", "difficulty", "complexity", "value", "score",
                         "halstead", "cognitive", "cyclomatic"]

  function PriorityValue(fields: seq<Field>, keys: seq<string>, toNumber: Value -> Option<real>): (r: Option<real>)
    ensures r.Some? ==> r.value >= 0.0
  {
    if keys == [] then None
    else
      var v := Lookup(fields, keys[0]);
      if v.Some? && toNumber(v.value).Some? && toNumber(v.value).value >= 0.0 then toNumber(v.value)
      else PriorityValue(fields, keys[1..], toNumber)
  }

  function FieldValues(fields: seq<Field>): (vs: seq<Value>)
    ensures |vs| == |fields| && forall k :: 0 <= k < |vs| ==> vs[k] == fields[k].value
  {
    seq(|fields|, k requires 0 <= k < |fields| => fields[k].value)
  }

  /** `extractNumberFromObject(obj)`: the first priority key with a finite
      non-negative value, else the first such value of any entry, else 0. */
  function ExtractNumberFromObject(v: Value, toNumber: Value -> Option<real>): (r: real)
    ensures r >= 0.0
  {
    match v
    case Obj(fields) =>
      var p := PriorityValue(fields, PriorityKeys, toNumber);
      if p.Some? then p.value else FirstNonNegative(FieldValues(fields), toNumber)
    case Arr(items) => FirstNonNegative(items, toNumber)
    case _ => 0.0
  }

  predicate IsPriorityResult(fields: seq<Field>, keys: seq<string>, toNumber: Value -> Option<real>, x: real) {
    exists k :: 0 <= k < |keys| && Lookup(fields, keys[k]).Some? && toNumber(Lookup(fields, keys[k]).value) == Some(x)
  }

  /** A priority hit is a finite non-negative coercion of one of the
      priority keys. */
  lemma {:induction false} PriorityValueFacts(fields: seq<Field>, keys: seq<string>, toNumber: Value -> Option<real>)
    ensures var p := PriorityValue(fields, keys, toNumber);
      p.Some? ==> IsPriorityResult(fields, keys, toNumber, p.value)
  {
    if keys != [] {
      PriorityValueFacts(fields, keys[1..], toNumber);
      var p := PriorityValue(fields, keys, toNumber);
      if p.Some? && p != PriorityValue(fields, keys[1..], toNumber) {
        assert Lookup(fields, keys[0]).Some? && toNumber(Lookup(fields, keys[0]).value) == p;
      } else if p.Some? {
        var k :| 0 <= k < |keys[1..]| && Lookup(fields, keys[1..][k]).Some?
                 && toNumber(Lookup(fields, keys[1..][k]).value) == Some(p.value);
        assert keys[1..][k] == keys[k + 1];
      }
    }
  }

  /** The number `extractStrictNumber(obj, key)` takes: a non-negative
      integer number as is; a string as its written number, else its
      leading decimal integer when non-negative; an object or array through
      `extractNumberFromObject` when the result is an integer; else 0. */
  function ExtractStrictNumber(fields: seq<Field>, key: string, toNumber: Value -> Option<real>): nat {
    var v := Lookup(fields, key);
    if v.None? then 0
    else match v.value
      case Num(x) => if IsNatValue(x) then x.Floor as nat else 0
      case Str(s) =>
        var w := ConvertWrittenNumber(Some(s));
        if w.Some? then w.value
        else
          var p := ParseInt(s);
          if p.Some? && p.value >= 0 then p.value as nat else 0
      case Obj(_) =>
        var e := ExtractNumberFromObject(v.value, toNumber);
        if IsNatValue(e) then e.Floor as nat else 0
      case Arr(_) =>
        var e := ExtractNumberFromObject(v.value, toNumber);
        if IsNatValue(e) then e.Floor as nat else 0
      case _ => 0
  }

  /** The longest run of decimal digits at the start of `s`. */
  function DigitRun(s: string): (r: string)
    ensures |r| <= |s| && r == s[..|r|]
    ensures forall i :: 0 <= i < |r| ==> IsDigit(r[i])
    ensures |r| < |s| ==> !IsDigit(s[|r|])
  {
    if s != [] && IsDigit(s[0]) then [s[0]] + DigitRun(s[1..]) else []
  }

  /** `parseInt(s, 10)`: leading white space, an optional sign, then the
      leading digits; None (NaN) without any digit. */
  function ParseInt(s: string): Option<int> {
    var t := TrimStart(s);
    var negative := t != [] && t[0] == '-';
    var body := if t != [] && (t[0] == '-' || t[0] == '+') then t[1..] else t;
    var digits := DigitRun(body);
    if digits == [] then None
    else if negative then Some(-(DigitsValue(digits) as int))
    else Some(DigitsValue(digits))
  }

  const AllowedKeys := ["loc", "complexity1", "complexity2", "complexity3", "notes"]
  const NotObject := "Parsed result is not an object"
  const C1Warning := "Cyclomatic complexity must be at least 1"
  const ZeroWarning := "Warning: All complexity values are zero - review AI analysis"

  function WarningsNote(errors: seq<string>): string {
    "Validation warnings: " + JoinComma(errors)
  }

  /** `errors.join(', ')`. */
  function JoinComma(parts: seq<string>): string {
    if parts == [] then "" else if |parts| == 1 then parts[0] else parts[0] + ", " + JoinComma(parts[1..])
  }

  datatype AIResult = AIResult(loc: int, c1: int, c2: int, c3: int, notes: seq<string>,
                               parseStrategy: string, schemaCompliant: bool, originalKeys: seq<string>)

  /** The notes the answer carries: the non-blank strings of an array, or a
      non-blank string on its own. */
  function NotesOf(notes: Option<Value>): (r: seq<string>)
    ensures forall k :: 0 <= k < |r| ==> Trim(r[k]) != ""
  {
    if notes.None? then []
    else match notes.value
      case Arr(items) => StringNotes(items)
      case Str(s) => if Trim(s) != "" then [s] else []
      case _ => []
  }

  function StringNotes(items: seq<Value>): (r: seq<string>)
    ensures |r| <= |items|
    ensures forall k :: 0 <= k < |r| ==> Trim(r[k]) != ""
  {
    if items == [] then []
    else
      var rest := StringNotes(items[..|items| - 1]);
      var last := items[|items| - 1];
      if last.Str? && Trim(last.s) != "" then
        NonBlankSnoc(rest, last.s);
        rest + [last.s]
      else rest
  }

  lemma NonBlankSnoc(notes: seq<string>, s: string)
    requires forall k :: 0 <= k < |notes| ==> Trim(notes[k]) != ""
    requires Trim(s) != ""
    ensures forall k :: 0 <= k < |notes + [s]| ==> Trim((notes + [s])[k]) != ""
  {
    forall k | 0 <= k < |notes + [s]|
      ensures Trim((notes + [s])[k]) != ""
    {
      if k < |notes| {
        assert (notes + [s])[k] == notes[k];
      } else {
        assert (notes + [s])[k] == s;
      }
    }
  }

  /** The pass that deletes every key outside the expected five, keeping
      the rest in order. */
  method DeleteUnexpectedKeys(fields: seq<Field>) returns (kept: seq<Field>)
    ensures |kept| <= |fields|
    ensures forall k :: 0 <= k < |kept| ==> kept[k].key in AllowedKeys && kept[k] in fields
    ensures forall k :: 0 <= k < |fields| && fields[k].key in AllowedKeys ==> fields[k] in kept
  {
    kept := [];
    var i := 0;
    while i < |fields|
      invariant 0 <= i <= |fields| && |kept| <= i
      invariant forall k :: 0 <= k < |kept| ==> kept[k].key in AllowedKeys && kept[k] in fields
      invariant forall k :: 0 <= k < i && fields[k].key in AllowedKeys ==> fields[k] in kept
    {
      if fields[i].key in AllowedKeys {
        kept := kept + [fields[i]];
      }
      i := i + 1;
    }
  }

  /** The notes a normalised result carries, in order: the status note when
      there is one, the answer's own notes, and the warning when cyclomatic
      complexity had to be raised to 1. */
  function ResultNotes(statusNote: string, own: seq<string>, compliant: bool): seq<string> {
    (if statusNote != "" then [statusNote] else []) + own + (if compliant then [] else [WarningsNote([C1Warning])])
  }

  /** `validateAndNormalizeAIResult(parsed, statusNote, parseStrategy)`.
      Returns the fields left in `parsed` after the unexpected keys are
      deleted, with the result; a value that is not an object throws. */
  method ValidateAndNormalize(parsed: Value, statusNote: string, parseStrategy: string,
                              toNumber: Value -> Option<real>)
    returns (r: Result<(seq<Field>, AIResult), string>)
    ensures r.Err? <==> !(parsed.Obj? || parsed.Arr?)
    ensures r.Err? ==> r.error == NotObject
    ensures r.Ok? ==> forall k :: 0 <= k < |r.value.0| ==> r.value.0[k].key in AllowedKeys
    ensures r.Ok? && parsed.Obj? ==>
      forall k :: 0 <= k < |parsed.fields| && parsed.fields[k].key in AllowedKeys ==> parsed.fields[k] in r.value.0
    ensures r.Ok? ==> forall k :: 0 <= k < |r.value.1.originalKeys| ==> r.value.1.originalKeys[k] in AllowedKeys
    ensures r.Ok? ==> r.value.1.loc == ExtractStrictNumber(r.value.0, "loc", toNumber)
    ensures r.Ok? ==> r.value.1.c2 == ExtractStrictNumber(r.value.0, "complexity2", toNumber)
    ensures r.Ok? ==> r.value.1.c3 == ExtractStrictNumber(r.value.0, "complexity3", toNumber)
    ensures r.Ok? ==> r.value.1.c1 >= 1
    ensures r.Ok? ==> (r.value.1.schemaCompliant <==> ExtractStrictNumber(r.value.0, "complexity1", toNumber) >= 1)
    ensures r.Ok? && r.value.1.schemaCompliant ==> r.value.1.c1 == ExtractStrictNumber(r.value.0, "complexity1", toNumber)
    ensures r.Ok? && !r.value.1.schemaCompliant ==> r.value.1.c1 == 1
    ensures r.Ok? ==> r.value.1.notes == ResultNotes(statusNote, NotesOf(Lookup(r.value.0, "notes")), r.value.1.schemaCompliant)
    ensures r.Ok? ==> r.value.1.parseStrategy == parseStrategy
  {
    if !(parsed.Obj? || parsed.Arr?) {
      return Err(NotObject);
    }
    var kept := DeleteUnexpectedKeys(if parsed.Obj? then parsed.fields else []);
    var loc: int := ExtractStrictNumber(kept, "loc", toNumber);
    var c1: int := ExtractStrictNumber(kept, "complexity1", toNumber);
    var c2: int := ExtractStrictNumber(kept, "complexity2", toNumber);
    var c3: int := ExtractStrictNumber(kept, "complexity3", toNumber);
    var compliant := true;
    var errors: seq<string> := [];
    if loc < 0 {
      errors := errors + ["LOC must be non-negative"];
      loc := 0;
    }
    if c1 < 1 {
      errors := errors + [C1Warning];
      c1 := 1;
    }
    if c2 < 0 {
      errors := errors + ["Cognitive complexity must be non-negative"];
      c2 := 0;
    }
    if c3 < 0 {
      errors := errors + ["Halstead complexity must be non-negative"];
      c3 := 0;
    }
    var notes := NotesOf(Lookup(kept, "notes"));
    if statusNote != "" {
      notes := [statusNote] + notes;
    }
    if |errors| > 0 {
      notes := notes + [WarningsNote(errors)];
      compliant := false;
    }
    var hasValidData := loc > 0 || c1 > 0 || c2 > 0 || c3 > 0;
    if !hasValidData {
      notes := notes + [ZeroWarning];
      compliant := false;
    }
    var keys := seq(|kept|, k requires 0 <= k < |kept| => kept[k].key);
    r := Ok((kept, AIResult(loc, c1, c2, c3, notes, parseStrategy, compliant, keys)));
  }

  // ---------------------------------------------------------------------
  // findFunctionEnd / truncateAtFunctionBoundary / prepareCodeForAnalysis
  // ---------------------------------------------------------------------

  /** `{` minus `}`, without a floor. */
  function Balance(s: string): int {
    if s == [] then 0
    else Balance(s[..|s| - 1]) + (if s[|s| - 1] == '{' then 1 else if s[|s| - 1] == '}' then -1 else 0)
  }

  /** `s[..e]` ends with a `}` that brings the count back to 0 after at
      least one `{`. */
  predicate EndsFunction(s: string, e: int) {
    1 <= e <= |s| && s[e - 1] == '}' && Balance(s[..e]) == 0 && OpenCount(s[..e]) > 0
  }

  /** How one more character moves the count and the seen-an-opening flag. */
  lemma EndsFunctionStep(s: string, i: nat)
    requires i < |s|
    ensures Balance(s[..i + 1]) == Balance(s[..i]) + (if s[i] == '{' then 1 else if s[i] == '}' then -1 else 0)
    ensures OpenCount(s[..i + 1]) > 0 <==> OpenCount(s[..i]) > 0 || s[i] == '{'
    ensures EndsFunction(s, i + 1) <==> s[i] == '}' && Balance(s[..i]) == 1 && OpenCount(s[..i]) > 0
  {
    assert s[..i + 1][..i] == s[..i];
  }

  /** The first end of a function in `s` from `e` on, or -1. */
  function FirstEndFrom(s: string, e: nat): (r: int)
    ensures r == -1 ==> forall e' :: e <= e' ==> !EndsFunction(s, e')
    ensures r != -1 ==> e <= r && EndsFunction(s, r) && forall e' :: e <= e' < r ==> !EndsFunction(s, e')
    decreases |s| + 1 - e
  {
    if e > |s| then -1 else if EndsFunction(s, e) then e else FirstEndFrom(s, e + 1)
  }

  /** The first end of a function in `s`, or -1. */
  function FunctionEnd(s: string): int {
    FirstEndFrom(s, 0)
  }

  /** `findFunctionEnd(code)`: the first such end, or -1. */
  method FindFunctionEnd(s: string) returns (r: int)
    ensures r == -1 || (EndsFunction(s, r) && forall e :: e < r ==> !EndsFunction(s, e))
    ensures r == -1 ==> forall e :: !EndsFunction(s, e)
    ensures r == FunctionEnd(s)
  {
    var braceCount := 0;
    var inFunction := false;
    var i := 0;
    while i < |s|
      invariant 0 <= i <= |s|
      invariant braceCount == Balance(s[..i])
      invariant inFunction <==> OpenCount(s[..i]) > 0
      invariant forall e :: e <= i ==> !EndsFunction(s, e)
    {
      EndsFunctionStep(s, i);
      var ch := s[i];
      if ch == '{' {
        braceCount := braceCount + 1;
        inFunction := true;
      } else if ch == '}' {
        braceCount := braceCount - 1;
        if inFunction && braceCount == 0 {
          return i + 1;
        }
      }
      i := i + 1;
    }
    r := -1;
  }

  /** The index of the first boundary beyond `maxLength`, or `|boundaries|`. */
  function FirstBeyond(boundaries: seq<nat>, maxLength: int): (j: nat)
    ensures j <= |boundaries| && (j < |boundaries| ==> boundaries[j] > maxLength)
    ensures forall k :: 0 <= k < j ==> boundaries[k] <= maxLength
  {
    if boundaries == [] then 0
    else if boundaries[0] > maxLength then 0
    else 1 + FirstBeyond(boundaries[1..], maxLength)
  }

  /** What the boundary loop leaves in `lastValidBoundary`: the boundary just
      before the first one beyond the limit, or 0 when there is none. */
  function LastValidBoundary(boundaries: seq<nat>, maxLength: int): (b: nat)
    ensures b == 0 || b in boundaries
    ensures b == 0 || b <= maxLength
  {
    var j := FirstBeyond(boundaries, maxLength);
    if j == 0 then 0 else boundaries[j - 1]
  }

  /** The cut `truncateAtFunctionBoundary` makes: the code up to the last
      boundary within the limit, extended through the end of the function
      that starts there when that end still fits. */
  function BoundaryCut(code: string, maxLength: int, boundaries: seq<nat>): (r: string)
    requires forall k :: 0 <= k < |boundaries| ==> boundaries[k] <= |code|
    ensures |r| <= |code| && r == code[..|r|]
    ensures maxLength >= 0 ==> |r| <= maxLength
    ensures maxLength < 0 ==> r == ""
    ensures var b := LastValidBoundary(boundaries, maxLength);
      && |r| >= b
      && (|r| > b ==> b > 0 && |r| - b == FunctionEnd(code[b..]) && EndsFunction(code[b..], |r| - b))
      && (|r| == b ==> b == 0 || FunctionEnd(code[b..]) <= 0 || b + FunctionEnd(code[b..]) > maxLength)
  {
    var b := LastValidBoundary(boundaries, maxLength);
    var e := FunctionEnd(code[b..]);
    if b > 0 && e > 0 && b + e <= maxLength then code[..b + e] else code[..b]
  }

  /** `truncateAtFunctionBoundary(code, maxLength, boundaries)` with the
      start offsets of the function headers, in order. */
  method TruncateAtFunctionBoundary(code: string, maxLength: int, boundaries: seq<nat>) returns (r: string)
    requires forall k :: 0 <= k < |boundaries| ==> boundaries[k] <= |code|
    ensures |r| <= |code| && r == code[..|r|]
    ensures maxLength >= 0 ==> |r| <= maxLength
    ensures maxLength < 0 ==> r == ""
    ensures |r| == 0 || (exists k :: 0 <= k < |boundaries| && boundaries[k] == |r|) || r[|r| - 1] == '}'
    ensures r == BoundaryCut(code, maxLength, boundaries)
  {
    var lastValidBoundary := 0;
    var i := 0;
    while i < |boundaries|
      invariant 0 <= i <= |boundaries|
      invariant forall k :: 0 <= k < i ==> boundaries[k] <= maxLength
      invariant lastValidBoundary == (if i == 0 then 0 else boundaries[i - 1])
    {
      if boundaries[i] > maxLength {
        break;
      }
      lastValidBoundary := boundaries[i];
      i := i + 1;
    }
    FirstBeyondAt(boundaries, maxLength, i);
    if lastValidBoundary > 0 {
      var remaining := code[lastValidBoundary..];
      var functionEnd := FindFunctionEnd(remaining);
      if functionEnd > 0 && lastValidBoundary + functionEnd <= maxLength {
        assert remaining[functionEnd - 1] == '}';
        return code[..lastValidBoundary + functionEnd];
      }
    }
    r := code[..lastValidBoundary];
  }

  /** `FirstBeyond` is the only index with its two properties. */
  lemma FirstBeyondAt(boundaries: seq<nat>, maxLength: int, j: nat)
    requires j <= |boundaries| && (j < |boundaries| ==> boundaries[j] > maxLength)
    requires forall k :: 0 <= k < j ==> boundaries[k] <= maxLength
    ensures FirstBeyond(boundaries, maxLength) == j
  {
  }

  const MaxChars := 32000 * 4
  const FallbackLimit := 16000
  const TruncatedNote := "\n\n/* ... FILE TRUNCATED FOR ANALYSIS ... */"
  const OmittedNote := "\n\n/* ... LESS IMPORTANT SECTIONS OMITTED ... */"

  /** `prepareCodeForAnalysis(code)`, given the function header offsets and
      the text the important-sections extraction produces. */
  method PrepareCodeForAnalysis(code: string, boundaries: seq<nat>, important: string) returns (r: string)
    requires forall k :: 0 <= k < |boundaries| ==> boundaries[k] <= |code|
    ensures |code| <= MaxChars ==> r == code
    ensures |code| > MaxChars ==>
      || (EndsWith(r, TruncatedNote) && StartsWith(code, r[..|r| - |TruncatedNote|]) && |r| - |TruncatedNote| <= MaxChars)
      || r == important + OmittedNote
    ensures |code| > MaxChars ==>
      var cut := BoundaryCut(code, MaxChars, boundaries);
      r == (if |boundaries| > 0 && |cut| > FallbackLimit then cut + TruncatedNote
            else if |important| > FallbackLimit then important + OmittedNote
            else code[..FallbackLimit] + TruncatedNote)
  {
    if |code| <= MaxChars {
      return code;
    }
    if |boundaries| > 0 {
      var truncated := TruncateAtFunctionBoundary(code, MaxChars, boundaries);
      if |truncated| > FallbackLimit {
        r := truncated + TruncatedNote;
        assert r[..|r| - |TruncatedNote|] == truncated;
        return;
      }
    }
    if |important| > FallbackLimit {
      return important + OmittedNote;
    }
    r := code[..FallbackLimit] + TruncatedNote;
    assert r[..|r| - |TruncatedNote|] == code[..FallbackLimit];
  }

  // ---------------------------------------------------------------------
  // stripCodeFences
  // ---------------------------------------------------------------------

  predicate IsTagChar(c: char) {
    'a' <= c <= 'z' || 'A' <= c <= 'Z' || '0' <= c <= '9' || c == '_' || c == '-'
  }

  /** Drops the longest leading run of language-tag characters. */
  function DropTag(s: string): (r: string)
    ensures |r| <= |s| && r == s[|s| - |r|..]
    ensures r == [] || !IsTagChar(r[0])
  {
    if s != [] && IsTagChar(s[0]) then DropTag(s[1..]) else s
  }

  /** What is left of a text that opens a fence once the fence, its
      language tag and the white space after them are removed. */
  function AfterOpenFence(t: string): string
    requires StartsWith(t, "```")
  {
    TrimStart(DropTag(t[3..]))
  }

  /** A closing fence followed only by white space is removed. */
  function WithoutCloseFence(u: string): string {
    var v := TrimEnd(u);
    if EndsWith(v, "```") then v[..|v| - 3] else u
  }

  /** `stripCodeFences(text)`: trimmed, and when it opens a fence, without
      its opening and closing fences, trimmed again. A missing or empty text
      is returned as it is. */
  function StripCodeFences(text: Option<string>): (r: Option<string>)
    ensures text.None? || text == Some("") ==> r == text
    ensures text.Some? && text.value != "" && !StartsWith(Trim(text.value), "```") ==> r == Some(Trim(text.value))
    ensures r.Some? && text != Some("") ==> r.value == [] || (!IsJsSpace(r.value[0]) && !IsJsSpace(r.value[|r.value| - 1]))
  {
    if text.None? || text.value == "" then text
    else
      var t := Trim(text.value);
      if StartsWith(t, "```") then Some(Trim(WithoutCloseFence(AfterOpenFence(t)))) else Some(t)
  }

  lemma {:induction false} DropTagAppend(tag: string, rest: string)
    requires forall i :: 0 <= i < |tag| ==> IsTagChar(tag[i])
    requires rest == [] || !IsTagChar(rest[0])
    ensures DropTag(tag + rest) == rest
  {
    if tag != [] {
      assert (tag + rest)[1..] == tag[1..] + rest;
      DropTagAppend(tag[1..], rest);
    } else {
      assert tag + rest == rest;
    }
  }

  /** The opening fence, its tag and the line break go. */
  lemma OpenFenceOf(s: string, tag: string, body: string)
    requires forall i :: 0 <= i < |tag| ==> IsTagChar(tag[i])
    requires body != [] && !IsJsSpace(body[0])
    requires s == "```" + tag + "\n" + body + "\n```"
    ensures StartsWith(s, "```")
    ensures AfterOpenFence(s) == body + "\n```"
  {
    var rest := "\n" + body + "\n```";
    assert s[..3] == "```";
    assert s[3..] == tag + rest;
    DropTagAppend(tag, rest);
    LineBreakGoes(rest, body + "\n```");
  }

  /** The white space after a tag goes: a line break, up to a text that
      does not start with white space. */
  lemma LineBreakGoes(rest: string, u: string)
    requires u != [] && !IsJsSpace(u[0]) && rest == "\n" + u
    ensures TrimStart(rest) == u
  {
    assert rest[1..] == u;
  }

  /** The closing fence goes, and the line break before it with the final
      trim. */
  lemma CloseFenceOf(body: string)
    requires body != [] && !IsJsSpace(body[0]) && !IsJsSpace(body[|body| - 1])
    ensures Trim(WithoutCloseFence(body + "\n```")) == body
  {
    var u := body + "\n```";
    assert TrimEnd(u) == u;
    assert u[|u| - 3..] == "```";
    assert u[..|u| - 3] == body + "\n";
    var w := body + "\n";
    assert w[..|w| - 1] == body;
    assert TrimEnd(w) == TrimEnd(body);
    assert TrimEnd(body) == body;
    assert w[0] == body[0];
    assert TrimStart(w) == w;
  }

  /** The outer trim leaves a fenced answer as it is. */
  lemma FencedUnpadded(tag: string, body: string)
    requires body != [] && !IsJsSpace(body[0]) && !IsJsSpace(body[|body| - 1])
    ensures Trim("```" + tag + "\n" + body + "\n```") == "```" + tag + "\n" + body + "\n```"
  {
    var s := "```" + tag + "\n" + body + "\n```";
    assert s[0] == '`' && s[|s| - 1] == '`';
    TrimOfUnpadded(s);
  }

  /** A trimmed text that opens a fence loses its fences and is trimmed.
      With FencedUnpadded, OpenFenceOf and CloseFenceOf, a fenced answer
      with a language tag strips back to its body. */
  lemma StripFenced(s: string, u: string, body: string)
    requires s != "" && Trim(s) == s && StartsWith(s, "```")
    requires AfterOpenFence(s) == u && Trim(WithoutCloseFence(u)) == body
    ensures StripCodeFences(Some(s)) == Some(body)
  {
  }

  // ---------------------------------------------------------------------
  // setFile validation and the API key status
  // ---------------------------------------------------------------------

  const MaxUploadBytes := 5 * 1024 * 1024

  datatype Upload = Accepted | Rejected(message: string)

  /** `/\.(c|h)$/i`. */
  predicate IsCSourceName(name: string) {
    |name| >= 2 && name[|name| - 2] == '.' && LowerChar(name[|name| - 1]) in "ch"
  }

  /** `setFile(file)`'s checks: the type first, then the size. */
  function SetFile(name: string, size: int): (r: Upload)
    ensures r.Accepted? <==> IsCSourceName(name) && size <= MaxUploadBytes
    ensures !IsCSourceName(name) ==> r == Rejected("Only .c/.h files allowed")
  {
    if !IsCSourceName(name) then Rejected("Only .c/.h files allowed")
    else if size > MaxUploadBytes then Rejected("File too large (>5MB)")
    else Accepted
  }

  /** Upper-case extensions are accepted like lower-case ones. */
  lemma UploadCaseInsensitive(stem: string, size: int)
    requires size <= MaxUploadBytes
    ensures SetFile(stem + ".C", size) == Accepted && SetFile(stem + ".h", size) == Accepted
    ensures SetFile(stem + ".H", size) == Accepted && SetFile(stem + ".c", size) == Accepted
    ensures SetFile(stem + ".cpp", size) != Accepted
  {
    var a := stem + ".C";
    assert a[|a| - 2] == '.' && a[|a| - 1] == 'C';
    var b := stem + ".h";
    assert b[|b| - 2] == '.' && b[|b| - 1] == 'h';
    var c := stem + ".H";
    assert c[|c| - 2] == '.' && c[|c| - 1] == 'H';
    var d := stem + ".c";
    assert d[|d| - 2] == '.' && d[|d| - 1] == 'c';
    var e := stem + ".cpp";
    assert e[|e| - 2] == 'p';
  }

  datatype KeyStatus = KeyStatus(ok: bool, color: string, text: string)

  /** `APIKeyManager.updateStatus()`: ready without a key for ollama, and
      otherwise with a key longer than ten UTF-16 code units. */
  function KeyStatusOf(provider: string, apiKey: Option<string>): (r: KeyStatus)
    ensures r.ok <==> provider == "ollama" || (apiKey.Some? && Utf16Length(apiKey.value) > 10)
    ensures r.ok && provider != "ollama" ==> |apiKey.value| > 5
    ensures provider != "ollama" && apiKey.Some? && |apiKey.value| > 10 ==> r.ok
    ensures r.text == (if r.ok then "Ready" else "No API Key")
    ensures r.color == (if r.ok then "#39ff14" else "#8892b0")
  {
    var ok := provider == "ollama" || (apiKey.Some? && Utf16Length(apiKey.value) > 10);
    KeyStatus(ok, if ok then "#39ff14" else "#8892b0", if ok then "Ready" else "No API Key")
  }

  // ---------------------------------------------------------------------
  // ThemeManager
  // ---------------------------------------------------------------------

  const Themes := ["auto", "light", "dark"]

  /** `themes.indexOf(t)`. */
  function ThemeIndex(t: string): (i: int)
    ensures -1 <= i < 3
    ensures i >= 0 ==> Themes[i] == t
    ensures i == -1 <==> t !in Themes
  {
    if t == "auto" then 0 else if t == "light" then 1 else if t == "dark" then 2 else -1
  }

  /** The theme `cycleTheme` moves to. */
  function NextTheme(t: string): string {
    Themes[(ThemeIndex(t) + 1) % 3]
  }

  /** Cycling steps auto, light, dark and back, and sends an unknown theme
      to auto. */
  lemma CycleOrder(t: string)
    ensures NextTheme("auto") == "light" && NextTheme("light") == "dark" && NextTheme("dark") == "auto"
    ensures t in Themes ==> NextTheme(NextTheme(NextTheme(t))) == t
    ensures t !in Themes ==> NextTheme(t) == "auto"
  {
  }

  class ThemeManager {
    var currentTheme: string
    var systemPreference: string
    /** The `theme-preference` entry in local storage. */
    var stored: Option<string>

    predicate Valid()
      reads this
    {
      currentTheme in Themes && (systemPreference == "dark" || systemPreference == "light")
    }

    /** The constructor with `detectSystemPreference` and
        `loadSavedTheme`: a saved known theme is used; otherwise auto is
        used and saved. */
    constructor(prefersDark: bool, saved: Option<string>)
      ensures systemPreference == (if prefersDark then "dark" else "light")
      ensures saved.Some? && saved.value in Themes ==> currentTheme == saved.value && stored == saved
      ensures !(saved.Some? && saved.value in Themes) ==> currentTheme == "auto" && stored == Some("auto")
      ensures Valid()
    {
      systemPreference := if prefersDark then "dark" else "light";
      if saved.Some? && saved.value != "" && saved.value in Themes {
        currentTheme := saved.value;
        stored := saved;
      } else {
        currentTheme := "auto";
        stored := Some("auto");
      }
    }

    /** `setTheme(theme)`: an unknown theme changes nothing. */
    method SetTheme(theme: string)
      modifies this
      ensures theme in Themes ==> currentTheme == theme && stored == Some(theme)
      ensures theme !in Themes ==> currentTheme == old(currentTheme) && stored == old(stored)
      ensures systemPreference == old(systemPreference)
      ensures old(Valid()) ==> Valid()
    {
      if theme !in Themes {
        return;
      }
      currentTheme := theme;
      stored := Some(theme);
    }

    /** `getEffectiveTheme()`: the system's preference in auto mode. */
    function EffectiveTheme(): (t: string)
      reads this
      ensures Valid() ==> t == "light" || t == "dark"
      ensures currentTheme != "auto" ==> t == currentTheme
    {
      if currentTheme == "auto" then systemPreference else currentTheme
    }

    /** `cycleTheme()`. */
    method CycleTheme()
      modifies this
      ensures currentTheme == NextTheme(old(currentTheme)) && stored == Some(currentTheme)
      ensures systemPreference == old(systemPreference)
      ensures old(Valid()) ==> Valid()
    {
      var currentIndex := ThemeIndex(currentTheme);
      var nextIndex := (currentIndex + 1) % 3;
      SetTheme(Themes[nextIndex]);
    }

    /** The media-query listener: a new system preference. */
    method SystemPreferenceChanged(prefersDark: bool)
      modifies this
      ensures systemPreference == (if prefersDark then "dark" else "light")
      ensures currentTheme == old(currentTheme) && stored == old(stored)
      ensures old(Valid()) ==> Valid()
    {
      systemPreference := if prefersDark then "dark" else "light";
    }
  }
}
