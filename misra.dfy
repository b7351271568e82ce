/** The MISRA C:2012 subset checker: brace-balanced block extraction,
    line-window snippets, per-line match collection, switch parsing, the
    checks of rules 15.3, 15.4 and 15.5, the aggregation and sorting of
    findings, HTML escaping and grouping. What the regular expressions
    match is not modelled: their matches are inputs (a function from a line
    or a body to its matches, or the list of headers found). */
module MisraLite {
  import opened Wrappers
  import opened Text

  // ---------------------------------------------------------------------
  // extractBalanced
  // ---------------------------------------------------------------------

  /** `{` minus `}` in `s`. */
  function Depth(s: string): int {
    if s == [] then 0
    else Depth(s[..|s| - 1]) + (if s[|s| - 1] == '{' then 1 else if s[|s| - 1] == '}' then -1 else 0)
  }

  /** The block opened at `open` is balanced again just before `e`. */
  predicate ClosesAt(text: string, open: int, e: int) {
    0 <= open < e <= |text| && text[open] == '{' && Depth(text[open..e]) == 0
  }

  /** The rest of the scan from position `i` with the depth so far. */
  function Scan(text: string, i: nat, depth: int): Option<nat>
    requires i <= |text|
    decreases |text| - i
  {
    if i == |text| then None
    else
      var d := if text[i] == '{' then depth + 1 else if text[i] == '}' then depth - 1 else depth;
      if text[i] == '}' && d == 0 then Some(i + 1) else Scan(text, i + 1, d)
  }

  /** The end index `extractBalanced` finds, or None. */
  function Balanced(text: string, open: int): Option<nat> {
    if 0 <= open < |text| && text[open] == '{' then Scan(text, open, 0) else None
  }

  /** `extractBalanced(text, openBraceIdx)`. */
  method ExtractBalanced(text: string, openBraceIdx: int) returns (r: Option<nat>)
    ensures r == Balanced(text, openBraceIdx)
  {
    if !(0 <= openBraceIdx < |text|) || text[openBraceIdx] != '{' {
      return None;
    }
    var depth := 0;
    var i := openBraceIdx;
    while i < |text|
      invariant openBraceIdx <= i <= |text|
      invariant Scan(text, i, depth) == Balanced(text, openBraceIdx)
    {
      var ch := text[i];
      if ch == '{' {
        depth := depth + 1;
      } else if ch == '}' {
        depth := depth - 1;
        if depth == 0 {
          return Some(i + 1);
        }
      }
      i := i + 1;
    }
    r := None;
  }

  lemma {:induction false} ScanFacts(text: string, open: nat, i: nat, depth: int)
    requires open < i <= |text| && text[open] == '{'
    requires depth == Depth(text[open..i])
    requires forall j :: open < j <= i ==> Depth(text[open..j]) > 0
    ensures Scan(text, i, depth).Some? ==>
      var e := Scan(text, i, depth).value;
      ClosesAt(text, open, e) && text[e - 1] == '}' && forall j :: open < j < e ==> !ClosesAt(text, open, j)
    ensures Scan(text, i, depth).None? ==> forall j :: !ClosesAt(text, open, j)
    decreases |text| - i
  {
    if i < |text| {
      assert text[open..i + 1][..i - open] == text[open..i];
      var d := if text[i] == '{' then depth + 1 else if text[i] == '}' then depth - 1 else depth;
      assert Depth(text[open..i + 1]) == d;
      if !(text[i] == '}' && d == 0) {
        ScanFacts(text, open, i + 1, d);
      }
    }
  }

  /** extractBalanced gives None unless `open` holds `{`; otherwise it gives
      the first index at which the block is balanced again, and None exactly
      when there is none. */
  lemma BalancedFacts(text: string, open: int)
    ensures Balanced(text, open).Some? ==>
      var e := Balanced(text, open).value;
      ClosesAt(text, open, e) && text[e - 1] == '}' && forall j :: open < j < e ==> !ClosesAt(text, open, j)
    ensures Balanced(text, open).None? ==> forall j :: !ClosesAt(text, open, j)
  {
    if 0 <= open < |text| && text[open] == '{' {
      assert text[open..open + 1] == "{";
      assert Depth(text[open..open + 1]) == 1 by {
        assert text[open..open + 1][..0] == [];
      }
      assert Scan(text, open, 0) == Scan(text, open + 1, 1);
      ScanFacts(text, open, open + 1, 1);
    }
  }

  /** A found block has a body between its braces. */
  lemma BalancedBody(text: string, open: int)
    ensures Balanced(text, open).Some? ==>
      0 <= open && open + 1 <= Balanced(text, open).value - 1 && Balanced(text, open).value <= |text|
  {
    BalancedFacts(text, open);
  }

  // ---------------------------------------------------------------------
  // snippetAt
  // ---------------------------------------------------------------------

  /** The end of `lines.slice(start, end)` for `n` lines: a negative end
      counts from the back. */
  function SliceEnd(n: nat, end: int): nat {
    if end < 0 then (if n + end < 0 then 0 else n + end) else if end > n then n else end
  }

  function WindowStart(line: int, context: nat): nat {
    if line - 1 - context < 0 then 0 else line - 1 - context
  }

  function WindowEnd(n: nat, line: int, context: nat): nat {
    SliceEnd(n, if n < line + context then n else line + context)
  }

  /** One snippet row: `>` on the target line, a blank elsewhere, then the
      1-based number padded to 4 and the line. */
  function SnippetRow(text: string, number: nat, line: int): string {
    [if number == line then '>' else ' '] + " " + PadStart(NatToString(number), 4) + " | " + text
  }

  /** The rows of the window around `line` among `lines`. */
  function WindowRows(lines: seq<string>, line: int, context: nat): seq<string> {
    var s := WindowStart(line, context);
    var e := WindowEnd(|lines|, line, context);
    if e <= s then [] else seq(e - s, k requires 0 <= k < e - s => SnippetRow(lines[s + k], s + k + 1, line))
  }

  /** `snippetAt(code, line, context)`: '' for a missing or zero line. */
  function SnippetAt(code: string, line: Option<int>, context: nat): (r: string)
    ensures line.None? || line == Some(0) ==> r == ""
  {
    if line.None? || line.value == 0 then "" else Join(WindowRows(SplitLines(code), line.value, context), '\n')
  }

  lemma RowFacts(text: string, number: nat, line: int)
    ensures EndsWith(SnippetRow(text, number, line), " | " + text)
    ensures SnippetRow(text, number, line)[0] == '>' <==> number == line
  {
    var head := [if number == line then '>' else ' '] + " " + PadStart(NatToString(number), 4);
    assert SnippetRow(text, number, line) == head + (" | " + text);
  }

  /** The rows are the lines from `line - 1 - context` (at least 0) up to
      `line + context` (at most the line count), each ending with its line;
      only the target line is marked, and a target within the code is
      always shown. (A line below `-context` makes the slice end count from
      the back, so the window is then not bounded by the context.) */
  lemma SnippetWindow(lines: seq<string>, line: int, context: nat)
    ensures var rows := WindowRows(lines, line, context);
      var s := WindowStart(line, context);
      && (line >= 1 ==> |rows| <= 2 * context + 1)
      && (forall k :: 0 <= k < |rows| ==> s + k < |lines| && EndsWith(rows[k], " | " + lines[s + k]))
      && (forall k :: 0 <= k < |rows| ==> (rows[k][0] == '>' <==> s + k + 1 == line))
      && (1 <= line <= |lines| ==> s <= line - 1 < s + |rows| && rows[line - 1 - s][0] == '>')
  {
    var rows := WindowRows(lines, line, context);
    var s := WindowStart(line, context);
    var e := WindowEnd(|lines|, line, context);
    forall k | 0 <= k < |rows|
      ensures s + k < |lines| && EndsWith(rows[k], " | " + lines[s + k])
      ensures rows[k][0] == '>' <==> s + k + 1 == line
    {
      RowFacts(lines[s + k], s + k + 1, line);
    }
    if 1 <= line <= |lines| {
      assert s <= line - 1 < e;
    }
  }

  // ---------------------------------------------------------------------
  // findRegexOnLines
  // ---------------------------------------------------------------------

  /** One match: its 1-based line, the line's text and the matched value. */
  datatype Hit = Hit(line: nat, text: string, matchVal: string)

  /** The hits of lines `1..|lines|`, where `matches` gives the values the
      expression matches on one line, in order. */
  function HitsOf(lines: seq<string>, matches: string -> seq<string>): seq<Hit> {
    if lines == [] then []
    else
      var n := |lines|;
      var vals := matches(lines[n - 1]);
      HitsOf(lines[..n - 1], matches) + seq(|vals|, k requires 0 <= k < |vals| => Hit(n, lines[n - 1], vals[k]))
  }

  /** How many matches there are on all lines together. */
  function MatchCount(lines: seq<string>, matches: string -> seq<string>): nat {
    if lines == [] then 0 else MatchCount(lines[..|lines| - 1], matches) + |matches(lines[|lines| - 1])|
  }

  /** `findRegexOnLines(code, regex, pick)`. */
  method FindRegexOnLines(code: string, matches: string -> seq<string>) returns (out: seq<Hit>)
    ensures out == HitsOf(SplitLines(code), matches)
  {
    var lines := SplitLines(code);
    out := [];
    var i := 0;
    while i < |lines|
      invariant 0 <= i <= |lines|
      invariant out == HitsOf(lines[..i], matches)
    {
      var vals := matches(lines[i]);
      ghost var before := out;
      var k := 0;
      while k < |vals|
        invariant 0 <= k <= |vals|
        invariant out == before + seq(k, j requires 0 <= j < k => Hit(i + 1, lines[i], vals[j]))
      {
        out := out + [Hit(i + 1, lines[i], vals[k])];
        k := k + 1;
      }
      assert lines[..i + 1][..i] == lines[..i];
      i := i + 1;
    }
    assert lines[..|lines|] == lines;
  }

  /** One hit per match, with line numbers within the line count that never
      decrease, each carrying its own line's text and one of its matches. */
  lemma HitsFacts(lines: seq<string>, matches: string -> seq<string>)
    ensures |HitsOf(lines, matches)| == MatchCount(lines, matches)
    ensures forall j :: 0 <= j < |HitsOf(lines, matches)| ==> HitOnLine(HitsOf(lines, matches)[j], lines, matches)
    ensures forall a, b :: 0 <= a < b < |HitsOf(lines, matches)| ==>
      HitsOf(lines, matches)[a].line <= HitsOf(lines, matches)[b].line
  {
    HitsCount(lines, matches);
    HitsLines(lines, matches);
    HitsOrdered(lines, matches);
  }

  /** A hit names a line of the text, carries that line and one of its
      matches. */
  predicate HitOnLine(h: Hit, lines: seq<string>, matches: string -> seq<string>) {
    1 <= h.line <= |lines| && h.text == lines[h.line - 1] && h.matchVal in matches(h.text)
  }

  lemma {:induction false} HitsCount(lines: seq<string>, matches: string -> seq<string>)
    ensures |HitsOf(lines, matches)| == MatchCount(lines, matches)
  {
    if lines != [] {
      HitsCount(lines[..|lines| - 1], matches);
    }
  }

  lemma {:induction false} HitsLines(lines: seq<string>, matches: string -> seq<string>)
    ensures forall j :: 0 <= j < |HitsOf(lines, matches)| ==> HitOnLine(HitsOf(lines, matches)[j], lines, matches)
  {
    if lines != [] {
      var n := |lines|;
      var init := lines[..n - 1];
      HitsLines(init, matches);
      var before := HitsOf(init, matches);
      var vals := matches(lines[n - 1]);
      var added: seq<Hit> := seq(|vals|, k requires 0 <= k < |vals| => Hit(n, lines[n - 1], vals[k]));
      assert HitsOf(lines, matches) == before + added;
      forall j | 0 <= j < |before + added|
        ensures HitOnLine((before + added)[j], lines, matches)
      {
        if j < |before| {
          assert (before + added)[j] == before[j];
          assert HitOnLine(before[j], init, matches);
          assert init[before[j].line - 1] == lines[before[j].line - 1];
        } else {
          assert (before + added)[j] == added[j - |before|];
        }
      }
    }
  }

  lemma {:induction false} HitsOrdered(lines: seq<string>, matches: string -> seq<string>)
    ensures forall a, b :: 0 <= a < b < |HitsOf(lines, matches)| ==>
      HitsOf(lines, matches)[a].line <= HitsOf(lines, matches)[b].line
  {
    if lines != [] {
      var n := |lines|;
      var init := lines[..n - 1];
      HitsOrdered(init, matches);
      HitsLines(init, matches);
      var before := HitsOf(init, matches);
      var vals := matches(lines[n - 1]);
      var added: seq<Hit> := seq(|vals|, k requires 0 <= k < |vals| => Hit(n, lines[n - 1], vals[k]));
      assert HitsOf(lines, matches) == before + added;
      forall a: int, b: int | 0 <= a < b < |before + added|
        ensures (before + added)[a].line <= (before + added)[b].line
      {
        if b < |before| {
          assert (before + added)[a] == before[a] && (before + added)[b] == before[b];
        } else if a < |before| {
          assert (before + added)[a] == before[a] && HitOnLine(before[a], init, matches);
          assert (before + added)[b] == added[b - |before|];
        } else {
          assert (before + added)[a] == added[a - |before|] && (before + added)[b] == added[b - |before|];
        }
      }
    }
  }

  // ---------------------------------------------------------------------
  // parseSwitches and rules 15.3 / 15.4
  // ---------------------------------------------------------------------

  datatype Label = Case | Default

  /** A switch found by the header expression: its 1-based line and the
      index of its `{`. */
  datatype SwitchHeader = SwitchHeader(startLine: nat, braceIdx: int)

  datatype SwitchInfo = SwitchInfo(startLine: nat, hasDefault: bool, labels: seq<Label>)

  predicate IsWordChar(c: char) {
    'a' <= c <= 'z' || 'A' <= c <= 'Z' || '0' <= c <= '9' || c == '_'
  }

  /** `/^default\b/` on a label's text. */
  predicate IsDefaultLabel(t: string) {
    StartsWith(t, "default") && (|t| == 7 || !IsWordChar(t[7]))
  }

  function LabelOf(t: string): Label {
    if IsDefaultLabel(t) then Default else Case
  }

  function LabelsOf(texts: seq<string>): (r: seq<Label>)
    ensures |r| == |texts|
    ensures forall k :: 0 <= k < |r| ==> r[k] == LabelOf(texts[k])
  {
    if texts == [] then [] else LabelsOf(texts[..|texts| - 1]) + [LabelOf(texts[|texts| - 1])]
  }

  /** The switch a header opens, when its block closes; the body is the text
      between the braces and `labelTexts` gives its label texts. */
  function SwitchOf(code: string, h: SwitchHeader, labelTexts: string -> seq<string>): Option<SwitchInfo> {
    var block := Balanced(code, h.braceIdx);
    if block.None? then None
    else
      BalancedBody(code, h.braceIdx);
      var labels := LabelsOf(labelTexts(code[h.braceIdx + 1..block.value - 1]));
      Some(SwitchInfo(h.startLine, Default in labels, labels))
  }

  function SwitchesOf(code: string, headers: seq<SwitchHeader>, labelTexts: string -> seq<string>): (r: seq<SwitchInfo>)
    ensures |r| <= |headers|
  {
    if headers == [] then []
    else
      var n := |headers|;
      var sw := SwitchOf(code, headers[n - 1], labelTexts);
      SwitchesOf(code, headers[..n - 1], labelTexts) + (if sw.Some? then [sw.value] else [])
  }

  /** `parseSwitches(code)`, given the headers the expression finds. */
  method ParseSwitches(code: string, headers: seq<SwitchHeader>, labelTexts: string -> seq<string>)
    returns (out: seq<SwitchInfo>)
    ensures out == SwitchesOf(code, headers, labelTexts)
    ensures forall k :: 0 <= k < |out| ==> (out[k].hasDefault <==> Default in out[k].labels)
  {
    out := [];
    var i := 0;
    while i < |headers|
      invariant 0 <= i <= |headers|
      invariant out == SwitchesOf(code, headers[..i], labelTexts)
      invariant forall k :: 0 <= k < |out| ==> (out[k].hasDefault <==> Default in out[k].labels)
    {
      var h := headers[i];
      assert headers[..i + 1][..i] == headers[..i];
      var block := ExtractBalanced(code, h.braceIdx);
      if block.Some? {
        BalancedBody(code, h.braceIdx);
        var body := code[h.braceIdx + 1..block.value - 1];
        var labels, hasDefault := ScanLabels(labelTexts(body));
        assert SwitchOf(code, h, labelTexts) == Some(SwitchInfo(h.startLine, hasDefault, labels));
        out := out + [SwitchInfo(h.startLine, hasDefault, labels)];
      }
      i := i + 1;
    }
    assert headers[..|headers|] == headers;
  }

  /** The label loop of `parseSwitches`: each label's kind, in order, and
      whether one is a default. */
  method ScanLabels(texts: seq<string>) returns (labels: seq<Label>, hasDefault: bool)
    ensures labels == LabelsOf(texts)
    ensures hasDefault <==> Default in labels
  {
    labels := [];
    hasDefault := false;
    var k := 0;
    while k < |texts|
      invariant 0 <= k <= |texts|
      invariant labels == LabelsOf(texts[..k])
      invariant hasDefault <==> Default in labels
    {
      assert texts[..k + 1][..k] == texts[..k];
      var isDefault := IsDefaultLabel(texts[k]);
      labels := labels + [if isDefault then Default else Case];
      if isDefault {
        hasDefault := true;
      }
      k := k + 1;
    }
    assert texts[..|texts|] == texts;
  }

  /** What a rule's check reports for one place. */
  datatype Item = Item(line: Option<int>, message: string, evidence: string)

  const NoDefaultMessage := "switch statement has no default clause"
  const NoDefaultEvidence := "Missing \"default:\""
  const DefaultNotLastMessage := "default clause does not appear last in switch"
  const DefaultNotLastEvidence := "default is followed by other case labels"

  /** Rule 15.4's condition: a default, and a last label that is a case. */
  predicate DefaultNotLast(sw: SwitchInfo) {
    sw.hasDefault && |sw.labels| > 0 && sw.labels[|sw.labels| - 1] == Case
  }

  /** Rule 15.3: one item per switch without a default, in order. */
  function CheckRule153(switches: seq<SwitchInfo>): (r: seq<Item>)
    ensures |r| <= |switches|
  {
    if switches == [] then []
    else
      var sw := switches[|switches| - 1];
      CheckRule153(switches[..|switches| - 1])
        + (if !sw.hasDefault then [Item(Some(sw.startLine), NoDefaultMessage, NoDefaultEvidence)] else [])
  }

  /** Rule 15.4: one item per switch whose default is not its last label. */
  function CheckRule154(switches: seq<SwitchInfo>): (r: seq<Item>)
    ensures |r| <= |switches|
  {
    if switches == [] then []
    else
      var sw := switches[|switches| - 1];
      CheckRule154(switches[..|switches| - 1])
        + (if DefaultNotLast(sw) then [Item(Some(sw.startLine), DefaultNotLastMessage, DefaultNotLastEvidence)] else [])
  }

  /** A switch is reported by 15.3 exactly when it has no default, and by
      15.4 exactly when it has one that is not last; never by both. */
  lemma {:induction false} SwitchRulesFacts(switches: seq<SwitchInfo>)
    ensures forall sw :: sw in switches && !sw.hasDefault ==> Item(Some(sw.startLine), NoDefaultMessage, NoDefaultEvidence) in CheckRule153(switches)
    ensures forall it :: it in CheckRule153(switches) ==> exists sw :: sw in switches && !sw.hasDefault && it.line == Some(sw.startLine)
    ensures forall sw :: sw in switches && DefaultNotLast(sw) ==> Item(Some(sw.startLine), DefaultNotLastMessage, DefaultNotLastEvidence) in CheckRule154(switches)
    ensures forall it :: it in CheckRule154(switches) ==> exists sw :: sw in switches && DefaultNotLast(sw) && it.line == Some(sw.startLine)
    ensures forall sw :: sw in switches ==> !(!sw.hasDefault && DefaultNotLast(sw))
  {
    if switches != [] {
      var init := switches[..|switches| - 1];
      SwitchRulesFacts(init);
      assert switches == init + [switches[|switches| - 1]];
    }
  }

  /** For a parsed switch, 15.4 fires exactly when a default exists and the
      last label is a case. */
  lemma ParsedRule154(sw: SwitchInfo)
    requires sw.hasDefault <==> Default in sw.labels
    ensures DefaultNotLast(sw) <==> Default in sw.labels && sw.labels[|sw.labels| - 1] == Case
  {
  }

  // ---------------------------------------------------------------------
  // Rule 15.5
  // ---------------------------------------------------------------------

  /** A function found by the function expression, with its body. */
  datatype FunctionInfo = FunctionInfo(name: string, startLine: nat, body: string)

  /** `/\breturn\b/` matches at `i`. */
  predicate ReturnAt(s: string, i: nat) {
    i + 6 <= |s| && s[i..i + 6] == "return"
    && (i == 0 || !IsWordChar(s[i - 1])) && (i + 6 == |s| || !IsWordChar(s[i + 6]))
  }

  /** How many times `return` occurs as a word in `s[..n]`'s start
      positions below `n`. */
  function ReturnsBelow(s: string, n: nat): nat
    requires n <= |s|
  {
    if n == 0 then 0 else ReturnsBelow(s, n - 1) + (if ReturnAt(s, n - 1) then 1 else 0)
  }

  function ReturnCount(s: string): nat {
    ReturnsBelow(s, |s|)
  }

  /** Two word matches give a count of at least two, and the count of a
      text without any is zero. */
  lemma ReturnsBelowFacts(s: string, n: nat)
    requires n <= |s|
    ensures (forall i :: 0 <= i < n ==> !ReturnAt(s, i)) ==> ReturnsBelow(s, n) == 0
    ensures forall i, j :: 0 <= i < j < n && ReturnAt(s, i) && ReturnAt(s, j) ==> ReturnsBelow(s, n) >= 2
  {
    ReturnsBelowZero(s, n);
    forall i, j | 0 <= i < j < n && ReturnAt(s, i) && ReturnAt(s, j)
      ensures ReturnsBelow(s, n) >= 2
    {
      ReturnsBelowTwo(s, n, i, j);
    }
  }

  lemma ReturnsBelowTwo(s: string, n: nat, i: nat, j: nat)
    requires i < j < n <= |s| && ReturnAt(s, i) && ReturnAt(s, j)
    ensures ReturnsBelow(s, n) >= 2
  {
    ReturnsBelowPositive(s, j, i);
    ReturnsBelowMonotone(s, j + 1, n);
    assert ReturnsBelow(s, j + 1) == ReturnsBelow(s, j) + 1;
  }

  lemma {:induction false} ReturnsBelowZero(s: string, n: nat)
    requires n <= |s|
    ensures (forall i :: 0 <= i < n ==> !ReturnAt(s, i)) ==> ReturnsBelow(s, n) == 0
  {
    if n > 0 {
      ReturnsBelowZero(s, n - 1);
    }
  }

  lemma {:induction false} ReturnsBelowMonotone(s: string, m: nat, n: nat)
    requires m <= n <= |s|
    ensures ReturnsBelow(s, m) <= ReturnsBelow(s, n)
    decreases n - m
  {
    if m < n {
      ReturnsBelowMonotone(s, m, n - 1);
    }
  }

  lemma {:induction false} ReturnsBelowPositive(s: string, n: nat, i: nat)
    requires i < n <= |s| && ReturnAt(s, i)
    ensures ReturnsBelow(s, n) >= 1
  {
    if i < n - 1 {
      ReturnsBelowPositive(s, n - 1, i);
    }
  }

  function ReturnsMessage(name: string, count: nat): string {
    "Function \"" + name + "\" has " + NatToString(count) + " return statements"
  }

  /** Rule 15.5: one item per function with more than one return. */
  function CheckRule155(functions: seq<FunctionInfo>): (r: seq<Item>)
    ensures |r| <= |functions|
  {
    if functions == [] then []
    else
      var f := functions[|functions| - 1];
      var n := ReturnCount(f.body);
      CheckRule155(functions[..|functions| - 1])
        + (if n > 1 then [Item(Some(f.startLine), ReturnsMessage(f.name, n), "Multiple returns")] else [])
  }

  /** A function is reported exactly when its body has more than one
      `return`, with the count in the message. */
  lemma {:induction false} Rule155Facts(functions: seq<FunctionInfo>)
    ensures forall f :: f in functions && ReturnCount(f.body) > 1 ==>
      Item(Some(f.startLine), ReturnsMessage(f.name, ReturnCount(f.body)), "Multiple returns") in CheckRule155(functions)
    ensures forall it :: it in CheckRule155(functions) ==>
      exists f :: f in functions && ReturnCount(f.body) > 1 && it.line == Some(f.startLine)
  {
    if functions != [] {
      var init := functions[..|functions| - 1];
      Rule155Facts(init);
      assert functions == init + [functions[|functions| - 1]];
    }
  }

  // ---------------------------------------------------------------------
  // runChecks
  // ---------------------------------------------------------------------

  datatype Rule = Rule(id: string, title: string, severity: string)

  const Rule153 := Rule("MISRA-C-2012-Rule-15.3", "All switch statements shall be complete (include a default)", "required")
  const Rule154 := Rule("MISRA-C-2012-Rule-15.4", "The default clause should be the last clause in a switch statement", "advisory")
  const Rule155 := Rule("MISRA-C-2012-Rule-15.5", "A function should have a single point of exit", "advisory")

  /** A rule with the outcome of its check: the items, or None when the
      check threw. */
  datatype RuleRun = RuleRun(rule: Rule, outcome: Option<seq<Item>>)

  /** The runs of the three rules modelled here. */
  function StructureRuns(switches: seq<SwitchInfo>, functions: seq<FunctionInfo>): seq<RuleRun> {
    [RuleRun(Rule153, Some(CheckRule153(switches))),
     RuleRun(Rule154, Some(CheckRule154(switches))),
     RuleRun(Rule155, Some(CheckRule155(functions)))]
  }

  datatype Finding = Finding(ruleId: string, title: string, severity: string,
                             line: Option<int>, message: string, evidence: string)

  /** `safe(fn, fallback)`. */
  function Safe<T>(outcome: Option<T>, fallback: T): T {
    if outcome.Some? then outcome.value else fallback
  }

  /** One finding: the rule's id and meta, the item's line, the item's
      message or else the rule's title. */
  function FindingOf(r: Rule, it: Item): Finding {
    Finding(r.id, r.title, r.severity, it.line, if it.message == "" then r.title else it.message, it.evidence)
  }

  function FindingsOf(r: Rule, items: seq<Item>): (fs: seq<Finding>)
    ensures |fs| == |items|
    ensures forall k :: 0 <= k < |fs| ==> fs[k] == FindingOf(r, items[k])
  {
    seq(|items|, k requires 0 <= k < |items| => FindingOf(r, items[k]))
  }

  /** The findings in push order. */
  function Collected(runs: seq<RuleRun>): seq<Finding> {
    if runs == [] then []
    else
      var run := runs[|runs| - 1];
      Collected(runs[..|runs| - 1]) + FindingsOf(run.rule, Safe(run.outcome, []))
  }

  function ItemCount(runs: seq<RuleRun>): nat {
    if runs == [] then 0 else ItemCount(runs[..|runs| - 1]) + |Safe(runs[|runs| - 1].outcome, [])|
  }

  /** One finding per item per rule, none for a check that threw; every
      finding has its rule's meta and a non-empty message when the rule's
      title is non-empty. */
  lemma {:induction false} CollectedFacts(runs: seq<RuleRun>)
    ensures |Collected(runs)| == ItemCount(runs)
    ensures forall f :: f in Collected(runs) ==>
      exists k :: 0 <= k < |runs| && f.ruleId == runs[k].rule.id && f.title == runs[k].rule.title
    ensures forall f :: f in Collected(runs) && f.title != "" ==> f.message != ""
  {
    if runs != [] {
      var n := |runs|;
      CollectedFacts(runs[..n - 1]);
      assert forall k :: 0 <= k < n - 1 ==> runs[..n - 1][k] == runs[k];
    }
  }

  /** The sort key: the line, with a missing line as 0. */
  function LineKey(f: Finding): int {
    if f.line.None? then 0 else f.line.value
  }

  predicate SortedByLine(s: seq<Finding>) {
    forall i, j :: 0 <= i < j < |s| ==> LineKey(s[i]) <= LineKey(s[j])
  }

  /** Insert after every finding whose key is not greater. */
  function InsertByLine(f: Finding, s: seq<Finding>): seq<Finding> {
    if s == [] then [f]
    else if LineKey(s[0]) <= LineKey(f) then [s[0]] + InsertByLine(f, s[1..])
    else [f] + s
  }

  /** The stable sort `Array.prototype.sort` performs with the comparator
      on keys. */
  function SortByLine(xs: seq<Finding>): seq<Finding> {
    if xs == [] then [] else InsertByLine(xs[|xs| - 1], SortByLine(xs[..|xs| - 1]))
  }

  /** The findings with key `k`, in order. */
  function WithLine(s: seq<Finding>, k: int): seq<Finding> {
    if s == [] then [] else (if LineKey(s[0]) == k then [s[0]] else []) + WithLine(s[1..], k)
  }

  lemma {:induction false} WithLineAppend(a: seq<Finding>, b: seq<Finding>, k: int)
    ensures WithLine(a + b, k) == WithLine(a, k) + WithLine(b, k)
  {
    if a != [] {
      assert (a + b)[0] == a[0];
      assert (a + b)[1..] == a[1..] + b;
      WithLineAppend(a[1..], b, k);
      var h := if LineKey(a[0]) == k then [a[0]] else [];
      assert WithLine(a + b, k) == h + WithLine(a[1..] + b, k);
      assert h + (WithLine(a[1..], k) + WithLine(b, k)) == (h + WithLine(a[1..], k)) + WithLine(b, k);
    } else {
      assert a + b == b;
    }
  }

  lemma {:induction false} WithLineNone(s: seq<Finding>, k: int)
    requires forall i :: 0 <= i < |s| ==> LineKey(s[i]) > k
    ensures WithLine(s, k) == []
  {
    if s != [] {
      WithLineNone(s[1..], k);
    }
  }

  lemma {:induction false} InsertMultiset(f: Finding, s: seq<Finding>)
    ensures multiset(InsertByLine(f, s)) == multiset(s) + multiset{f}
  {
    if s != [] && LineKey(s[0]) <= LineKey(f) {
      InsertMultiset(f, s[1..]);
      assert s == [s[0]] + s[1..];
    }
  }

  /** The tail of a sorted list is sorted and bounded below by its head. */
  lemma SortedTail(s: seq<Finding>)
    requires SortedByLine(s) && s != []
    ensures SortedByLine(s[1..])
    ensures forall j :: 0 <= j < |s[1..]| ==> LineKey(s[0]) <= LineKey(s[1..][j])
  {
    assert forall j :: 0 <= j < |s[1..]| ==> s[1..][j] == s[j + 1];
  }

  /** A key not above a sorted list's keys can go in front. */
  lemma ConsSorted(x: Finding, r: seq<Finding>)
    requires SortedByLine(r)
    requires forall j :: 0 <= j < |r| ==> LineKey(x) <= LineKey(r[j])
    ensures SortedByLine([x] + r)
  {
    var s := [x] + r;
    forall a, b | 0 <= a < b < |s|
      ensures LineKey(s[a]) <= LineKey(s[b])
    {
      assert s[b] == r[b - 1];
      if a > 0 {
        assert s[a] == r[a - 1];
      }
    }
  }

  /** Inserting keeps every key at or above a bound the list and the new
      finding respect. */
  lemma {:induction false} InsertAbove(f: Finding, s: seq<Finding>, m: int)
    requires forall j :: 0 <= j < |s| ==> m <= LineKey(s[j])
    requires m <= LineKey(f)
    ensures forall j :: 0 <= j < |InsertByLine(f, s)| ==> m <= LineKey(InsertByLine(f, s)[j])
  {
    if s != [] && LineKey(s[0]) <= LineKey(f) {
      var rest := InsertByLine(f, s[1..]);
      assert forall j :: 0 <= j < |s[1..]| ==> s[1..][j] == s[j + 1];
      InsertAbove(f, s[1..], m);
      var r := [s[0]] + rest;
      assert forall j :: 0 < j < |r| ==> r[j] == rest[j - 1];
    } else if s != [] {
      var r := [f] + s;
      assert forall j :: 0 < j < |r| ==> r[j] == s[j - 1];
    }
  }

  lemma {:induction false} InsertSorted(f: Finding, s: seq<Finding>)
    requires SortedByLine(s)
    ensures SortedByLine(InsertByLine(f, s))
  {
    if s == [] {
    } else if LineKey(s[0]) <= LineKey(f) {
      SortedTail(s);
      InsertSorted(f, s[1..]);
      InsertAbove(f, s[1..], LineKey(s[0]));
      ConsSorted(s[0], InsertByLine(f, s[1..]));
    } else {
      ConsSorted(f, s);
    }
  }

  /** The findings with key `k` of a list with a finding in front. */
  lemma WithLineCons(x: Finding, r: seq<Finding>, k: int)
    ensures WithLine([x] + r, k) == (if LineKey(x) == k then [x] else []) + WithLine(r, k)
  {
    assert ([x] + r)[1..] == r;
  }

  /** A finding put in front of two lists keeps the relation between their
      findings with key `k`. */
  lemma WithLineBehind(x: Finding, r: seq<Finding>, r': seq<Finding>, k: int, e: seq<Finding>)
    requires WithLine(r', k) == WithLine(r, k) + e
    ensures WithLine([x] + r', k) == WithLine([x] + r, k) + e
  {
    var h := if LineKey(x) == k then [x] else [];
    WithLineCons(x, r', k);
    WithLineCons(x, r, k);
    assert h + (WithLine(r, k) + e) == (h + WithLine(r, k)) + e;
  }

  lemma {:induction false} InsertWithLine(f: Finding, s: seq<Finding>, k: int)
    requires SortedByLine(s)
    ensures WithLine(InsertByLine(f, s), k) == WithLine(s, k) + (if LineKey(f) == k then [f] else [])
  {
    if s == [] {
    } else if LineKey(s[0]) <= LineKey(f) {
      SortedTail(s);
      InsertWithLine(f, s[1..], k);
      WithLineBehind(s[0], s[1..], InsertByLine(f, s[1..]), k, if LineKey(f) == k then [f] else []);
      assert [s[0]] + s[1..] == s;
    } else {
      WithLineCons(f, s, k);
      if LineKey(f) == k {
        WithLineNone(s, k);
      }
    }
  }

  /** The sort orders findings by line. */
  lemma {:induction false} SortSorted(xs: seq<Finding>)
    ensures SortedByLine(SortByLine(xs))
  {
    if xs != [] {
      SortSorted(xs[..|xs| - 1]);
      InsertSorted(xs[|xs| - 1], SortByLine(xs[..|xs| - 1]));
    }
  }

  /** The sort keeps every finding. */
  lemma {:induction false} SortMultiset(xs: seq<Finding>)
    ensures multiset(SortByLine(xs)) == multiset(xs)
  {
    if xs != [] {
      var n := |xs|;
      SortMultiset(xs[..n - 1]);
      InsertMultiset(xs[n - 1], SortByLine(xs[..n - 1]));
      assert xs == xs[..n - 1] + [xs[n - 1]];
    }
  }

  /** The sort keeps the push order among findings on the same line. */
  lemma {:induction false} SortWithLine(xs: seq<Finding>, k: int)
    ensures WithLine(SortByLine(xs), k) == WithLine(xs, k)
  {
    if xs != [] {
      var n := |xs|;
      var init := xs[..n - 1];
      SortWithLine(init, k);
      SortSorted(init);
      InsertWithLine(xs[n - 1], SortByLine(init), k);
      WithLineAppend(init, [xs[n - 1]], k);
      assert xs == init + [xs[n - 1]];
    }
  }

  /** The sort orders findings by line, keeps every finding, and keeps the
      push order among findings on the same line. */
  lemma SortFacts(xs: seq<Finding>)
    ensures SortedByLine(SortByLine(xs))
    ensures multiset(SortByLine(xs)) == multiset(xs)
    ensures forall k :: WithLine(SortByLine(xs), k) == WithLine(xs, k)
  {
    SortSorted(xs);
    SortMultiset(xs);
    forall k
      ensures WithLine(SortByLine(xs), k) == WithLine(xs, k)
    {
      SortWithLine(xs, k);
    }
  }

  /** `runChecks(code)`, given each rule with the outcome of its check. */
  method RunChecks(runs: seq<RuleRun>) returns (out: seq<Finding>)
    ensures out == SortByLine(Collected(runs))
  {
    var pushed := [];
    var i := 0;
    while i < |runs|
      invariant 0 <= i <= |runs|
      invariant pushed == Collected(runs[..i])
    {
      var r := runs[i].rule;
      var items := Safe(runs[i].outcome, []);
      ghost var before := pushed;
      var k := 0;
      while k < |items|
        invariant 0 <= k <= |items|
        invariant pushed == before + FindingsOf(r, items[..k])
      {
        assert items[..k + 1] == items[..k] + [items[k]];
        pushed := pushed + [FindingOf(r, items[k])];
        k := k + 1;
      }
      assert items[..|items|] == items;
      assert runs[..i + 1][..i] == runs[..i];
      i := i + 1;
    }
    assert runs[..|runs|] == runs;
    out := SortByLine(pushed);
  }

  // ---------------------------------------------------------------------
  // escapeHTML and groupBy
  // ---------------------------------------------------------------------

  predicate Special(c: char) {
    c == '&' || c == '<' || c == '>' || c == '"' || c == '\''
  }

  function EscapeChar(c: char): string {
    match c
    case '&' => "&amp;"
    case '<' => "&lt;"
    case '>' => "&gt;"
    case '"' => "&quot;"
    case '\'' => "&#039;"
    case _ => [c]
  }

  function Escape(s: string): string {
    if s == [] then [] else EscapeChar(s[0]) + Escape(s[1..])
  }

  /** `escapeHTML(s)`: a missing string is ''. */
  function EscapeHtml(s: Option<string>): string {
    Escape(if s.None? then "" else s.value)
  }

  /** Reading the five entities back. */
  function Unescape(s: string): string
    decreases |s|
  {
    if s == [] then []
    else if s[0] != '&' then [s[0]] + Unescape(s[1..])
    else if StartsWith(s, "&amp;") then "&" + Unescape(s[5..])
    else if StartsWith(s, "&lt;") then "<" + Unescape(s[4..])
    else if StartsWith(s, "&gt;") then ">" + Unescape(s[4..])
    else if StartsWith(s, "&quot;") then "\"" + Unescape(s[6..])
    else if StartsWith(s, "&#039;") then "'" + Unescape(s[6..])
    else [s[0]] + Unescape(s[1..])
  }

  lemma UnescapeStep(c: char, rest: string)
    ensures Unescape(EscapeChar(c) + rest) == [c] + Unescape(rest)
  {
    if c == '&' {
      UnescapeAmp(EscapeChar(c) + rest, rest);
    } else if c == '<' {
      UnescapeLt(EscapeChar(c) + rest, rest);
    } else if c == '>' {
      UnescapeGt(EscapeChar(c) + rest, rest);
    } else if c == '"' {
      UnescapeQuot(EscapeChar(c) + rest, rest);
    } else if c == '\'' {
      UnescapeApos(EscapeChar(c) + rest, rest);
    } else {
      UnescapePlain(c, EscapeChar(c) + rest, rest);
    }
  }

  lemma UnescapeAmp(t: string, rest: string)
    requires t == "&amp;" + rest
    ensures Unescape(t) == "&" + Unescape(rest)
  {
    assert t[..5] == "&amp;" && t[5..] == rest;
  }

  lemma UnescapeLt(t: string, rest: string)
    requires t == "&lt;" + rest
    ensures Unescape(t) == "<" + Unescape(rest)
  {
    assert t[..4] == "&lt;" && t[4..] == rest && t[1] == 'l';
    DiffersAt(t, "&amp;", 1);
  }

  lemma UnescapeGt(t: string, rest: string)
    requires t == "&gt;" + rest
    ensures Unescape(t) == ">" + Unescape(rest)
  {
    assert t[..4] == "&gt;" && t[4..] == rest && t[1] == 'g';
    DiffersAt(t, "&amp;", 1);
    DiffersAt(t, "&lt;", 1);
  }

  lemma UnescapeQuot(t: string, rest: string)
    requires t == "&quot;" + rest
    ensures Unescape(t) == "\"" + Unescape(rest)
  {
    assert t[..6] == "&quot;" && t[6..] == rest && t[1] == 'q';
    DiffersAt(t, "&amp;", 1);
    DiffersAt(t, "&lt;", 1);
    DiffersAt(t, "&gt;", 1);
  }

  lemma UnescapeApos(t: string, rest: string)
    requires t == "&#039;" + rest
    ensures Unescape(t) == "'" + Unescape(rest)
  {
    assert t[..6] == "&#039;" && t[6..] == rest && t[1] == '#';
    DiffersAt(t, "&amp;", 1);
    DiffersAt(t, "&lt;", 1);
    DiffersAt(t, "&gt;", 1);
    DiffersAt(t, "&quot;", 1);
  }

  /** A text whose i-th character differs from a prefix's does not start with it. */
  lemma DiffersAt(s: string, p: string, i: nat)
    requires i < |p| && i < |s| && s[i] != p[i]
    ensures !StartsWith(s, p)
  {
    if |p| <= |s| {
      assert s[..|p|][i] == s[i];
    }
  }

  lemma UnescapePlain(c: char, t: string, rest: string)
    requires c != '&' && t == [c] + rest
    ensures Unescape(t) == [c] + Unescape(rest)
  {
    assert t[1..] == rest;
  }

  /** Escaping loses nothing: the entities read back to the text. */
  lemma {:induction false} UnescapeEscape(s: string)
    ensures Unescape(Escape(s)) == s
  {
    if s != [] {
      UnescapeStep(s[0], Escape(s[1..]));
      UnescapeEscape(s[1..]);
    }
  }

  /** The characters that must not survive escaping unencoded. */
  predicate Markup(c: char) {
    c == '<' || c == '>' || c == '"' || c == '\''
  }

  predicate NoMarkup(s: string) {
    forall i :: 0 <= i < |s| ==> !Markup(s[i])
  }

  lemma NoMarkupAppend(a: string, b: string)
    requires NoMarkup(a) && NoMarkup(b)
    ensures NoMarkup(a + b)
  {
    forall i | 0 <= i < |a + b|
      ensures !Markup((a + b)[i])
    {
      if i >= |a| {
        assert (a + b)[i] == b[i - |a|];
      }
    }
  }

  lemma EscapeCharNoMarkup(c: char)
    ensures NoMarkup(EscapeChar(c))
  {
  }

  /** No `<`, `>`, `"` or `'` survives, a text without special characters
      is unchanged, and escaping never shortens a text. */
  lemma EscapeFacts(s: string)
    ensures NoMarkup(Escape(s))
    ensures (forall i :: 0 <= i < |s| ==> !Special(s[i])) ==> Escape(s) == s
    ensures |Escape(s)| >= |s|
  {
    EscapeNoMarkup(s);
    EscapePlain(s);
    EscapeLength(s);
  }

  lemma {:induction false} EscapeNoMarkup(s: string)
    ensures NoMarkup(Escape(s))
  {
    if s != [] {
      EscapeNoMarkup(s[1..]);
      EscapeCharNoMarkup(s[0]);
      NoMarkupAppend(EscapeChar(s[0]), Escape(s[1..]));
    }
  }

  lemma {:induction false} EscapePlain(s: string)
    ensures (forall i :: 0 <= i < |s| ==> !Special(s[i])) ==> Escape(s) == s
  {
    if s != [] {
      EscapePlain(s[1..]);
      if forall i :: 0 <= i < |s| ==> !Special(s[i]) {
        assert forall i :: 0 <= i < |s[1..]| ==> s[1..][i] == s[i + 1];
        assert !Special(s[0]);
        assert [s[0]] + s[1..] == s;
      }
    }
  }

  lemma {:induction false} EscapeLength(s: string)
    ensures |Escape(s)| >= |s|
  {
    if s != [] {
      EscapeLength(s[1..]);
    }
  }

  /** The buckets `groupBy` builds, element by element. */
  function Groups<T, K(==)>(xs: seq<T>, key: T -> K): map<K, seq<T>> {
    if xs == [] then map[]
    else
      var m := Groups(xs[..|xs| - 1], key);
      var x := xs[|xs| - 1];
      m[key(x) := (if key(x) in m then m[key(x)] else []) + [x]]
  }

  /** The elements with key `k`, in order. */
  function WithKey<T, K(==)>(xs: seq<T>, key: T -> K, k: K): seq<T> {
    if xs == [] then []
    else WithKey(xs[..|xs| - 1], key, k) + (if key(xs[|xs| - 1]) == k then [xs[|xs| - 1]] else [])
  }

  /** `groupBy(arr, k)`. */
  method GroupBy<T, K(==)>(arr: seq<T>, key: T -> K) returns (m: map<K, seq<T>>)
    ensures m == Groups(arr, key)
  {
    m := map[];
    var i := 0;
    while i < |arr|
      invariant 0 <= i <= |arr|
      invariant m == Groups(arr[..i], key)
    {
      var k := key(arr[i]);
      assert arr[..i + 1][..i] == arr[..i];
      m := m[k := (if k in m then m[k] else []) + [arr[i]]];
      i := i + 1;
    }
    assert arr[..|arr|] == arr;
  }

  /** There is a bucket exactly for each key that occurs, and each bucket
      holds exactly the elements with its key, in order. */
  lemma GroupsFacts<T, K>(xs: seq<T>, key: T -> K)
    ensures forall k :: k in Groups(xs, key) <==> exists i :: 0 <= i < |xs| && key(xs[i]) == k
    ensures forall k :: k in Groups(xs, key) ==> Groups(xs, key)[k] == WithKey(xs, key, k)
    ensures forall k :: k !in Groups(xs, key) ==> WithKey(xs, key, k) == []
  {
    GroupsKeys(xs, key);
    GroupsBuckets(xs, key);
  }

  lemma {:induction false} GroupsKeys<T, K>(xs: seq<T>, key: T -> K)
    ensures forall k :: k in Groups(xs, key) <==> exists i :: 0 <= i < |xs| && key(xs[i]) == k
  {
    if xs != [] {
      var n := |xs|;
      var init := xs[..n - 1];
      GroupsKeys(init, key);
      assert forall i :: 0 <= i < n - 1 ==> init[i] == xs[i];
    }
  }

  lemma {:induction false} GroupsBuckets<T, K>(xs: seq<T>, key: T -> K)
    ensures forall k :: k in Groups(xs, key) ==> Groups(xs, key)[k] == WithKey(xs, key, k)
    ensures forall k :: k !in Groups(xs, key) ==> WithKey(xs, key, k) == []
  {
    if xs != [] {
      var n := |xs|;
      var init := xs[..n - 1];
      GroupsBuckets(init, key);
      var x := xs[n - 1];
      forall k | k in Groups(xs, key)
        ensures Groups(xs, key)[k] == WithKey(xs, key, k)
      {
        if k == key(x) && key(x) !in Groups(init, key) {
          assert WithKey(init, key, k) == [];
        }
      }
    }
  }
}
