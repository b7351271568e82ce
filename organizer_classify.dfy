/** File classification of the workspace organizer: which files move, and to
    which destination directory (relative to the working directory). */
module OrganizerClassify {
  import opened Wrappers
  import opened Text
  import opened OrganizerPaths

  /** Directory names the tree walk never descends into; the two last ones are
      the destinations, so organised content is not classified again. */
  const IgnoreDirs: set<string> :=
    {".git", "node_modules", "venv", ".venv", "__pycache__", ".vscode", ".idea",
     "dist", "build", "out", "tests", "docs"}

  const ScriptExts: set<string> := {".js", ".ts", ".py", ".ps1", ".sh", ".bat"}
  const PageExts: set<string> := {".html", ".htm"}
  const StyleExts: set<string> := {".css", ".scss", ".sass"}
  const DataExts: set<string> := {".json", ".csv", ".tsv", ".ndjson", ".txt", ".yml", ".yaml"}
  const LogExts: set<string> := {".log"}
  const DocExts: set<string> := {".md", ".rst"}
  /** Extensions that count as results when the name also says so. */
  const ResultExts: set<string> := {".json", ".xml", ".junit"}

  const TestTokens: seq<string> := ["test", "spec", "demo", "example", "fixture", "sample", "mock", "stub"]
  /** `report|summary|diagnostic|analysis|compliance|results?`: the optional `s`
      never changes whether a search succeeds. */
  const ReportWords: seq<string> := ["report", "summary", "diagnostic", "analysis", "compliance", "result"]
  /** `guide|readme|documentation|how[-_ ]?to|manual|tutorial`. */
  const GuideWords: seq<string> := ["guide", "readme", "documentation", "howto", "how-to", "how_to", "how to", "manual", "tutorial"]
  /** `data|config|dataset|fixtures?`: `dataset` and `fixtures` contain shorter words. */
  const DataWords: seq<string> := ["data", "config", "fixture"]
  const ResultWords: seq<string> := ["result", "report", "junit", "coverage"]

  datatype Category =
    | TestScript | TestPage | TestStyle | TestData | TestResultsLogs
    | DocReports | DocGuides | DocMisc

  /** The destination directory of each category, relative to the working directory. */
  function DestDir(c: Category): (d: PathExpr)
    ensures !d.absolute && |d.parts| >= 2 && WellFormed(d)
    ensures d.parts[0] == (if c.DocReports? || c.DocGuides? || c.DocMisc? then "docs" else "tests")
  {
    match c
    case TestScript => PathExpr(false, ["tests", "scripts"])
    case TestPage => PathExpr(false, ["tests", "pages"])
    case TestStyle => PathExpr(false, ["tests", "styles"])
    case TestData => PathExpr(false, ["tests", "data"])
    case TestResultsLogs => PathExpr(false, ["tests", "results", "logs"])
    case DocReports => PathExpr(false, ["docs", "reports"])
    case DocGuides => PathExpr(false, ["docs", "guides"])
    case DocMisc => PathExpr(false, ["docs", "misc"])
  }

  /** `is_hidden`: a dot name other than the two git configuration files. */
  predicate IsHidden(name: string) {
    StartsWith(name, ".") && name != ".gitignore" && name != ".gitattributes"
  }

  /** `should_skip_dir`. */
  predicate ShouldSkipDir(name: string) {
    name in IgnoreDirs || IsHidden(name)
  }

  /** Characters of `[\W_]`: anything but a letter or digit. Characters outside
      ASCII are taken as letters. */
  predicate IsTokenBoundary(c: char) {
    !(('a' <= c <= 'z') || ('A' <= c <= 'Z') || ('0' <= c <= '9') || c as int >= 128)
  }

  /** `tok` occurs at `i` with a boundary (or the string's edge) on each side. */
  predicate TokenAt(s: string, tok: string, i: int) {
    OccursAt(s, tok, i)
    && (i == 0 || IsTokenBoundary(s[i - 1]))
    && (i + |tok| == |s| || IsTokenBoundary(s[i + |tok|]))
  }

  /** `TEST_TOKEN_RE.search(s)` on an already lower-cased string. */
  predicate HasTestToken(s: string) {
    exists k, i :: 0 <= k < |TestTokens| && 0 <= i <= |s| && TokenAt(s, TestTokens[k], i)
  }

  /** Some word of `words` occurs in `s`. */
  predicate ContainsAny(s: string, words: seq<string>) {
    exists k :: 0 <= k < |words| && Contains(s, words[k])
  }

  /** The extension as `classify` compares it: the suffix, lower-cased. */
  function Ext(name: string): string {
    Lower(Suffix(name))
  }

  /** The rule for data files: a data extension and a test token or a data word. */
  predicate IsTestDataName(name: string) {
    Ext(name) in DataExts && (HasTestToken(Lower(name)) || ContainsAny(Lower(name), DataWords))
  }

  /** The rule for logs and result files. */
  predicate IsResultName(name: string) {
    Ext(name) in LogExts || (Ext(name) in ResultExts && ContainsAny(Lower(name), ResultWords))
  }

  /** `classify`: the category and destination directory of a path whose last
      component is `name`, or None when the file stays where it is. `isFile`
      is the answer of `path.is_file()`. */
  function Classify(name: string, isFile: bool): (r: Option<(Category, PathExpr)>)
    ensures r.Some? ==> r.value.1 == DestDir(r.value.0)
    ensures r.Some? ==> isFile && name != "index.html"
  {
    if !isFile then None
    else if name == "index.html" then None
    else
      var lower := Lower(name);
      var ext := Ext(name);
      if ext in PageExts && HasTestToken(lower) then Some((TestPage, DestDir(TestPage)))
      else if ext in ScriptExts && HasTestToken(lower) then Some((TestScript, DestDir(TestScript)))
      else if ext in StyleExts && HasTestToken(lower) then Some((TestStyle, DestDir(TestStyle)))
      else if IsTestDataName(name) then Some((TestData, DestDir(TestData)))
      else if IsResultName(name) then Some((TestResultsLogs, DestDir(TestResultsLogs)))
      else if ext in DocExts then
        if ContainsAny(lower, ReportWords) then Some((DocReports, DestDir(DocReports)))
        else if ContainsAny(lower, GuideWords) then Some((DocGuides, DestDir(DocGuides)))
        else Some((DocMisc, DestDir(DocMisc)))
      else if lower == "particlesjs-config.json" then Some((TestData, DestDir(TestData)))
      else None
  }

  /** The category alone. */
  function CategoryOf(name: string, isFile: bool): Option<Category> {
    match Classify(name, isFile)
    case None => None
    case Some((c, _)) => Some(c)
  }

  /** A documentation file always goes to one of the three docs directories,
      chosen by the report words first and the guide words second. */
  lemma DocsAlwaysClassified(name: string)
    requires name != "index.html" && Ext(name) in DocExts
    ensures CategoryOf(name, true) ==
      Some(if ContainsAny(Lower(name), ReportWords) then DocReports
           else if ContainsAny(Lower(name), GuideWords) then DocGuides
           else DocMisc)
  {
    DocExtOnly(Ext(name));
    assert !IsTestDataName(name) && !IsResultName(name);
  }

  /** A documentation extension belongs to no other extension set. */
  lemma DocExtOnly(e: string)
    requires e in DocExts
    ensures e !in PageExts && e !in ScriptExts && e !in StyleExts
    ensures e !in DataExts && e !in LogExts && e !in ResultExts
  {
    assert e == ".md" || e == ".rst";
  }

  /** The literal `particlesjs-config.json` rule never decides anything: the
      data rule has already sent the file to the same place. */
  lemma ParticlesConfigShadowed(name: string)
    requires Lower(name) == "particlesjs-config.json"
    ensures IsTestDataName(name)
    ensures CategoryOf(name, true) == Some(TestData)
  {
    ParticlesIsData(name);
    ParticlesPassesEarlierRules(name);
  }

  lemma ParticlesIsData(name: string)
    requires Lower(name) == "particlesjs-config.json"
    ensures IsTestDataName(name)
  {
    ParticlesExt(name);
    assert ContainsAny(Lower(name), DataWords) by {
      assert OccursAt(Lower(name), DataWords[1], 12);
    }
  }

  /** The page, script and style rules and the `index.html` exception do not apply. */
  lemma ParticlesPassesEarlierRules(name: string)
    requires Lower(name) == "particlesjs-config.json"
    ensures name != "index.html"
    ensures Ext(name) !in PageExts && Ext(name) !in ScriptExts && Ext(name) !in StyleExts
  {
    ParticlesExt(name);
    assert |name| == 23;
  }

  lemma ParticlesExt(name: string)
    requires Lower(name) == "particlesjs-config.json"
    ensures Ext(name) == ".json"
  {
    SuffixLower(name);
    LastDotAt("particlesjs-config.json", 18);
    assert Suffix("particlesjs-config.json") == ".json";
  }

  /** Examples of the test-token rule: a token counts only between boundaries. */
  lemma TestTokenExamples()
    ensures CategoryOf("login_test.py", true) == Some(TestScript)
    ensures CategoryOf("run_test.sh", true) == Some(TestScript)
    ensures CategoryOf("testing.py", true) == None
    ensures CategoryOf("test1.py", true) == None
  {
    TokenExample("login_test.py", 10, 6);
    TokenExample("run_test.sh", 8, 4);
    NoTokenExample("testing.py", 7);
    NoTokenExample("test1.py", 5);
  }

  lemma TokenExample(s: string, dot: nat, at: nat)
    requires (s == "login_test.py" && dot == 10 && at == 6) || (s == "run_test.sh" && dot == 8 && at == 4)
    ensures CategoryOf(s, true) == Some(TestScript)
  {
    LastDotAt(s, dot);
    assert Ext(s) == s[dot..];
    assert Ext(s) in ScriptExts && Ext(s) !in PageExts;
    assert TokenAt(Lower(s), TestTokens[0], at);
  }

  lemma NoTokenExample(s: string, dot: nat)
    requires (s == "testing.py" && dot == 7) || (s == "test1.py" && dot == 5)
    ensures CategoryOf(s, true) == None
  {
    LastDotAt(s, dot);
    var e := Ext(s);
    assert e == ".py";
    assert e !in DataExts && e !in LogExts && e !in ResultExts && e !in DocExts;
    assert !IsResultName(s) && !IsTestDataName(s);
    assert Lower(s) == s;
    NoTestToken(s);
    assert Lower(s) != "particlesjs-config.json";
  }

  /** Neither name holds a test token: `test` is followed by a letter or digit,
      and no other token occurs. */
  lemma NoTestToken(s: string)
    requires s == "testing.py" || s == "test1.py"
    ensures !HasTestToken(s)
  {
    OccursChar(s, "test", 0);
    OccursChar(s, "test", 3);
    OccursChar(s, "spec", 3);
    OccursChar(s, "demo", 0);
    OccursChar(s, "example", 1);
    OccursChar(s, "fixture", 0);
    OccursChar(s, "sample", 2);
    OccursChar(s, "mock", 0);
    OccursChar(s, "stub", 2);
  }

  /** Examples of the documentation rule and the results rule. */
  lemma DocExamples()
    ensures CategoryOf("README.md", true) == Some(DocGuides)
    ensures CategoryOf("notes.md", true) == Some(DocMisc)
    ensures CategoryOf("coverage-report.json", true) == Some(TestResultsLogs)
  {
    ReadmeExample();
    NotesExample();
    CoverageExample();
  }

  lemma ReadmeExample()
    ensures CategoryOf("README.md", true) == Some(DocGuides)
  {
    LastDotAt("README.md", 6);
    assert Suffix("README.md") == ".md";
    assert Ext("README.md") == ".md";
    assert Lower("README.md") == "readme.md";
    assert OccursAt("readme.md", GuideWords[1], 0);
    NoReportWord("readme.md");
    DocsAlwaysClassified("README.md");
  }

  lemma NotesExample()
    ensures CategoryOf("notes.md", true) == Some(DocMisc)
  {
    LastDotAt("notes.md", 5);
    assert Suffix("notes.md") == ".md";
    assert Ext("notes.md") == ".md";
    assert Lower("notes.md") == "notes.md";
    NoReportWord("notes.md");
    NoGuideWord("notes.md");
    DocsAlwaysClassified("notes.md");
  }

  lemma CoverageExample()
    ensures CategoryOf("coverage-report.json", true) == Some(TestResultsLogs)
  {
    var c := "coverage-report.json";
    CoverageLower(c);
    CoverageNoToken(c);
    CoverageNoDataWord(c);
    assert OccursAt(c, ResultWords[3], 0);
    assert Ext(c) in ResultExts;
    assert IsResultName(c);
    assert !IsTestDataName(c);
    assert c != "index.html";
    assert Ext(c) !in PageExts && Ext(c) !in ScriptExts && Ext(c) !in StyleExts;
  }

  lemma CoverageLower(c: string)
    requires c == "coverage-report.json"
    ensures Lower(c) == c && Ext(c) == ".json"
  {
    LastDotAt(c, 15);
    assert Suffix(c) == ".json";
    LowerIdentity(".json");
    assert c == "coverage-" + "report.json";
    LowerIdentity("coverage-");
    LowerIdentity("report.json");
    LowerAppend("coverage-", "report.json");
  }

  lemma CoverageNoToken(c: string)
    requires c == "coverage-report.json"
    ensures !HasTestToken(c)
  {
    OccursChar(c, "test", 0);
    OccursChar(c, "test", 3);
    OccursChar(c, "spec", 3);
    OccursChar(c, "demo", 0);
    OccursChar(c, "example", 1);
    OccursChar(c, "fixture", 0);
    OccursChar(c, "sample", 1);
    OccursChar(c, "mock", 0);
    OccursChar(c, "stub", 3);
  }

  lemma CoverageNoDataWord(c: string)
    requires c == "coverage-report.json"
    ensures !ContainsAny(c, DataWords)
  {
    OccursChar(c, "data", 0);
    OccursChar(c, "config", 2);
    OccursChar(c, "fixture", 0);
  }

  lemma NoReportWord(s: string)
    requires s == "readme.md" || s == "notes.md"
    ensures !ContainsAny(s, ReportWords)
  {
    OccursChar(s, "report", 2);
    OccursChar(s, "summary", 1);
    OccursChar(s, "diagnostic", 3);
    OccursChar(s, "analysis", 6);
    OccursChar(s, "compliance", 0);
    OccursChar(s, "result", 3);
  }

  lemma NoGuideWord(s: string)
    requires s == "notes.md"
    ensures !ContainsAny(s, GuideWords)
  {
    OccursChar(s, "guide", 0);
    OccursChar(s, "readme", 0);
    OccursChar(s, "documentation", 2);
    OccursChar(s, "howto", 0);
    OccursChar(s, "how-to", 0);
    OccursChar(s, "how_to", 0);
    OccursChar(s, "how to", 0);
    OccursChar(s, "manual", 4);
    OccursChar(s, "tutorial", 1);
  }
}
