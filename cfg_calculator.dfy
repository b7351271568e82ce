/** `CFGCalculator`: splits C source lines into basic blocks, links them and
    computes cyclomatic complexity as E - N + 2P. */
module CfgCalculator {
  import opened Wrappers
  import opened Text

  datatype Block = Block(id: nat, statements: seq<string>, successors: seq<nat>, predecessors: seq<nat>)

  /** `'flow'` edges come from parsing, `'sequential'` ones from graph building. */
  datatype EdgeKind = Flow | Sequential

  datatype Edge = Edge(from: nat, to: nat, kind: EdgeKind)

  datatype Metrics = Metrics(nodes: int, edges: int, connectedComponents: int, regions: int, cyclomaticComplexity: int)

  /** The blocks (the current block last) and the edges built so far. */
  datatype Graph = Graph(nodes: seq<Block>, edges: seq<Edge>)

  /** What `analyze` returns; the text of a caught error is not modelled. */
  datatype Analysis = Analysis(success: bool, metrics: Option<Metrics>, nodes: seq<Block>, edges: seq<Edge>)

  const ZeroMetrics := Metrics(0, 0, 0, 0, 0)

  /** The keywords whose mere occurrence makes a line a control-flow line. */
  const Keywords: seq<string> := [
    "if", "else", "for", "while", "do", "switch", "case", "default", "goto",
    "return", "break", "continue"]

  /** `isControlFlowStatement`: some keyword occurs anywhere in the line. */
  predicate IsControlFlow(line: string) {
    exists k :: 0 <= k < |Keywords| && Contains(line, Keywords[k])
  }

  /** A trimmed line that parsing ignores: empty, or a comment start. */
  predicate Skipped(line: string) {
    line == "" || StartsWith(line, "//") || StartsWith(line, "/*")
  }

  /** One line of the parsing loop applied to the graph built so far. */
  function StepLine(g: Graph, raw: string): (r: Graph)
    requires |g.nodes| >= 1
    ensures |r.nodes| >= 1
  {
    var line := Trim(raw);
    if Skipped(line) then g
    else if IsControlFlow(line) then OpenBlock(AddLine(g, line))
    else AddLine(g, line)
  }

  /** The current (last) block with `line` appended to its statements. */
  function AddLine(g: Graph, line: string): (r: Graph)
    requires |g.nodes| >= 1
    ensures |r.nodes| == |g.nodes|
  {
    var last := |g.nodes| - 1;
    Graph(g.nodes[..last] + [g.nodes[last].(statements := g.nodes[last].statements + [line])], g.edges)
  }

  /** A new empty block after the current one, joined to it by a flow edge. */
  function OpenBlock(g: Graph): (r: Graph)
    requires |g.nodes| >= 1
    ensures |r.nodes| == |g.nodes| + 1
  {
    var last := |g.nodes| - 1;
    var cur := g.nodes[last];
    var next := Block(|g.nodes|, [], [], [cur.id]);
    Graph(g.nodes[..last] + [cur.(successors := cur.successors + [next.id]), next],
          g.edges + [Edge(cur.id, next.id, Flow)])
  }

  /** The blocks and flow edges `parseCodeIntoBlocks` creates for `lines`. */
  function ParseLines(lines: seq<string>): (g: Graph)
    ensures |g.nodes| >= 1
  {
    if lines == [] then Graph([Block(0, [], [], [])], [])
    else StepLine(ParseLines(lines[..|lines| - 1]), lines[|lines| - 1])
  }

  lemma ParseNext(lines: seq<string>, i: nat)
    requires i < |lines|
    ensures ParseLines(lines[..i + 1]) == StepLine(ParseLines(lines[..i]), lines[i])
  {
    assert lines[..i + 1][..i] == lines[..i];
  }

  /** The trimmed lines that are kept, in order. */
  function Kept(lines: seq<string>): seq<string> {
    if lines == [] then []
    else
      var line := Trim(lines[|lines| - 1]);
      Kept(lines[..|lines| - 1]) + (if Skipped(line) then [] else [line])
  }

  /** The number of kept lines that are control-flow lines. */
  function ControlCount(lines: seq<string>): nat {
    if lines == [] then 0
    else
      var line := Trim(lines[|lines| - 1]);
      ControlCount(lines[..|lines| - 1]) + (if !Skipped(line) && IsControlFlow(line) then 1 else 0)
  }

  /** All statements of the blocks, block after block. */
  function Statements(nodes: seq<Block>): seq<string> {
    if nodes == [] then [] else Statements(nodes[..|nodes| - 1]) + nodes[|nodes| - 1].statements
  }

  /** A straight chain: block `k` has id `k`, one successor `k + 1` (none for
      the last) and one predecessor `k - 1` (none for the first), and edge `k`
      is the flow edge from `k` to `k + 1`. */
  predicate Chain(g: Graph) {
    && |g.nodes| >= 1
    && |g.edges| == |g.nodes| - 1
    && (forall k :: 0 <= k < |g.nodes| ==>
          && g.nodes[k].id == k
          && g.nodes[k].successors == (if k < |g.nodes| - 1 then [k + 1] else [])
          && g.nodes[k].predecessors == (if k == 0 then [] else [k - 1]))
    && (forall k :: 0 <= k < |g.edges| ==> g.edges[k] == Edge(k, k + 1, Flow))
  }

  /** Every block but the last ends with a control-flow line, and no other
      statement is one. */
  predicate EndsAtControl(nodes: seq<Block>) {
    forall k, j :: 0 <= k < |nodes| && 0 <= j < |nodes[k].statements| ==>
      (IsControlFlow(nodes[k].statements[j]) <==> k < |nodes| - 1 && j == |nodes[k].statements| - 1)
  }

  predicate NonFinalNonEmpty(nodes: seq<Block>) {
    forall k :: 0 <= k < |nodes| - 1 ==> nodes[k].statements != []
  }

  lemma StepChain(g: Graph, raw: string)
    requires Chain(g)
    ensures Chain(StepLine(g, raw))
  {
    var line := Trim(raw);
    if !Skipped(line) {
      AddLineChain(g, line);
      if IsControlFlow(line) {
        OpenBlockChain(AddLine(g, line));
      }
    }
  }

  /** Appending a statement keeps the chain. */
  lemma AddLineChain(g: Graph, line: string)
    requires Chain(g)
    ensures Chain(AddLine(g, line))
  {
    var r := AddLine(g, line);
    forall k | 0 <= k < |g.nodes| - 1
      ensures r.nodes[k] == g.nodes[k]
    {
    }
  }

  /** Opening the next block extends the chain by one block and one edge. */
  lemma OpenBlockChain(g: Graph)
    requires Chain(g)
    ensures Chain(OpenBlock(g))
  {
    var r := OpenBlock(g);
    var n := |g.nodes|;
    forall k | 0 <= k < n + 1
      ensures r.nodes[k].id == k
      ensures r.nodes[k].successors == (if k < n then [k + 1] else [])
      ensures r.nodes[k].predecessors == (if k == 0 then [] else [k - 1])
    {
      if k < n - 1 {
        assert r.nodes[k] == g.nodes[k];
      }
    }
  }

  lemma StepBlocks(g: Graph, raw: string)
    requires |g.nodes| >= 1 && EndsAtControl(g.nodes) && NonFinalNonEmpty(g.nodes)
    ensures EndsAtControl(StepLine(g, raw).nodes) && NonFinalNonEmpty(StepLine(g, raw).nodes)
  {
    var line := Trim(raw);
    if !Skipped(line) {
      if IsControlFlow(line) {
        ControlLineBlocks(g, line);
      } else {
        PlainLineBlocks(g, line);
      }
    }
  }

  /** A control-flow line closes the current block, which is then non-empty. */
  lemma ControlLineBlocks(g: Graph, line: string)
    requires |g.nodes| >= 1 && EndsAtControl(g.nodes) && NonFinalNonEmpty(g.nodes)
    requires IsControlFlow(line)
    ensures EndsAtControl(OpenBlock(AddLine(g, line)).nodes) && NonFinalNonEmpty(OpenBlock(AddLine(g, line)).nodes)
  {
    var r := OpenBlock(AddLine(g, line));
    var n := |g.nodes|;
    forall k, j | 0 <= k < |r.nodes| && 0 <= j < |r.nodes[k].statements|
      ensures IsControlFlow(r.nodes[k].statements[j]) <==> k < |r.nodes| - 1 && j == |r.nodes[k].statements| - 1
    {
      if k < n - 1 {
        assert r.nodes[k] == g.nodes[k];
      } else {
        assert r.nodes[k].statements == g.nodes[k].statements + [line];
        if j < |g.nodes[k].statements| {
          assert r.nodes[k].statements[j] == g.nodes[k].statements[j];
        }
      }
    }
    forall k | 0 <= k < |r.nodes| - 1
      ensures r.nodes[k].statements != []
    {
      if k < n - 1 {
        assert r.nodes[k] == g.nodes[k];
      }
    }
  }

  /** Any other kept line joins the current block. */
  lemma PlainLineBlocks(g: Graph, line: string)
    requires |g.nodes| >= 1 && EndsAtControl(g.nodes) && NonFinalNonEmpty(g.nodes)
    requires !IsControlFlow(line)
    ensures EndsAtControl(AddLine(g, line).nodes) && NonFinalNonEmpty(AddLine(g, line).nodes)
  {
    var r := AddLine(g, line);
    var n := |g.nodes|;
    forall k, j | 0 <= k < |r.nodes| && 0 <= j < |r.nodes[k].statements|
      ensures IsControlFlow(r.nodes[k].statements[j]) <==> k < |r.nodes| - 1 && j == |r.nodes[k].statements| - 1
    {
      if k < n - 1 {
        assert r.nodes[k] == g.nodes[k];
      } else {
        assert r.nodes[k].statements == g.nodes[k].statements + [line];
        if j < |g.nodes[k].statements| {
          assert r.nodes[k].statements[j] == g.nodes[k].statements[j];
        }
      }
    }
    forall k | 0 <= k < |r.nodes| - 1
      ensures r.nodes[k].statements != []
    {
      assert r.nodes[k] == g.nodes[k];
    }
  }

  lemma StepStatements(g: Graph, raw: string)
    requires |g.nodes| >= 1
    ensures var line := Trim(raw);
      Statements(StepLine(g, raw).nodes) == Statements(g.nodes) + (if Skipped(line) then [] else [line])
  {
    var line := Trim(raw);
    if !Skipped(line) {
      AddLineStatements(g, line);
      if IsControlFlow(line) {
        OpenBlockStatements(AddLine(g, line));
      }
    }
  }

  lemma AddLineStatements(g: Graph, line: string)
    requires |g.nodes| >= 1
    ensures Statements(AddLine(g, line).nodes) == Statements(g.nodes) + [line]
  {
    var last := |g.nodes| - 1;
    var r := AddLine(g, line);
    assert g.nodes == g.nodes[..last] + [g.nodes[last]];
    assert r.nodes[..last] == g.nodes[..last];
    assert Statements(g.nodes) == Statements(g.nodes[..last]) + g.nodes[last].statements;
  }

  lemma OpenBlockStatements(g: Graph)
    requires |g.nodes| >= 1
    ensures Statements(OpenBlock(g).nodes) == Statements(g.nodes)
  {
    var last := |g.nodes| - 1;
    var r := OpenBlock(g);
    assert g.nodes == g.nodes[..last] + [g.nodes[last]];
    assert r.nodes[..last + 1] == g.nodes[..last] + [r.nodes[last]];
    assert r.nodes[..last + 1][..last] == g.nodes[..last];
    assert Statements(g.nodes) == Statements(g.nodes[..last]) + g.nodes[last].statements;
  }

  /** What parsing builds: a chain with one block per control-flow line plus
      the entry block, holding exactly the kept lines in order, each block
      cut right after its control-flow line. */
  lemma {:induction false} ParseShape(lines: seq<string>)
    ensures var g := ParseLines(lines);
      && Chain(g)
      && |g.nodes| == 1 + ControlCount(lines)
      && Statements(g.nodes) == Kept(lines)
      && EndsAtControl(g.nodes) && NonFinalNonEmpty(g.nodes)
  {
    if lines != [] {
      var init := lines[..|lines| - 1];
      ParseShape(init);
      StepChain(ParseLines(init), lines[|lines| - 1]);
      StepBlocks(ParseLines(init), lines[|lines| - 1]);
      StepStatements(ParseLines(init), lines[|lines| - 1]);
    }
  }

  /** The loop of `buildControlFlowGraph` at pair `i`: a sequential edge when
      block `i` does not yet list block `i + 1` as a successor. */
  function LinkPair(g: Graph, i: nat): (r: Graph)
    requires i + 1 < |g.nodes|
    ensures |r.nodes| == |g.nodes|
  {
    var cur := g.nodes[i];
    var next := g.nodes[i + 1];
    if next.id in cur.successors then g
    else
      Graph(g.nodes[i := cur.(successors := cur.successors + [next.id])]
                   [i + 1 := next.(predecessors := next.predecessors + [cur.id])],
            g.edges + [Edge(cur.id, next.id, Sequential)])
  }

  /** The pairs from `i` on. */
  function LinkFrom(g: Graph, i: nat): (r: Graph)
    ensures |r.nodes| == |g.nodes|
    decreases |g.nodes| - i
  {
    if i + 1 >= |g.nodes| then g else LinkFrom(LinkPair(g, i), i + 1)
  }

  /** Each block lists the next one among its successors. */
  predicate Linked(nodes: seq<Block>) {
    forall k :: 0 <= k < |nodes| - 1 ==> nodes[k + 1].id in nodes[k].successors
  }

  /** Graph building adds nothing to a graph whose consecutive blocks are
      already linked. */
  lemma {:induction false} LinkedUnchanged(g: Graph, i: nat)
    requires Linked(g.nodes)
    ensures LinkFrom(g, i) == g
    decreases |g.nodes| - i
  {
    if i + 1 < |g.nodes| {
      assert g.nodes[i + 1].id in g.nodes[i].successors;
      LinkedUnchanged(g, i + 1);
    }
  }

  /** Graph building leaves every pair linked, whatever it started from. */
  lemma {:induction false} LinkFromLinks(g: Graph, i: nat)
    requires forall k :: 0 <= k < i && k + 1 < |g.nodes| ==> g.nodes[k + 1].id in g.nodes[k].successors
    ensures Linked(LinkFrom(g, i).nodes)
    decreases |g.nodes| - i
  {
    if i + 1 < |g.nodes| {
      var h := LinkPair(g, i);
      forall k | 0 <= k < i + 1 && k + 1 < |h.nodes|
        ensures h.nodes[k + 1].id in h.nodes[k].successors
      {
        if k < i - 1 {
          assert h.nodes[k] == g.nodes[k] && h.nodes[k + 1] == g.nodes[k + 1];
        } else if k == i - 1 {
          assert h.nodes[k] == g.nodes[k] && h.nodes[k + 1].id == g.nodes[k + 1].id;
        }
      }
      LinkFromLinks(h, i + 1);
    }
  }

  /** Cyclomatic complexity and the region estimate for E edges and N nodes. */
  function MetricsOf(n: int, e: int): (m: Metrics)
    ensures m.nodes == n && m.edges == e && m.connectedComponents == 1
    ensures m.regions >= 1 && (e - n + 2 >= 1 ==> m.regions == m.cyclomaticComplexity)
  {
    Metrics(n, e, 1, if e - n + 2 > 1 then e - n + 2 else 1, e - n + 2 * 1)
  }

  /** The metrics any successful analysis reports: the block and edge counts
      of a chain, complexity 1 and one region. */
  lemma ChainMetrics(g: Graph)
    requires Chain(g)
    ensures MetricsOf(|g.nodes|, |g.edges|) == Metrics(|g.nodes|, |g.nodes| - 1, 1, 1, 1)
  {
  }

  lemma ChainLinked(g: Graph)
    requires Chain(g)
    ensures Linked(g.nodes)
  {
    forall k | 0 <= k < |g.nodes| - 1
      ensures g.nodes[k + 1].id in g.nodes[k].successors
    {
      assert g.nodes[k].successors == [k + 1];
    }
  }

  /** The parsed chain of `lines` is left as it is by graph building, and
      its metrics are those of a chain of `1 + ControlCount(lines)` blocks. */
  lemma AnalysisShape(lines: seq<string>)
    ensures var g := ParseLines(lines);
      var n := 1 + ControlCount(lines);
      && |g.nodes| == n
      && LinkFrom(g, 0) == g
      && MetricsOf(|g.nodes|, |g.edges|) == Metrics(n, n - 1, 1, 1, 1)
  {
    var g := ParseLines(lines);
    ParseShape(lines);
    ChainLinked(g);
    LinkedUnchanged(g, 0);
    ChainMetrics(g);
  }

  /** The keyword test is a bare substring search: `double` contains `do`. */
  lemma DoubleIsControlFlow()
    ensures IsControlFlow("double x;")
  {
    assert Keywords[4] == "do";
    assert OccursAt("double x;", "do", 0);
  }

  /** A line in which no keyword's first letter appears is not a control-flow
      line. */
  lemma NoKeywordLetter(line: string)
    requires forall i :: 0 <= i < |line| ==> line[i] !in "iefwdscgrb"
    ensures !IsControlFlow(line)
  {
    forall k | 0 <= k < |Keywords|
      ensures !Contains(line, Keywords[k])
    {
      var w := Keywords[k];
      assert w[0] in "iefwdscgrb";
      OccursChar(line, w, 0);
    }
  }

  /** The body of the parsing loop: one raw line against the blocks (the
      current block last) and flow edges so far, and the next block id. */
  method ParseLine(blocks: seq<Block>, flow: seq<Edge>, blockId: nat, raw: string)
    returns (blocks': seq<Block>, flow': seq<Edge>, blockId': nat)
    requires |blocks| >= 1 && blockId == |blocks|
    ensures Graph(blocks', flow') == StepLine(Graph(blocks, flow), raw) && blockId' == |blocks'|
  {
    blocks', flow', blockId' := blocks, flow, blockId;
    var line := Trim(raw);
    if !(line == "" || StartsWith(line, "//") || StartsWith(line, "/*")) {
      var cur := blocks[|blocks| - 1];
      cur := cur.(statements := cur.statements + [line]);
      if IsControlFlow(line) {
        var next := Block(blockId', [], [], [cur.id]);
        blockId' := blockId' + 1;
        flow' := flow' + [Edge(cur.id, next.id, Flow)];
        cur := cur.(successors := cur.successors + [next.id]);
        blocks' := blocks[..|blocks| - 1] + [cur, next];
      } else {
        blocks' := blocks[..|blocks| - 1] + [cur];
      }
    }
  }

  /** The parsing loop of `parseCodeIntoBlocks` over all the lines, starting
      from the empty entry block. */
  method ParseAll(lines: seq<string>) returns (blocks: seq<Block>, flow: seq<Edge>)
    ensures Graph(blocks, flow) == ParseLines(lines)
  {
    blocks := [Block(0, [], [], [])];
    var blockId := 1;
    flow := [];
    var i := 0;
    while i < |lines|
      invariant 0 <= i <= |lines|
      invariant Graph(blocks, flow) == ParseLines(lines[..i])
      invariant blockId == |blocks|
    {
      blocks, flow, blockId := ParseLine(blocks, flow, blockId, lines[i]);
      ParseNext(lines, i);
      i := i + 1;
    }
    assert lines[..i] == lines;
  }

  class CFGCalculator {
    var nodes: seq<Block>
    var edges: seq<Edge>
    /** Positions in `nodes` of the entry and exit blocks. */
    var entryNode: Option<nat>
    var exitNode: Option<nat>
    var metrics: Metrics

    constructor()
      ensures nodes == [] && edges == [] && entryNode == None && exitNode == None
      ensures metrics == ZeroMetrics
    {
      nodes := [];
      edges := [];
      entryNode := None;
      exitNode := None;
      metrics := ZeroMetrics;
    }

    /** `reset`. */
    method Reset()
      modifies this
      ensures nodes == [] && edges == [] && entryNode == None && exitNode == None
      ensures metrics == ZeroMetrics
    {
      nodes := [];
      edges := [];
      entryNode := None;
      exitNode := None;
      metrics := ZeroMetrics;
    }

    /** `parseCodeIntoBlocks`: appends the blocks and flow edges of the code's
        lines; the entry is the first block appended and the exit the last. */
    method ParseCodeIntoBlocks(code: string)
      modifies this
      ensures nodes == old(nodes) + ParseLines(SplitLines(code)).nodes
      ensures edges == old(edges) + ParseLines(SplitLines(code)).edges
      ensures entryNode == Some(|old(nodes)|) && exitNode == Some(|nodes| - 1)
      ensures metrics == old(metrics)
    {
      var lines := SplitLines(code);
      entryNode := Some(|nodes|);
      var blocks, flow := ParseAll(lines);
      nodes := nodes + blocks;
      edges := edges + flow;
      exitNode := Some(|nodes| - 1);
    }

    /** `buildControlFlowGraph`. */
    method BuildControlFlowGraph()
      modifies this
      ensures Graph(nodes, edges) == LinkFrom(Graph(old(nodes), old(edges)), 0)
      ensures entryNode == old(entryNode) && exitNode == old(exitNode) && metrics == old(metrics)
    {
      var i := 0;
      while i + 1 < |nodes|
        invariant |nodes| == |old(nodes)|
        invariant LinkFrom(Graph(nodes, edges), i) == LinkFrom(Graph(old(nodes), old(edges)), 0)
        invariant entryNode == old(entryNode) && exitNode == old(exitNode) && metrics == old(metrics)
      {
        var cur := nodes[i];
        var next := nodes[i + 1];
        if !(next.id in cur.successors) {
          edges := edges + [Edge(cur.id, next.id, Sequential)];
          nodes := nodes[i := cur.(successors := cur.successors + [next.id])];
          nodes := nodes[i + 1 := next.(predecessors := next.predecessors + [cur.id])];
        }
        i := i + 1;
      }
    }

    /** `calculateMetrics`. */
    method CalculateMetrics()
      modifies this
      ensures metrics == MetricsOf(|nodes|, |edges|)
      ensures nodes == old(nodes) && edges == old(edges)
      ensures entryNode == old(entryNode) && exitNode == old(exitNode)
    {
      var n := |nodes|;
      var e := |edges|;
      var cc := 1;
      var regions := if e - n + 2 > 1 then e - n + 2 else 1;
      metrics := Metrics(n, e, cc, regions, e - n + 2 * cc);
    }

    /** `analyze`. `code` is None for a value without a `split` method, which
        makes parsing throw after the reset. A successful analysis is always
        the straight chain of the code's lines with complexity 1 and one
        region. */
    method Analyze(code: Option<string>) returns (r: Analysis)
      modifies this
      ensures code.None? ==>
        && r == Analysis(false, None, [], [])
        && nodes == [] && edges == [] && entryNode == None && exitNode == None && metrics == ZeroMetrics
      ensures code.Some? ==>
        var g := ParseLines(SplitLines(code.value));
        var n := 1 + ControlCount(SplitLines(code.value));
        && nodes == g.nodes && edges == g.edges
        && entryNode == Some(0) && exitNode == Some(n - 1)
        && metrics == Metrics(n, n - 1, 1, 1, 1)
        && r == Analysis(true, Some(metrics), nodes, edges)
    {
      Reset();
      if code.None? {
        return Analysis(false, None, [], []);
      }
      ParseCodeIntoBlocks(code.value);
      ghost var g := ParseLines(SplitLines(code.value));
      assert nodes == g.nodes && edges == g.edges;
      AnalysisShape(SplitLines(code.value));
      BuildControlFlowGraph();
      CalculateMetrics();
      return Analysis(true, Some(metrics), nodes, edges);
    }
  }
}
