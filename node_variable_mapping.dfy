/**
 * The editor's naming of PLC variables: node `n` of a type with ports P1..Pk
 * owns the variables "MAIN.<n>.P1" .. "MAIN.<n>.Pk", and a variable path is
 * traced back to its node by its second dot-separated segment.
 */
module NodeVariableMapping {
  import opened Wrappers
  import opened FlowGraph
  import Strings

  /**
   * `nodePortMap`: the variable ports of each node type the table knows. Exactly the
   * ten listed types have an entry, the entry node has no ports, and every port name
   * is a single non-empty path segment.
   */
  function NodePorts(kind: string): (r: Option<seq<string>>)
    ensures r.Some? <==> kind in NodeKinds
    ensures kind == "entry" ==> r == Some([])
    ensures r.Some? ==> forall p :: p in r.value ==> p != "" && '.' !in p
  {
    if kind == "entry" then Some([])
    else if kind == "input" then Some(["OUT"])
    else if kind == "output" then Some(["IN"])
    else if kind == "timer" then Some(["IN", "PT", "Q", "ET"])
    else if kind == "counter" then Some(["CU", "RESET", "PV", "Q", "CV"])
    else if kind == "comparison" then Some(["A", "B", "OUT"])
    else if kind == "if" then Some(["COND"])
    else if kind == "for" then Some(["FROM", "TO", "i"])
    else if kind == "methodCall" then Some(["Cycles", "Temp", "RET"])
    else if kind == "methodEntry" then Some(["Cycles", "Temp"])
    else None
  }

  const NodeKinds: seq<string> :=
    ["entry", "input", "output", "timer", "counter", "comparison", "if", "for", "methodCall", "methodEntry"]

  const Program: string := "MAIN"

  /** "MAIN.<nodeId>.<port>". */
  function VariablePath(nodeId: string, port: string): string
  {
    Program + "." + nodeId + "." + port
  }

  /** One path per port, in port order. */
  function PathsFor(nodeId: string, ports: seq<string>): (r: seq<string>)
    ensures |r| == |ports|
    ensures forall i :: 0 <= i < |ports| ==> r[i] == VariablePath(nodeId, ports[i])
    decreases |ports|
  {
    if |ports| == 0 then [] else [VariablePath(nodeId, ports[0])] + PathsFor(nodeId, ports[1..])
  }

  /** `getVariablePathsForNode`. */
  function VariablePathsForNode(node: FlowNode): (r: seq<string>)
    ensures NodePorts(node.kind).None? ==> r == []
    ensures NodePorts(node.kind).Some? ==>
      var ports := NodePorts(node.kind).value;
      |r| == |ports| && forall i :: 0 <= i < |ports| ==> r[i] == VariablePath(node.id, ports[i])
  {
    match NodePorts(node.kind)
    case None => []
    case Some(ports) => PathsFor(node.id, ports)
  }

  /** `getAllVariablePaths`: the per-node paths, node after node; a path is collected exactly when some node owns it. */
  function AllVariablePaths(nodes: seq<FlowNode>): (r: seq<string>)
    ensures forall p :: p in r <==> exists i :: 0 <= i < |nodes| && p in VariablePathsForNode(nodes[i])
    decreases |nodes|
  {
    if |nodes| == 0 then []
    else
      assert forall i :: 1 <= i < |nodes| ==> nodes[1..][i - 1] == nodes[i];
      VariablePathsForNode(nodes[0]) + AllVariablePaths(nodes[1..])
  }

  /**
   * `getNodeIdFromPath`: the second segment of a path of at least three segments
   * starting with "MAIN". A parsed id has no dot, and the path is that node's
   * variable path for some port text.
   */
  function NodeIdFromPath(path: string): (r: Option<string>)
    ensures r.Some? ==> '.' !in r.value && exists rest :: path == VariablePath(r.value, rest)
  {
    var parts := Strings.Split(path, '.');
    if |parts| >= 3 && parts[0] == Program then
      SecondSegment(path);
      Some(parts[1])
    else None
  }

  /** A path of at least three segments starting with "MAIN" is "MAIN." + its second segment + "." + the rest. */
  lemma SecondSegment(path: string)
    requires |Strings.Split(path, '.')| >= 3 && Strings.Split(path, '.')[0] == Program
    ensures var parts := Strings.Split(path, '.');
      '.' !in parts[1] && path == VariablePath(parts[1], Strings.Join(parts[2..], '.'))
  {
    var parts := Strings.Split(path, '.');
    Strings.JoinSplit(path, '.');
    Strings.SplitSepFree(path, '.');
    assert '.' !in parts[1];
    var rest := Strings.Join(parts[2..], '.');
    assert parts[1..][1..] == parts[2..];
    assert path == parts[0] + ['.'] + (parts[1] + ['.'] + rest);
  }

  /** An entry node, and a node of a type the table does not know, own no variables. */
  lemma NoPathsWithoutPorts(node: FlowNode)
    requires node.kind == "entry" || NodePorts(node.kind).None?
    ensures VariablePathsForNode(node) == []
  {
  }

  /** Collecting the paths of a node list distributes over concatenation. */
  lemma {:induction false} AllPathsAppend(a: seq<FlowNode>, b: seq<FlowNode>)
    ensures AllVariablePaths(a + b) == AllVariablePaths(a) + AllVariablePaths(b)
    decreases |a|
  {
    if |a| > 0 {
      assert (a + b)[1..] == a[1..] + b;
      AllPathsAppend(a[1..], b);
    } else {
      assert a + b == b;
    }
  }

  /** A single node contributes exactly its own paths. */
  lemma AllPathsSingle(node: FlowNode)
    ensures AllVariablePaths([node]) == VariablePathsForNode(node)
  {
    assert [node][1..] == [];
  }

  /** A path names node `id` exactly when it is "MAIN." + id + "." + rest, with no dot in `id`. */
  lemma ParsesExactly(path: string, id: string)
    ensures NodeIdFromPath(path) == Some(id) <==>
      '.' !in id && exists rest :: path == VariablePath(id, rest)
  {
    if '.' !in id && exists rest :: path == VariablePath(id, rest) {
      var rest :| path == VariablePath(id, rest);
      RoundTrip(id, rest);
    }
  }

  /** Parsing a path built for a node without a dot in its id gives back that id. */
  lemma RoundTrip(id: string, port: string)
    requires '.' !in id
    ensures NodeIdFromPath(VariablePath(id, port)) == Some(id)
  {
    var path := VariablePath(id, port);
    assert path == Program + ['.'] + (id + ['.'] + port);
    Strings.SplitFree(Program, '.');
    Strings.SplitAfter(Program, id + ['.'] + port, '.');
    Strings.SplitAfter(id, port, '.');
    assert Strings.Split(path, '.') == [Program, id] + Strings.Split(port, '.');
  }

  /** Every path of a node whose id has no dot traces back to that node. */
  lemma NodePathsTraceBack(node: FlowNode)
    requires '.' !in node.id
    ensures forall p :: p in VariablePathsForNode(node) ==> NodeIdFromPath(p) == Some(node.id)
  {
    if NodePorts(node.kind).Some? {
      var ports := NodePorts(node.kind).value;
      forall p | p in VariablePathsForNode(node) ensures NodeIdFromPath(p) == Some(node.id) {
        var i :| 0 <= i < |ports| && VariablePathsForNode(node)[i] == p;
        RoundTrip(node.id, ports[i]);
      }
    }
  }

  /** An empty middle segment gives the empty id, not none. */
  lemma EmptyMiddleSegment()
    ensures NodeIdFromPath("MAIN..X") == Some("")
  {
    assert VariablePath("", "X") == "MAIN..X";
    RoundTrip("", "X");
  }
}
