/**
 * The run session of the single-page builder (bug-bounty-platform/src/App.tsx):
 * the workflow being edited, and per-node logs and statuses fed by the run's
 * message stream. Each React state updater is a pure function of the previous
 * value; `Session` holds the three pieces of state and applies them.
 */
module AppState {
  import opened Wrappers
  import opened Text
  import opened Tools
  import opened Graph

  datatype NodeData = NodeData(tool: string, params: map<string, ArgValue>, labelText: string)
  datatype FlowNode = FlowNode(id: string, kind: string, data: NodeData)
  datatype FlowEdge = FlowEdge(id: string, source: string, target: string)
  datatype Workflow = Workflow(id: string, name: string, nodes: seq<FlowNode>, edges: seq<FlowEdge>)

  /** A message of the run's stream: `log`, `node_status`, or any other type. */
  datatype Message =
    | LogLine(node: string, line: string)
    | NodeStatus(node: string, status: string)
    | Other(kind: string)

  /** The workflow the page starts with (lines 9-18). */
  const Initial: Workflow := Workflow(
    "wf1", "Recon→HTTPX→Nuclei",
    [ FlowNode("n1", "tool", NodeData("subfinder", map[], "Subfinder")),
      FlowNode("n2", "tool", NodeData("httpx", map[], "HTTPX")),
      FlowNode("n3", "tool", NodeData("nuclei", map[], "Nuclei")) ],
    [ FlowEdge("e1", "n1", "n2"), FlowEdge("e2", "n2", "n3") ])

  function NodeIds(nodes: seq<FlowNode>): (r: seq<string>)
    ensures |r| == |nodes| && forall k | 0 <= k < |nodes| :: r[k] == nodes[k].id
  {
    if nodes == [] then [] else [nodes[0].id] + NodeIds(nodes[1..])
  }

  function GraphEdges(edges: seq<FlowEdge>): (r: seq<Edge>)
    ensures |r| == |edges| && forall k | 0 <= k < |edges| :: r[k] == Edge(edges[k].source, edges[k].target)
  {
    if edges == [] then [] else [Edge(edges[0].source, edges[0].target)] + GraphEdges(edges[1..])
  }

  lemma InitialIds()
    ensures NodeIds(Initial.nodes) == ["n1", "n2", "n3"]
  {
    var ids := NodeIds(Initial.nodes);
    assert ids[0] == "n1" && ids[1] == "n2" && ids[2] == "n3";
  }

  lemma InitialEdges()
    ensures GraphEdges(Initial.edges) == [Edge("n1", "n2"), Edge("n2", "n3")]
  {
    var es := GraphEdges(Initial.edges);
    assert es[0] == Edge("n1", "n2") && es[1] == Edge("n2", "n3");
  }

  /** Three distinct nodes, two edges between them, and `n1, n2, n3` is an order that respects them. */
  lemma InitialShape()
    ensures |Initial.nodes| == 3 && |Initial.edges| == 2
    ensures Distinct(NodeIds(Initial.nodes))
    ensures forall e | e in Initial.edges :: e.source in NodeIds(Initial.nodes) && e.target in NodeIds(Initial.nodes)
    ensures IsTopoOrder(["n1", "n2", "n3"], NodeIds(Initial.nodes), GraphEdges(Initial.edges))
  {
    var ids := NodeIds(Initial.nodes);
    InitialIds();
    var es := GraphEdges(Initial.edges);
    InitialEdges();
    var order := ["n1", "n2", "n3"];
    assert Distinct(ids) by {
      forall i, j | 0 <= i < j < 3 ensures ids[i] != ids[j] {
      }
    }
    forall i, j | 0 <= i < 3 && 0 <= j < 3 && HasEdge(es, order[i], order[j]) ensures i < j {
      assert Edge(order[i], order[j]) == es[0] || Edge(order[i], order[j]) == es[1];
    }
  }

  // ---------------------------------------------------------------------------
  // `onArgsChange` (lines 32-34)

  /** The `setWf` updater: the node with id `nodeId` gets `params`; nothing else changes. */
  function WithParams(prev: Workflow, nodeId: string, params: map<string, ArgValue>): (r: Workflow)
    ensures r.id == prev.id && r.name == prev.name && r.edges == prev.edges
    ensures |r.nodes| == |prev.nodes|
    ensures forall k | 0 <= k < |prev.nodes| && prev.nodes[k].id != nodeId :: r.nodes[k] == prev.nodes[k]
    ensures forall k | 0 <= k < |prev.nodes| && prev.nodes[k].id == nodeId ::
      r.nodes[k] == prev.nodes[k].(data := prev.nodes[k].data.(params := params))
  {
    prev.(nodes := SetParams(prev.nodes, nodeId, params))
  }

  function SetParams(nodes: seq<FlowNode>, nodeId: string, params: map<string, ArgValue>): (r: seq<FlowNode>)
    ensures |r| == |nodes|
    ensures forall k | 0 <= k < |nodes| ::
      r[k] == if nodes[k].id == nodeId then nodes[k].(data := nodes[k].data.(params := params)) else nodes[k]
  {
    if nodes == [] then []
    else
      var n := nodes[0];
      [if n.id == nodeId then n.(data := n.data.(params := params)) else n] + SetParams(nodes[1..], nodeId, params)
  }

  /** Editing keeps the ids, the tools and the labels of every node, so the canvas does not change shape. */
  lemma WithParamsKeepsShape(prev: Workflow, nodeId: string, params: map<string, ArgValue>)
    ensures NodeIds(WithParams(prev, nodeId, params).nodes) == NodeIds(prev.nodes)
    ensures Canvas(WithParams(prev, nodeId, params).nodes) == Canvas(prev.nodes)
    ensures forall k | 0 <= k < |prev.nodes| ::
      WithParams(prev, nodeId, params).nodes[k].data.tool == prev.nodes[k].data.tool
  {
    var r := WithParams(prev, nodeId, params);
    assert NodeIds(r.nodes) == NodeIds(prev.nodes);
  }

  // ---------------------------------------------------------------------------
  // The message handler passed to `connectRun` (lines 39-42)

  /** The `setLogs` updater: `line` goes at the end of the node's lines, which start empty. */
  function AppendLog(p: map<string, seq<string>>, node: string, line: string): (r: map<string, seq<string>>)
    ensures r.Keys == p.Keys + {node}
    ensures r[node] == LinesOf(p, node) + [line]
    ensures forall k | k in p && k != node :: r[k] == p[k]
  {
    p[node := LinesOf(p, node) + [line]]
  }

  /** `p[node] || []` */
  function LinesOf(p: map<string, seq<string>>, node: string): seq<string> {
    if node in p then p[node] else []
  }

  datatype RunView = RunView(logs: map<string, seq<string>>, status: map<string, string>)

  /** One message: a log line or a status (overwritten whatever it was); any other type changes nothing. */
  function Handle(v: RunView, m: Message): RunView {
    match m
    case LogLine(node, line) => v.(logs := AppendLog(v.logs, node, line))
    case NodeStatus(node, st) => v.(status := v.status[node := st])
    case Other(_) => v
  }

  function HandleAll(v: RunView, ms: seq<Message>): RunView
    decreases |ms|
  {
    if ms == [] then v else Handle(HandleAll(v, ms[..|ms| - 1]), ms[|ms| - 1])
  }

  /** The lines of the `log` messages for `node`, in stream order. */
  function LinesFor(ms: seq<Message>, node: string): (r: seq<string>)
    ensures |r| <= |ms|
    decreases |ms|
  {
    if ms == [] then []
    else
      var m := ms[|ms| - 1];
      LinesFor(ms[..|ms| - 1], node) + (if m.LogLine? && m.node == node then [m.line] else [])
  }

  /** The status of the last `node_status` message for `node`. */
  function LastStatus(ms: seq<Message>, node: string): Option<string>
    decreases |ms|
  {
    if ms == [] then None
    else
      var m := ms[|ms| - 1];
      if m.NodeStatus? && m.node == node then Some(m.status) else LastStatus(ms[..|ms| - 1], node)
  }

  /** A node's stored lines are its earlier lines followed by every line sent for it, none dropped. */
  lemma {:induction false} LogsAccumulate(v: RunView, ms: seq<Message>, node: string)
    ensures LinesOf(HandleAll(v, ms).logs, node) == LinesOf(v.logs, node) + LinesFor(ms, node)
    decreases |ms|
  {
    if ms != [] {
      var n := |ms| - 1;
      LogsAccumulate(v, ms[..n], node);
      var w := HandleAll(v, ms[..n]);
      match ms[n]
      case LogLine(nd, line) => {
        if nd == node {
          assert LinesOf(Handle(w, ms[n]).logs, node) == LinesOf(w.logs, node) + [line];
        } else {
          assert LinesOf(Handle(w, ms[n]).logs, node) == LinesOf(w.logs, node);
        }
      }
      case NodeStatus(_, _) =>
      case Other(_) =>
    }
  }

  /** A node's status is the one its last `node_status` message carried, with no terminal state. */
  lemma {:induction false} LastStatusWins(v: RunView, ms: seq<Message>, node: string)
    ensures LastStatus(ms, node).Some? ==>
      node in HandleAll(v, ms).status && HandleAll(v, ms).status[node] == LastStatus(ms, node).value
    ensures LastStatus(ms, node).None? ==>
      (node in HandleAll(v, ms).status <==> node in v.status) &&
      (node in v.status ==> HandleAll(v, ms).status[node] == v.status[node])
    decreases |ms|
  {
    if ms != [] {
      LastStatusWins(v, ms[..|ms| - 1], node);
    }
  }

  /** `log` messages never touch statuses, and `node_status` messages never touch logs. */
  lemma HandleSeparates(v: RunView, m: Message)
    ensures !m.NodeStatus? ==> Handle(v, m).status == v.status
    ensures !m.LogLine? ==> Handle(v, m).logs == v.logs
  {
  }

  // ---------------------------------------------------------------------------
  // What the page shows (lines 45, 98-102)

  /** `status[id] || "idle"`: an absent or empty status shows as "idle". */
  function StatusLabel(status: map<string, string>, id: string): (r: string)
    ensures r == "idle" <==> id !in status || status[id] == "" || status[id] == "idle"
    ensures r != "idle" ==> id in status && r == status[id]
  {
    if id in status && status[id] != "" then status[id] else "idle"
  }

  /** The colour class of a status badge. */
  function StatusColor(status: map<string, string>, id: string): (r: string)
    ensures r == "text-gray-400" <==> id !in status || status[id] !in ["running", "ok", "error"]
  {
    if id in status && status[id] == "running" then "text-yellow-600"
    else if id in status && status[id] == "ok" then "text-green-600"
    else if id in status && status[id] == "error" then "text-red-600"
    else "text-gray-400"
  }

  /** `lines.slice(-400)`: the last `min(400, n)` lines, in order. */
  function LogTail(lines: seq<string>): (r: seq<string>)
    ensures |r| == if |lines| < 400 then |lines| else 400
    ensures forall k | 0 <= k < |r| :: r[k] == lines[|lines| - |r| + k]
  {
    if |lines| <= 400 then lines else lines[|lines| - 400..]
  }

  /** The terminal pane of a node: its tail joined by newlines. */
  function LogText(logs: map<string, seq<string>>, id: string): string {
    Join(LogTail(LinesOf(logs, id)), "\n")
  }

  /** A new line always shows, as the last one of the pane. */
  lemma NewLineShown(logs: map<string, seq<string>>, node: string, line: string)
    ensures var t := LogTail(LinesOf(AppendLog(logs, node, line), node));
      t != [] && t[|t| - 1] == line
    ensures |LinesOf(logs, node)| < 400 ==>
      LogTail(LinesOf(AppendLog(logs, node, line), node)) == LinesOf(logs, node) + [line]
  {
  }

  datatype CanvasNode = CanvasNode(id: string, x: int, y: int, labelText: string)

  /** `wf.nodes.map(...)`: one canvas node per workflow node, 260 pixels apart on one row. */
  function Canvas(nodes: seq<FlowNode>): (r: seq<CanvasNode>)
    ensures |r| == |nodes|
    ensures forall i | 0 <= i < |nodes| :: r[i].id == nodes[i].id && r[i].labelText == nodes[i].data.labelText
    ensures forall i | 0 <= i < |nodes| :: r[i].x == 150 + i * 260 && r[i].y == 160
  {
    CanvasFrom(nodes, 0)
  }

  function CanvasFrom(nodes: seq<FlowNode>, i0: nat): (r: seq<CanvasNode>)
    ensures |r| == |nodes|
    ensures forall i | 0 <= i < |nodes| ::
      r[i] == CanvasNode(nodes[i].id, 150 + (i0 + i) * 260, 160, nodes[i].data.labelText)
    decreases |nodes|
  {
    if nodes == [] then []
    else [CanvasNode(nodes[0].id, 150 + i0 * 260, 160, nodes[0].data.labelText)] + CanvasFrom(nodes[1..], i0 + 1)
  }

  /** No two canvas nodes overlap: they stand in list order from left to right. */
  lemma CanvasLeftToRight(nodes: seq<FlowNode>, i: nat, j: nat)
    requires i < j < |nodes|
    ensures Canvas(nodes)[i].x + 260 <= Canvas(nodes)[j].x
  {
  }

  /** `wf.nodes.find(n => n.id === selected) || null` */
  function Selected(nodes: seq<FlowNode>, selected: Option<string>): (r: Option<FlowNode>)
    ensures r.None? <==> selected.None? || forall k | 0 <= k < |nodes| :: nodes[k].id != selected.value
    ensures r.Some? ==> exists k | 0 <= k < |nodes| ::
      (r.value == nodes[k] && r.value.id == selected.value && forall j | 0 <= j < k :: nodes[j].id != selected.value)
    decreases |nodes|
  {
    if selected.None? || nodes == [] then None
    else if nodes[0].id == selected.value then Some(nodes[0])
    else
      var r := Selected(nodes[1..], selected);
      assert forall k | 0 <= k < |nodes| - 1 :: nodes[1..][k] == nodes[k + 1];
      r
  }

  // ---------------------------------------------------------------------------
  // The component's state

  class Session {
    var wf: Workflow
    var logs: map<string, seq<string>>
    var status: map<string, string>

    constructor()
      ensures wf == Initial && logs == map[] && status == map[]
    {
      wf := Initial;
      logs := map[];
      status := map[];
    }

    method OnArgsChange(nodeId: string, params: map<string, ArgValue>)
      modifies this
      ensures wf == WithParams(old(wf), nodeId, params)
      ensures logs == old(logs) && status == old(status)
    {
      wf := WithParams(wf, nodeId, params);
    }

    method OnLog(node: string, line: string)
      modifies this
      ensures logs == AppendLog(old(logs), node, line)
      ensures wf == old(wf) && status == old(status)
    {
      logs := AppendLog(logs, node, line);
    }

    method OnNodeStatus(node: string, st: string)
      modifies this
      ensures status == old(status)[node := st]
      ensures wf == old(wf) && logs == old(logs)
    {
      status := status[node := st];
    }

    /** The callback given to `connectRun`. */
    method OnMessage(m: Message)
      modifies this
      ensures RunView(logs, status) == Handle(RunView(old(logs), old(status)), m)
      ensures wf == old(wf)
    {
      match m
      case LogLine(node, line) => OnLog(node, line);
      case NodeStatus(node, st) => OnNodeStatus(node, st);
      case Other(_) =>
    }
  }
}
