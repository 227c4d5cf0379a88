/**
 * `topo` of the single-file backend (backend/app.py, lines 50-67): Kahn's
 * algorithm over de-duplicated dependency sets with a LIFO stack. Edges with an
 * endpoint that is not a node are ignored; a second edge between the same two
 * nodes adds nothing. The successors of a node are visited in the unspecified
 * iteration order of a Python set, chosen here by `:|`.
 */
module AppTopo {
  import opened Wrappers
  import opened Graph
  import opened Tools

  datatype Node = Node(id: string, tool: string, params: map<string, ArgValue>)

  function Ids(nodes: seq<Node>): (r: seq<string>)
    ensures |r| == |nodes|
    ensures forall k | 0 <= k < |nodes| :: r[k] == nodes[k].id
  {
    if nodes == [] then [] else [nodes[0].id] + Ids(nodes[1..])
  }

  /** The targets of the edges from `s`, both endpoints being nodes. */
  function Succs(edges: seq<Edge>, ns: set<string>, s: string): set<string> {
    set t | t in ns && s in ns && HasEdge(edges, s, t)
  }

  /** The nodes with an edge into `v`, counted once each. */
  function InNeighbours(edges: seq<Edge>, ns: set<string>, v: string): set<string> {
    set u | u in ns && HasEdge(edges, u, v)
  }

  /** The predecessors of `v` in the dependency sets. */
  function Preds(g: map<string, set<string>>, v: string): set<string> {
    set u | u in g && v in g[u]
  }

  /** `g` is the dependency map of `edges` over the nodes `ns`. */
  predicate IsGraphOf(g: map<string, set<string>>, edges: seq<Edge>, ns: set<string>) {
    g.Keys == ns && forall s | s in g :: g[s] == Succs(edges, ns, s)
  }

  lemma PredsAreInNeighbours(g: map<string, set<string>>, edges: seq<Edge>, ns: set<string>, v: string)
    requires IsGraphOf(g, edges, ns) && v in ns
    ensures Preds(g, v) == InNeighbours(edges, ns, v)
  {
  }

  /** One edge of the loop at lines 53-57: added when both ends are nodes and it is new. */
  function AddEdge(g: map<string, set<string>>, e: Edge): map<string, set<string>> {
    if e.source in g && e.target in g && e.target !in g[e.source]
    then g[e.source := g[e.source] + {e.target}]
    else g
  }

  lemma AddEdgeGraph(g: map<string, set<string>>, edges: seq<Edge>, i: nat, ns: set<string>)
    requires i < |edges| && IsGraphOf(g, edges[..i], ns)
    ensures IsGraphOf(AddEdge(g, edges[i]), edges[..i + 1], ns)
  {
    assert edges[..i + 1] == edges[..i] + [edges[i]];
    var g' := AddEdge(g, edges[i]);
    forall s | s in g' ensures g'[s] == Succs(edges[..i + 1], ns, s) {
      assert forall t :: HasEdge(edges[..i + 1], s, t) <==> HasEdge(edges[..i], s, t) || edges[i] == Edge(s, t);
    }
  }

  lemma AddEdgePreds(g: map<string, set<string>>, e: Edge, v: string)
    ensures |Preds(AddEdge(g, e), v)| ==
      |Preds(g, v)| + (if e.source in g && e.target in g && e.target !in g[e.source] && v == e.target then 1 else 0)
  {
    var g' := AddEdge(g, e);
    if e.source in g && e.target in g && e.target !in g[e.source] && v == e.target {
      assert Preds(g', v) == Preds(g, v) + {e.source};
      assert e.source !in Preds(g, v);
    } else {
      assert Preds(g', v) == Preds(g, v);
    }
  }

  /** The loop at lines 51-57. */
  method BuildGraph(ids: seq<string>, edges: seq<Edge>) returns (g: map<string, set<string>>, indeg: map<string, int>)
    ensures IsGraphOf(g, edges, Elems(ids)) && indeg.Keys == Elems(ids)
    ensures forall v | v in indeg :: indeg[v] == |InNeighbours(edges, Elems(ids), v)|
  {
    var ns := Elems(ids);
    g := map s | s in ns :: {};
    indeg := map s | s in ns :: 0;
    forall v | v in ns ensures Preds(g, v) == {} {
    }
    for i := 0 to |edges|
      invariant IsGraphOf(g, edges[..i], ns) && indeg.Keys == ns
      invariant forall v | v in indeg :: indeg[v] == |Preds(g, v)|
    {
      var e := edges[i];
      AddEdgeGraph(g, edges, i, ns);
      forall v | v in indeg {
        AddEdgePreds(g, e, v);
      }
      if e.source in g && e.target in g && e.target !in g[e.source] {
        g := g[e.source := g[e.source] + {e.target}];
        indeg := indeg[e.target := indeg[e.target] + 1];
      }
    }
    assert edges[..|edges|] == edges;
    forall v | v in indeg ensures indeg[v] == |InNeighbours(edges, ns, v)| {
      PredsAreInNeighbours(g, edges, ns, v);
    }
  }

  // ---------------------------------------------------------------------------
  // Loop invariants (for distinct node ids)

  /** Every node in `order` has all its predecessors earlier in `order`. */
  predicate PredsFirst(g: map<string, set<string>>, order: seq<string>) {
    forall k | 0 <= k < |order| :: Preds(g, order[k]) <= Elems(order[..k])
  }

  /**
   * Each in-degree counts the predecessors not yet in `order`, plus the popped
   * node for the successors in `rem` it has not released yet.
   */
  predicate Counts(g: map<string, set<string>>, ns: set<string>, indeg: map<string, int>,
                   done: set<string>, rem: set<string>)
    requires indeg.Keys == ns
  {
    forall v | v in ns :: indeg[v] == |Preds(g, v) - done| + (if v in rem then 1 else 0)
  }

  predicate Fresh(rem: set<string>, order: seq<string>) {
    forall v | v in rem :: v !in order
  }

  /**
   * The state inside the release loop after `u`, the last of `order`, was
   * popped: the successors in `rem` still count `u`.
   */
  predicate ReleaseInv(g: map<string, set<string>>, ns: set<string>, indeg: map<string, int>,
                       order: seq<string>, q: seq<string>, rem: set<string>)
    requires indeg.Keys == ns && Elems(q) <= ns
  {
    && Separate(order, q)
    && Counts(g, ns, indeg, Elems(order), rem)
    && ZeroQueue(indeg, q)
    && Waiting(ns, indeg, order, q)
    && PredsFirst(g, order)
    && Fresh(rem, order)
  }

  /** The state between iterations of the outer loop. */
  predicate KahnInv(g: map<string, set<string>>, ns: set<string>, indeg: map<string, int>,
                    order: seq<string>, q: seq<string>)
    requires indeg.Keys == ns && Elems(q) <= ns
  {
    ReleaseInv(g, ns, indeg, order, q, {})
  }

  predicate Closed(g: map<string, set<string>>, ns: set<string>) {
    g.Keys == ns && forall s | s in g :: g[s] <= ns
  }

  lemma PopCounts(g: map<string, set<string>>, ns: set<string>, indeg: map<string, int>,
                  done: set<string>, u: string)
    requires indeg.Keys == ns && u in g && u !in done
    requires Counts(g, ns, indeg, done, {})
    ensures Counts(g, ns, indeg, done + {u}, g[u])
  {
    forall v | v in ns
      ensures indeg[v] == |Preds(g, v) - (done + {u})| + (if v in g[u] then 1 else 0)
    {
      if v in g[u] {
        assert u in Preds(g, v);
        CardRemoveOne(Preds(g, v), done, u);
      } else {
        CardRemoveNone(Preds(g, v), done, u);
      }
    }
  }

  lemma PopPredsFirst(g: map<string, set<string>>, order: seq<string>, u: string)
    requires PredsFirst(g, order) && Preds(g, u) <= Elems(order)
    ensures PredsFirst(g, order + [u])
  {
    var order' := order + [u];
    assert order'[..|order|] == order;
    forall k | 0 <= k < |order'| ensures Preds(g, order'[k]) <= Elems(order'[..k]) {
      if k < |order| {
        assert order'[..k] == order[..k];
      }
    }
  }

  /** No successor of the node just scheduled is scheduled already. */
  lemma PopFresh(g: map<string, set<string>>, order: seq<string>, u: string)
    requires u in g && u !in order && Distinct(order) && PredsFirst(g, order + [u])
    ensures Fresh(g[u], order + [u])
  {
    var order' := order + [u];
    forall v | v in g[u] ensures v !in order' {
      assert u in Preds(g, v);
      forall k | 0 <= k < |order'| ensures order'[k] != v {
        assert Preds(g, order'[k]) <= Elems(order'[..k]);
        if k < |order| {
          assert u !in Elems(order'[..k]) by {
            assert order'[..k] == order[..k];
          }
        } else {
          assert order'[..k] == order;
        }
      }
    }
  }

  /** The stack and the order after the pop. */
  lemma PopQueue(ns: set<string>, indeg: map<string, int>, order: seq<string>, q: seq<string>)
    requires indeg.Keys == ns && Elems(q) <= ns && q != []
    requires Separate(order, q) && ZeroQueue(indeg, q) && Waiting(ns, indeg, order, q)
    ensures var u, q' := q[|q| - 1], q[..|q| - 1];
      Elems(q') <= ns && u !in order && Distinct(order) && indeg[u] == 0 &&
      Separate(order + [u], q') && ZeroQueue(indeg, q') && Waiting(ns, indeg, order + [u], q')
  {
    var n := |q| - 1;
    var u := q[n];
    var q' := q[..n];
    var order' := order + [u];
    assert q == q' + [u];
    assert Elems(q') <= Elems(q);
    assert u !in q' by {
      forall k | 0 <= k < n ensures q'[k] != u {
        assert q'[k] == q[k];
      }
    }
    assert Distinct(order');
    forall x | x in order' ensures x !in q' {
      if x in order {
        assert x !in q;
      }
    }
    forall k | 0 <= k < |q'| ensures indeg[q'[k]] == 0 {
      assert q'[k] == q[k];
    }
    forall v | v in ns && v !in order' && v !in q' ensures indeg[v] > 0 {
      assert v !in q;
    }
  }

  /** Popping the last of the stack and appending it to `order`. */
  lemma PopStep(g: map<string, set<string>>, ns: set<string>, indeg: map<string, int>,
                order: seq<string>, q: seq<string>)
    requires Closed(g, ns) && indeg.Keys == ns && Elems(q) <= ns && q != []
    requires KahnInv(g, ns, indeg, order, q)
    ensures var u := q[|q| - 1];
      Elems(q[..|q| - 1]) <= ns &&
      ReleaseInv(g, ns, indeg, order + [u], q[..|q| - 1], g[u])
  {
    var u := q[|q| - 1];
    PopQueue(ns, indeg, order, q);
    ElemsAppend(order, u);
    PopCounts(g, ns, indeg, Elems(order), u);
    assert Preds(g, u) - Elems(order) == {};
    PopPredsFirst(g, order, u);
    PopFresh(g, order, u);
  }

  /** The stack after releasing `v`. */
  lemma ReleaseQueue(ns: set<string>, indeg: map<string, int>, order: seq<string>, q: seq<string>, v: string)
    requires indeg.Keys == ns && Elems(q) <= ns && v in ns && v !in order && indeg[v] >= 1
    requires Separate(order, q) && ZeroQueue(indeg, q) && Waiting(ns, indeg, order, q)
    ensures var d := indeg[v := indeg[v] - 1];
      var q' := if d[v] == 0 then q + [v] else q;
      Elems(q') <= ns && Separate(order, q') && ZeroQueue(d, q') && Waiting(ns, d, order, q')
  {
    var d := indeg[v := indeg[v] - 1];
    forall k | 0 <= k < |q| ensures q[k] != v {
      assert indeg[q[k]] == 0;
    }
    assert v !in q;
    forall k | 0 <= k < |q| ensures d[q[k]] == 0 {
      assert indeg[q[k]] == 0;
    }
    if d[v] == 0 {
      var q' := q + [v];
      ElemsAppend(q, v);
      assert Distinct(q');
      forall k | 0 <= k < |q'| ensures d[q'[k]] == 0 {
        if k < |q| {
          assert q'[k] == q[k];
        }
      }
    }
  }

  /** One successor `v` of the popped node is released. */
  lemma ReleaseStep(g: map<string, set<string>>, ns: set<string>, indeg: map<string, int>,
                    order: seq<string>, q: seq<string>, rem: set<string>, v: string)
    requires indeg.Keys == ns && Elems(q) <= ns && v in rem && rem <= ns
    requires ReleaseInv(g, ns, indeg, order, q, rem)
    ensures var d := indeg[v := indeg[v] - 1];
      var q' := if d[v] == 0 then q + [v] else q;
      Elems(q') <= ns && ReleaseInv(g, ns, d, order, q', rem - {v})
  {
    var d := indeg[v := indeg[v] - 1];
    assert indeg[v] >= 1;
    ReleaseQueue(ns, indeg, order, q, v);
    ReleaseCounts(g, ns, indeg, Elems(order), rem, v);
  }

  lemma ReleaseCounts(g: map<string, set<string>>, ns: set<string>, indeg: map<string, int>,
                      done: set<string>, rem: set<string>, v: string)
    requires indeg.Keys == ns && v in rem && rem <= ns && Counts(g, ns, indeg, done, rem)
    ensures Counts(g, ns, indeg[v := indeg[v] - 1], done, rem - {v})
  {
  }

  /** The inner loop at lines 63-65. */
  method Release(g: map<string, set<string>>, ghost ns: set<string>, u: string,
                 indeg0: map<string, int>, q0: seq<string>, ghost order: seq<string>, ghost dist: bool)
    returns (indeg: map<string, int>, q: seq<string>)
    requires Closed(g, ns) && u in g && indeg0.Keys == ns && Elems(q0) <= ns
    requires dist ==> ReleaseInv(g, ns, indeg0, order, q0, g[u])
    ensures indeg.Keys == ns && Elems(q) <= ns
    ensures 2 * |Pos(indeg)| + |q| <= 2 * |Pos(indeg0)| + |q0|
    ensures dist ==> KahnInv(g, ns, indeg, order, q)
  {
    indeg, q := indeg0, q0;
    var rem := g[u];
    while rem != {}
      invariant rem <= ns && indeg.Keys == ns && Elems(q) <= ns
      invariant 2 * |Pos(indeg)| + |q| <= 2 * |Pos(indeg0)| + |q0|
      invariant dist ==> ReleaseInv(g, ns, indeg, order, q, rem)
      decreases |rem|
    {
      var v :| v in rem;
      if dist {
        ReleaseStep(g, ns, indeg, order, q, rem, v);
      }
      PosDecrement(indeg, v);
      rem := rem - {v};
      indeg := indeg[v := indeg[v] - 1];
      if indeg[v] == 0 {
        ElemsAppend(q, v);
        q := q + [v];
      }
    }
  }

  /** Before the loop nothing is scheduled, and the ready ids are queued. */
  lemma TopoStart(g: map<string, set<string>>, ids: seq<string>, indeg: map<string, int>)
    requires Distinct(ids) && indeg.Keys == Elems(ids) && Counts(g, Elems(ids), indeg, {}, {})
    ensures KahnInv(g, Elems(ids), indeg, [], ZeroIn(ids, indeg))
  {
    var ns := Elems(ids);
    var none: seq<string> := [];
    var q := ZeroIn(ids, indeg);
    assert Elems(none) == {};
    assert Separate(none, q);
    assert ZeroQueue(indeg, q);
    forall v | v in ns && v !in none && v !in q ensures indeg[v] > 0 {
      assert indeg[v] == |Preds(g, v) - {}| + 0;
    }
  }

  lemma StartCounts(g: map<string, set<string>>, edges: seq<Edge>, ns: set<string>, indeg: map<string, int>)
    requires IsGraphOf(g, edges, ns) && indeg.Keys == ns
    requires forall v | v in indeg :: indeg[v] == |InNeighbours(edges, ns, v)|
    ensures Counts(g, ns, indeg, {}, {})
  {
    forall v | v in ns ensures indeg[v] == |Preds(g, v) - {}| + 0 {
      PredsAreInNeighbours(g, edges, ns, v);
      assert Preds(g, v) - {} == Preds(g, v);
    }
  }

  /** One iteration of the loop at lines 60-65: pop the last queued id, schedule it, release its successors. */
  method Visit(g: map<string, set<string>>, ghost ns: set<string>, indeg0: map<string, int>,
               q0: seq<string>, order0: seq<string>, ghost dist: bool)
    returns (indeg: map<string, int>, q: seq<string>, order: seq<string>)
    requires Closed(g, ns) && indeg0.Keys == ns && Elems(q0) <= ns && Elems(order0) <= ns && q0 != []
    requires dist ==> KahnInv(g, ns, indeg0, order0, q0)
    ensures order == order0 + [q0[|q0| - 1]]
    ensures indeg.Keys == ns && Elems(q) <= ns && Elems(order) <= ns
    ensures dist ==> KahnInv(g, ns, indeg, order, q)
    ensures 2 * |Pos(indeg)| + |q| < 2 * |Pos(indeg0)| + |q0|
  {
    var u := q0[|q0| - 1];
    if dist {
      PopStep(g, ns, indeg0, order0, q0);
    }
    assert Elems(q0[..|q0| - 1]) <= Elems(q0);
    ElemsAppend(order0, u);
    order := order0 + [u];
    indeg, q := Release(g, ns, u, indeg0, q0[..|q0| - 1], order, dist);
  }

  /** `topo(nodes, edges)`. */
  method Topo(nodes: seq<Node>, edges: seq<Edge>) returns (r: Result<seq<string>, Failure>)
    ensures r.Ok? ==> |r.value| == |nodes|
    ensures r.Err? ==> r.error == HttpError(400, "Cycle in workflow")
    ensures Distinct(Ids(nodes)) && r.Ok? ==> IsTopoOrder(r.value, Ids(nodes), edges)
    ensures Distinct(Ids(nodes)) && r.Err? ==> forall order :: !IsTopoOrder(order, Ids(nodes), edges)
  {
    var ids := Ids(nodes);
    ghost var ns := Elems(ids);
    ghost var dist := Distinct(ids);
    var g, indeg := BuildGraph(ids, edges);
    var q := ZeroIn(ids, indeg);
    var order: seq<string> := [];
    assert Elems(q) <= ns;
    assert Closed(g, ns);
    if dist {
      StartCounts(g, edges, ns, indeg);
      TopoStart(g, ids, indeg);
    }
    while q != []
      invariant indeg.Keys == ns && Elems(q) <= ns && Elems(order) <= ns
      invariant dist ==> KahnInv(g, ns, indeg, order, q)
      decreases 2 * |Pos(indeg)| + |q|
    {
      indeg, q, order := Visit(g, ns, indeg, q, order, dist);
    }
    if |order| != |nodes| {
      r := Err(HttpError(400, "Cycle in workflow"));
      if dist {
        CycleWhenShort(g, edges, ns, indeg, ids, order);
      }
    } else {
      r := Ok(order);
      if dist {
        OrderWhenComplete(g, edges, ns, indeg, ids, order);
      }
    }
  }

  lemma CycleWhenShort(g: map<string, set<string>>, edges: seq<Edge>, ns: set<string>, indeg: map<string, int>,
                       ids: seq<string>, order: seq<string>)
    requires ns == Elems(ids) && Distinct(ids) && IsGraphOf(g, edges, ns)
    requires indeg.Keys == ns && Elems(order) <= ns && |order| != |ids|
    requires Distinct(order) && Counts(g, ns, indeg, Elems(order), {}) && Waiting(ns, indeg, order, [])
    ensures forall o :: !IsTopoOrder(o, ids, edges)
  {
    var v := Unscheduled(ids, order);
    forall w | w in ids && w !in Elems(order) ensures Waits(ids, edges, Elems(order), w) {
      WaitsWhenCounted(g, edges, ns, indeg, ids, order, w);
    }
    forall o ensures !IsTopoOrder(o, ids, edges) {
      Stuck(ids, edges, Elems(order), o);
    }
  }

  /** An unscheduled node with a positive count has an unscheduled predecessor. */
  lemma WaitsWhenCounted(g: map<string, set<string>>, edges: seq<Edge>, ns: set<string>, indeg: map<string, int>,
                         ids: seq<string>, order: seq<string>, w: string)
    requires ns == Elems(ids) && IsGraphOf(g, edges, ns) && indeg.Keys == ns
    requires Counts(g, ns, indeg, Elems(order), {}) && Waiting(ns, indeg, order, [])
    requires w in ids && w !in order
    ensures Waits(ids, edges, Elems(order), w)
  {
    assert w in ns;
    assert indeg[w] > 0;
    assert |Preds(g, w) - Elems(order)| > 0;
    var u :| u in Preds(g, w) - Elems(order);
    assert u in ids && HasEdge(edges, u, w);
  }

  lemma OrderWhenComplete(g: map<string, set<string>>, edges: seq<Edge>, ns: set<string>, indeg: map<string, int>,
                          ids: seq<string>, order: seq<string>)
    requires ns == Elems(ids) && Distinct(ids) && IsGraphOf(g, edges, ns)
    requires indeg.Keys == ns && Elems(order) <= ns && |order| == |ids|
    requires Distinct(order) && PredsFirst(g, order)
    ensures IsTopoOrder(order, ids, edges)
  {
    DistinctCard(order);
    DistinctCard(ids);
    SubsetEqualCard(Elems(order), ns);
    forall i, j | 0 <= i < |order| && 0 <= j < |order| && HasEdge(edges, order[i], order[j]) ensures i < j {
      assert order[j] in g[order[i]];
      assert order[i] in Preds(g, order[j]);
      assert order[i] in Elems(order[..j]);
      var i' :| 0 <= i' < j && order[..j][i'] == order[i];
      assert order[i'] == order[i];
    }
  }
}
