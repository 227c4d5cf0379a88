/**
 * The graph part of `WorkflowEngine.run_workflow`
 * (backend/src/utils/workflow_engine.py): adjacency lists and in-degrees
 * counted once per edge, Kahn's algorithm with a FIFO queue, the abort when
 * the order is short, and the execution loop that pipes each node's upstream
 * output into its `input_file` input. The database becomes a map from tool
 * slug to tool definition; the subprocess is left out, since nothing it
 * returns is read.
 */
module WorkflowEngine {
  import opened Wrappers
  import opened Values
  import opened Text
  import opened Graph
  import opened Tools
  import CommandBuilder

  /** A node of `structure_json["nodes"]`: its id, `data.tool_id` and `data.inputs`. */
  datatype EngineNode = EngineNode(id: string, toolId: string, inputs: map<string, Value>)

  /** Why a run stops before any node executes. */
  datatype Abort =
    | Failed(error: Failure)      // an exception, logged as "Workflow failed: ..."
    | CycleDetected               // "Cycle detected in workflow! execution aborted."

  function NodeIds(nodes: seq<EngineNode>): (r: seq<string>)
    ensures |r| == |nodes|
    ensures forall k | 0 <= k < |nodes| :: r[k] == nodes[k].id
  {
    if nodes == [] then [] else [nodes[0].id] + NodeIds(nodes[1..])
  }

  /** The keys of `{n["id"]: ... for n in nodes}` in insertion order: each id at its first position. */
  function Dedup(ids: seq<string>): (r: seq<string>)
    ensures Distinct(r) && Elems(r) == Elems(ids)
    decreases |ids|
  {
    if ids == [] then []
    else
      var n := |ids| - 1;
      var d := Dedup(ids[..n]);
      assert ids == ids[..n] + [ids[n]];
      ElemsAppend(ids[..n], ids[n]);
      ElemsAppend(d, ids[n]);
      if ids[n] in d then d else d + [ids[n]]
  }

  lemma {:induction false} DedupDistinct(ids: seq<string>)
    requires Distinct(ids)
    ensures Dedup(ids) == ids
    decreases |ids|
  {
    if ids != [] {
      var n := |ids| - 1;
      assert Distinct(ids[..n]);
      DedupDistinct(ids[..n]);
      assert ids[n] !in ids[..n];
      assert ids == ids[..n] + [ids[n]];
    }
  }

  // ---------------------------------------------------------------------------
  // Adjacency lists and in-degrees (lines 27-34)

  predicate Dangling(e: Edge, ns: set<string>) {
    e.source !in ns || e.target !in ns
  }

  predicate NoDangling(edges: seq<Edge>, ns: set<string>) {
    forall i | 0 <= i < |edges| :: !Dangling(edges[i], ns)
  }

  /** The key the adjacency build fails on: the source is looked up first. */
  function MissingEnd(e: Edge, ns: set<string>): string {
    if e.source !in ns then e.source else e.target
  }

  /** `adj[u]` after the loop: the targets of `u`'s edges in edge order, repeats kept. */
  function Targets(edges: seq<Edge>, u: string): (r: seq<string>)
    ensures forall x :: x in r <==> HasEdge(edges, u, x)
    decreases |edges|
  {
    if edges == [] then []
    else
      var n := |edges| - 1;
      assert edges == edges[..n] + [edges[n]];
      Targets(edges[..n], u) + (if edges[n].source == u then [edges[n].target] else [])
  }

  /** The number of edges into `v` whose source is not in `done`, repeats counted. */
  function InCount(edges: seq<Edge>, v: string, done: set<string>): nat
    decreases |edges|
  {
    if edges == [] then 0
    else
      var n := |edges| - 1;
      InCount(edges[..n], v, done) + (if edges[n].target == v && edges[n].source !in done then 1 else 0)
  }

  /** How often `v` occurs in `xs`. */
  function Occ(xs: seq<string>, v: string): nat {
    if xs == [] then 0 else (if xs[0] == v then 1 else 0) + Occ(xs[1..], v)
  }

  lemma {:induction false} OccAppend(xs: seq<string>, x: string, v: string)
    ensures Occ(xs + [x], v) == Occ(xs, v) + (if x == v then 1 else 0)
    decreases |xs|
  {
    if xs != [] {
      assert (xs + [x])[1..] == xs[1..] + [x];
      OccAppend(xs[1..], x, v);
    }
  }

  /** Scheduling `u` takes its edges out of the counts: one per occurrence in `adj[u]`. */
  lemma {:induction false} InCountRelease(edges: seq<Edge>, v: string, done: set<string>, u: string)
    requires u !in done
    ensures InCount(edges, v, done) == InCount(edges, v, done + {u}) + Occ(Targets(edges, u), v)
    decreases |edges|
  {
    if edges != [] {
      var n := |edges| - 1;
      InCountRelease(edges[..n], v, done, u);
      if edges[n].source == u {
        OccAppend(Targets(edges[..n], u), edges[n].target, v);
      } else {
        assert Targets(edges, u) == Targets(edges[..n], u);
      }
    }
  }

  /** No edge into `v` is counted exactly when every edge into `v` comes from `done`. */
  lemma {:induction false} InCountZero(edges: seq<Edge>, v: string, done: set<string>)
    ensures InCount(edges, v, done) == 0 <==>
      forall i | 0 <= i < |edges| && edges[i].target == v :: edges[i].source in done
    decreases |edges|
  {
    if edges != [] {
      var n := |edges| - 1;
      InCountZero(edges[..n], v, done);
      assert forall i | 0 <= i < n :: edges[..n][i] == edges[i];
    }
  }

  /** A counted edge into `v` names a source outside `done`. */
  lemma CountedEdge(edges: seq<Edge>, v: string, done: set<string>) returns (i: nat)
    requires InCount(edges, v, done) > 0
    ensures i < |edges| && edges[i].target == v && edges[i].source !in done
  {
    InCountZero(edges, v, done);
    i :| 0 <= i < |edges| && edges[i].target == v && edges[i].source !in done;
  }

  /** Each node's list holds the targets of its edges among `es`. */
  predicate AdjOf(es: seq<Edge>, adj: map<string, seq<string>>) {
    forall u | u in adj :: adj[u] == Targets(es, u)
  }

  /** Each node's count is the number of edges into it among `es`. */
  predicate DegOf(es: seq<Edge>, indeg: map<string, int>) {
    forall v | v in indeg :: indeg[v] == InCount(es, v, {})
  }

  datatype Deps = Deps(adj: map<string, seq<string>>, indeg: map<string, int>)

  /**
   * The loop at lines 31-34. An edge with an endpoint that is not a node raises
   * `KeyError` (the source is looked up first); otherwise every edge is counted.
   */
  method BuildDeps(ids: seq<string>, edges: seq<Edge>) returns (r: Result<Deps, Failure>)
    ensures r.Ok? <==> NoDangling(edges, Elems(ids))
    ensures r.Ok? ==> r.value.adj.Keys == Elems(ids) && r.value.indeg.Keys == Elems(ids)
    ensures r.Ok? ==> forall u | u in r.value.adj :: r.value.adj[u] == Targets(edges, u)
    ensures r.Ok? ==> forall v | v in r.value.indeg :: r.value.indeg[v] == InCount(edges, v, {})
    ensures r.Err? ==> exists i | 0 <= i < |edges| ::
      NoDangling(edges[..i], Elems(ids)) && Dangling(edges[i], Elems(ids)) &&
      r.error == KeyError(MissingEnd(edges[i], Elems(ids)))
  {
    var ns := Elems(ids);
    var adj: map<string, seq<string>> := map v | v in ns :: [];
    var indeg: map<string, int> := map v | v in ns :: 0;
    for i := 0 to |edges|
      invariant adj.Keys == ns && indeg.Keys == ns && NoDangling(edges[..i], ns)
      invariant AdjOf(edges[..i], adj) && DegOf(edges[..i], indeg)
    {
      var step := AddEdge(edges[i], edges, i, ns, adj, indeg);
      if step.Err? {
        r := Err(step.error);
        FirstDangling(edges, i, ns);
        assert NoDangling(edges[..i], ns) && Dangling(edges[i], ns) && r.error == KeyError(MissingEnd(edges[i], ns));
        return;
      }
      adj, indeg := step.value.adj, step.value.indeg;
    }
    assert edges[..|edges|] == edges;
    r := Ok(Deps(adj, indeg));
  }

  /** One pass of the loop at lines 31-34: `adj[source].append(target)`, then `in_degree[target] += 1`. */
  method AddEdge(e: Edge, ghost edges: seq<Edge>, ghost i: nat, ghost ns: set<string>,
                 adj0: map<string, seq<string>>, indeg0: map<string, int>)
    returns (r: Result<Deps, Failure>)
    requires i < |edges| && edges[i] == e
    requires adj0.Keys == ns && indeg0.Keys == ns && NoDangling(edges[..i], ns)
    requires AdjOf(edges[..i], adj0) && DegOf(edges[..i], indeg0)
    ensures r.Err? <==> Dangling(e, ns)
    ensures r.Err? ==> r.error == KeyError(MissingEnd(e, ns))
    ensures r.Ok? ==> r.value.adj.Keys == ns && r.value.indeg.Keys == ns && NoDangling(edges[..i + 1], ns)
    ensures r.Ok? ==> AdjOf(edges[..i + 1], r.value.adj) && DegOf(edges[..i + 1], r.value.indeg)
  {
    if e.source !in adj0 {
      return Err(KeyError(e.source));
    }
    var adj := adj0[e.source := adj0[e.source] + [e.target]];
    if e.target !in indeg0 {
      return Err(KeyError(e.target));
    }
    DepsStep(edges, i, ns, adj0, indeg0);
    r := Ok(Deps(adj, indeg0[e.target := indeg0[e.target] + 1]));
  }

  lemma FirstDangling(edges: seq<Edge>, i: nat, ns: set<string>)
    requires i < |edges| && Dangling(edges[i], ns)
    ensures !NoDangling(edges, ns)
  {
  }

  /** One edge of the loop, both of its endpoints being nodes. */
  lemma DepsStep(edges: seq<Edge>, i: nat, ns: set<string>, adj: map<string, seq<string>>, indeg: map<string, int>)
    requires i < |edges| && !Dangling(edges[i], ns)
    requires adj.Keys == ns && indeg.Keys == ns && NoDangling(edges[..i], ns)
    requires AdjOf(edges[..i], adj) && DegOf(edges[..i], indeg)
    ensures var e := edges[i];
      var adj', indeg' := adj[e.source := adj[e.source] + [e.target]], indeg[e.target := indeg[e.target] + 1];
      NoDangling(edges[..i + 1], ns) &&
      AdjOf(edges[..i + 1], adj') && DegOf(edges[..i + 1], indeg')
  {
    assert edges[..i + 1][..i] == edges[..i];
    assert forall k | 0 <= k < i :: edges[..i + 1][k] == edges[..i][k];
  }

  // ---------------------------------------------------------------------------
  // Kahn's algorithm with a FIFO queue (lines 37-46)

  /** Every edge into a scheduled node comes from a node scheduled before it. */
  predicate SourcesFirst(edges: seq<Edge>, order: seq<string>) {
    forall k, i | 0 <= k < |order| && 0 <= i < |edges| && edges[i].target == order[k] ::
      edges[i].source in Elems(order[..k])
  }

  /** Each count is the number of edges from unscheduled nodes, plus those in `pending` not yet taken off. */
  predicate Tally(edges: seq<Edge>, ns: set<string>, indeg: map<string, int>, done: set<string>, pending: seq<string>)
    requires indeg.Keys == ns
  {
    forall v | v in ns :: indeg[v] == InCount(edges, v, done) + Occ(pending, v)
  }

  /**
   * The state inside the loop over `adj[u]`, `u` being the last of `order`:
   * `pending` is what is left of `adj[u]`.
   */
  predicate ReleaseInv(edges: seq<Edge>, ns: set<string>, indeg: map<string, int>,
                       order: seq<string>, q: seq<string>, pending: seq<string>)
    requires indeg.Keys == ns && Elems(q) <= ns
  {
    && Elems(order) <= ns && Elems(pending) <= ns
    && Separate(order, q)
    && ZeroQueue(indeg, q)
    && Waiting(ns, indeg, order, q)
    && SourcesFirst(edges, order)
    && Tally(edges, ns, indeg, Elems(order), pending)
    && (forall v | v in pending :: v !in order)
  }

  /** The state between iterations of the outer loop. */
  predicate KahnInv(edges: seq<Edge>, ns: set<string>, indeg: map<string, int>, order: seq<string>, q: seq<string>)
    requires indeg.Keys == ns && Elems(q) <= ns
  {
    ReleaseInv(edges, ns, indeg, order, q, [])
  }

  /** The queue and the order after `queue.pop(0)` and `execution_order.append(u)`. */
  lemma PopFront(ns: set<string>, indeg: map<string, int>, order: seq<string>, q: seq<string>)
    requires indeg.Keys == ns && Elems(q) <= ns && q != []
    requires Separate(order, q) && ZeroQueue(indeg, q) && Waiting(ns, indeg, order, q)
    ensures var u, q' := q[0], q[1..];
      Elems(q') <= ns && u !in order && indeg[u] == 0 &&
      Separate(order + [u], q') && ZeroQueue(indeg, q') && Waiting(ns, indeg, order + [u], q')
  {
    var u := q[0];
    var q' := q[1..];
    var order' := order + [u];
    assert q == [u] + q';
    assert Elems(q') <= Elems(q);
    assert u !in q' by {
      forall k | 0 <= k < |q'| ensures q'[k] != u {
        assert q'[k] == q[k + 1];
      }
    }
    assert Distinct(order');
    forall x | x in order' ensures x !in q' {
      if x in order {
        assert x !in q;
      }
    }
    forall k | 0 <= k < |q'| ensures indeg[q'[k]] == 0 {
      assert q'[k] == q[k + 1];
    }
    forall v | v in ns && v !in order' && v !in q' ensures indeg[v] > 0 {
      assert v !in q;
    }
  }

  lemma PopTally(edges: seq<Edge>, ns: set<string>, indeg: map<string, int>, done: set<string>, u: string)
    requires indeg.Keys == ns && u !in done && Tally(edges, ns, indeg, done, [])
    ensures Tally(edges, ns, indeg, done + {u}, Targets(edges, u))
  {
    forall v | v in ns ensures indeg[v] == InCount(edges, v, done + {u}) + Occ(Targets(edges, u), v) {
      InCountRelease(edges, v, done, u);
    }
  }

  /** A node whose count is zero has all its sources scheduled. */
  lemma PopSourcesFirst(edges: seq<Edge>, order: seq<string>, u: string)
    requires SourcesFirst(edges, order) && InCount(edges, u, Elems(order)) == 0
    ensures SourcesFirst(edges, order + [u])
  {
    var order' := order + [u];
    InCountZero(edges, u, Elems(order));
    assert order'[..|order|] == order;
    forall k, i | 0 <= k < |order'| && 0 <= i < |edges| && edges[i].target == order'[k]
      ensures edges[i].source in Elems(order'[..k])
    {
      if k < |order| {
        assert order'[..k] == order[..k];
        assert order'[k] == order[k];
      }
    }
  }

  /** No target of the node just scheduled is scheduled. */
  lemma PopFresh(edges: seq<Edge>, order: seq<string>, u: string)
    requires u !in order && SourcesFirst(edges, order + [u])
    ensures forall v | v in Targets(edges, u) :: v !in order + [u]
  {
    var order' := order + [u];
    forall v | v in Targets(edges, u) ensures v !in order' {
      var i :| 0 <= i < |edges| && edges[i] == Edge(u, v);
      forall k | 0 <= k < |order'| ensures order'[k] != v {
        if k < |order| {
          assert u !in Elems(order'[..k]) by {
            assert order'[..k] == order[..k];
          }
        } else {
          assert order'[..k] == order;
        }
      }
    }
  }

  /** Popping the head of the queue establishes the loop over its targets. */
  lemma PopStep(edges: seq<Edge>, ns: set<string>, indeg: map<string, int>, order: seq<string>, q: seq<string>)
    requires indeg.Keys == ns && Elems(q) <= ns && q != [] && NoDangling(edges, ns)
    requires KahnInv(edges, ns, indeg, order, q)
    ensures var u := q[0];
      Elems(q[1..]) <= ns && ReleaseInv(edges, ns, indeg, order + [u], q[1..], Targets(edges, u))
  {
    var u := q[0];
    PopFront(ns, indeg, order, q);
    ElemsAppend(order, u);
    PopTally(edges, ns, indeg, Elems(order), u);
    assert Occ([], u) == 0;
    PopSourcesFirst(edges, order, u);
    PopFresh(edges, order, u);
  }

  /** The queue after `in_degree[v] -= 1` and, at zero, `queue.append(v)`. */
  lemma ReleaseQueue(ns: set<string>, indeg: map<string, int>, order: seq<string>, q: seq<string>, v: string)
    requires indeg.Keys == ns && Elems(q) <= ns && v in ns && v !in order && indeg[v] >= 1
    requires Separate(order, q) && ZeroQueue(indeg, q) && Waiting(ns, indeg, order, q)
    ensures var d := indeg[v := indeg[v] - 1];
      var q' := if d[v] == 0 then q + [v] else q;
      Elems(q') <= ns && Separate(order, q') && ZeroQueue(d, q') && Waiting(ns, d, order, q')
  {
    var d := indeg[v := indeg[v] - 1];
    forall k | 0 <= k < |q| ensures q[k] != v {
      assert indeg[q[k]] == 0;
    }
    assert v !in q;
    forall k | 0 <= k < |q| ensures d[q[k]] == 0 {
      assert indeg[q[k]] == 0;
    }
    if d[v] == 0 {
      var q' := q + [v];
      ElemsAppend(q, v);
      assert Distinct(q');
      forall k | 0 <= k < |q'| ensures d[q'[k]] == 0 {
        if k < |q| {
          assert q'[k] == q[k];
        }
      }
    }
  }

  lemma ReleaseTally(edges: seq<Edge>, ns: set<string>, indeg: map<string, int>, done: set<string>, pending: seq<string>)
    requires indeg.Keys == ns && pending != [] && pending[0] in ns && Tally(edges, ns, indeg, done, pending)
    ensures indeg[pending[0]] >= 1
    ensures Tally(edges, ns, indeg[pending[0] := indeg[pending[0]] - 1], done, pending[1..])
  {
  }

  /** Taking the first pending target off the counts. */
  lemma ReleaseStep(edges: seq<Edge>, ns: set<string>, indeg: map<string, int>,
                    order: seq<string>, q: seq<string>, pending: seq<string>)
    requires indeg.Keys == ns && Elems(q) <= ns && pending != []
    requires ReleaseInv(edges, ns, indeg, order, q, pending)
    ensures var v := pending[0];
      var d := indeg[v := indeg[v] - 1];
      var q' := if d[v] == 0 then q + [v] else q;
      v in ns && Elems(q') <= ns && ReleaseInv(edges, ns, d, order, q', pending[1..])
  {
    var v := pending[0];
    assert v in Elems(pending);
    ReleaseTally(edges, ns, indeg, Elems(order), pending);
    ReleaseQueue(ns, indeg, order, q, v);
    assert Elems(pending[1..]) <= Elems(pending);
  }

  /** The inner loop at lines 43-46: `q0` only grows at its end. */
  method Release(ts: seq<string>, indeg0: map<string, int>, q0: seq<string>,
                 ghost edges: seq<Edge>, ghost ns: set<string>, ghost order: seq<string>)
    returns (indeg: map<string, int>, q: seq<string>)
    requires indeg0.Keys == ns && Elems(q0) <= ns
    requires ReleaseInv(edges, ns, indeg0, order, q0, ts)
    ensures indeg.Keys == ns && Elems(q) <= ns
    ensures KahnInv(edges, ns, indeg, order, q)
    ensures q0 <= q
    ensures 2 * |Pos(indeg)| + |q| <= 2 * |Pos(indeg0)| + |q0|
  {
    indeg, q := indeg0, q0;
    for k := 0 to |ts|
      invariant indeg.Keys == ns && Elems(q) <= ns
      invariant ReleaseInv(edges, ns, indeg, order, q, ts[k..])
      invariant q0 <= q
      invariant 2 * |Pos(indeg)| + |q| <= 2 * |Pos(indeg0)| + |q0|
    {
      assert ts[k..][0] == ts[k] && ts[k..][1..] == ts[k + 1..];
      indeg, q := ReleaseOne(ts[k], indeg, q, edges, ns, order, ts[k..]);
    }
    assert ts[|ts|..] == [];
  }

  /** One pass of the inner loop: `in_degree[v] -= 1`, and `v` is queued once it reaches zero. */
  method ReleaseOne(v: string, indeg0: map<string, int>, q0: seq<string>,
                    ghost edges: seq<Edge>, ghost ns: set<string>, ghost order: seq<string>,
                    ghost pending: seq<string>)
    returns (indeg: map<string, int>, q: seq<string>)
    requires indeg0.Keys == ns && Elems(q0) <= ns && pending != [] && pending[0] == v
    requires ReleaseInv(edges, ns, indeg0, order, q0, pending)
    ensures indeg.Keys == ns && Elems(q) <= ns
    ensures ReleaseInv(edges, ns, indeg, order, q, pending[1..])
    ensures q0 <= q
    ensures 2 * |Pos(indeg)| + |q| <= 2 * |Pos(indeg0)| + |q0|
  {
    ReleaseStep(edges, ns, indeg0, order, q0, pending);
    PosDecrement(indeg0, v);
    indeg := indeg0[v := indeg0[v] - 1];
    q := q0;
    if indeg[v] == 0 {
      ElemsAppend(q, v);
      q := q + [v];
    }
  }

  /** No edge ends at `v`. */
  predicate NoIncoming(edges: seq<Edge>, v: string) {
    forall i | 0 <= i < |edges| :: edges[i].target != v
  }

  /** The nodes without incoming edges, in the order of `keys`. */
  function Roots(keys: seq<string>, edges: seq<Edge>): (r: seq<string>)
    ensures forall x :: x in r <==> x in keys && NoIncoming(edges, x)
  {
    if keys == [] then []
    else (if NoIncoming(edges, keys[0]) then [keys[0]] else []) + Roots(keys[1..], edges)
  }

  /** Line 37 starts the queue with the roots, in the dictionary's key order. */
  lemma {:induction false} ZeroInRoots(keys: seq<string>, edges: seq<Edge>, indeg: map<string, int>)
    requires forall v | v in keys :: v in indeg && indeg[v] == InCount(edges, v, {})
    ensures Elems(keys) <= indeg.Keys && ZeroIn(keys, indeg) == Roots(keys, edges)
    decreases |keys|
  {
    if keys != [] {
      ZeroInRoots(keys[1..], edges, indeg);
      InCountZero(edges, keys[0], {});
    }
  }

  /** The state before the first iteration. */
  lemma InitInv(edges: seq<Edge>, ns: set<string>, indeg: map<string, int>, keys: seq<string>)
    requires indeg.Keys == ns && Elems(keys) == ns && Distinct(keys)
    requires forall v | v in indeg :: indeg[v] == InCount(edges, v, {})
    ensures Elems(ZeroIn(keys, indeg)) <= ns && KahnInv(edges, ns, indeg, [], ZeroIn(keys, indeg))
  {
    var q := ZeroIn(keys, indeg);
    var none: seq<string> := [];
    assert Elems(none) == {};
    forall v | v in ns ensures indeg[v] == InCount(edges, v, {}) + Occ([], v) {
    }
    forall v | v in ns && v !in q ensures indeg[v] > 0 {
      assert v in keys;
    }
  }

  lemma PrefixStep(q0: seq<string>, a: seq<string>, b: seq<string>, c: seq<string>)
    requires q0 <= a + b && b <= c
    ensures q0 <= a + c
  {
    assert (a + c)[..|a + b|] == a + b;
  }

  /** An unscheduled node whose count is positive waits for an unscheduled node. */
  lemma EngineWaits(edges: seq<Edge>, ids: seq<string>, indeg: map<string, int>, order: seq<string>, w: string)
    requires NoDangling(edges, Elems(ids)) && indeg.Keys == Elems(ids)
    requires Tally(edges, Elems(ids), indeg, Elems(order), []) && Waiting(Elems(ids), indeg, order, [])
    requires w in ids && w !in order
    ensures Waits(ids, edges, Elems(order), w)
  {
    assert w in Elems(ids);
    assert indeg[w] > 0;
    assert Occ([], w) == 0;
    var i := CountedEdge(edges, w, Elems(order));
    assert !Dangling(edges[i], Elems(ids));
    assert edges[i] == Edge(edges[i].source, w);
  }

  /** A short order on distinct ids means the edges hold a cycle. */
  lemma EngineCycle(edges: seq<Edge>, ids: seq<string>, indeg: map<string, int>, order: seq<string>)
    requires NoDangling(edges, Elems(ids)) && indeg.Keys == Elems(ids) && |order| != |ids|
    requires Elems(order) <= Elems(ids) && Distinct(order)
    requires Tally(edges, Elems(ids), indeg, Elems(order), []) && Waiting(Elems(ids), indeg, order, [])
    ensures Distinct(ids) ==> forall o :: !IsTopoOrder(o, ids, edges)
  {
    if Distinct(ids) {
      var v := Unscheduled(ids, order);
      forall w | w in ids && w !in Elems(order) ensures Waits(ids, edges, Elems(order), w) {
        EngineWaits(edges, ids, indeg, order, w);
      }
      forall o ensures !IsTopoOrder(o, ids, edges) {
        Stuck(ids, edges, Elems(order), o);
      }
    }
  }

  /** A full-length order lists every id once, sources first, and the ids were distinct. */
  lemma EngineOrder(edges: seq<Edge>, ids: seq<string>, order: seq<string>)
    requires Elems(order) <= Elems(ids) && |order| == |ids| && Distinct(order) && SourcesFirst(edges, order)
    ensures Distinct(ids) && IsTopoOrder(order, ids, edges)
  {
    DistinctCard(order);
    ElemsCard(ids);
    SubsetEqualCard(Elems(order), Elems(ids));
    forall i, j | 0 <= i < |order| && 0 <= j < |order| && HasEdge(edges, order[i], order[j]) ensures i < j {
      var e :| 0 <= e < |edges| && edges[e] == Edge(order[i], order[j]);
      assert edges[e].target == order[j];
      assert order[i] in Elems(order[..j]);
      var i' :| 0 <= i' < j && order[..j][i'] == order[i];
      assert order[i'] == order[i];
    }
  }

  /** One iteration of the loop at lines 40-46. */
  method Visit(adj: map<string, seq<string>>, indeg0: map<string, int>, q0: seq<string>, order0: seq<string>,
               ghost edges: seq<Edge>, ghost ns: set<string>, ghost roots: seq<string>)
    returns (indeg: map<string, int>, q: seq<string>, order: seq<string>)
    requires indeg0.Keys == ns && Elems(q0) <= ns && q0 != [] && NoDangling(edges, ns)
    requires adj.Keys == ns && AdjOf(edges, adj)
    requires KahnInv(edges, ns, indeg0, order0, q0) && roots <= order0 + q0
    ensures indeg.Keys == ns && Elems(q) <= ns
    ensures KahnInv(edges, ns, indeg, order, q) && roots <= order + q
    ensures 2 * |Pos(indeg)| + |q| < 2 * |Pos(indeg0)| + |q0|
  {
    var u := q0[0];
    assert u in Elems(q0);
    assert adj[u] == Targets(edges, u);
    PopStep(edges, ns, indeg0, order0, q0);
    assert order0 + q0 == (order0 + [u]) + q0[1..];
    order := order0 + [u];
    indeg, q := Release(adj[u], indeg0, q0[1..], edges, ns, order);
    PrefixStep(roots, order, q0[1..], q);
  }

  /**
   * Lines 27-50: the execution order, or why the run stops before any node
   * executes. A short order aborts even without a cycle when two nodes share
   * an id, since the dictionaries keep one entry per id.
   */
  method Schedule(ids: seq<string>, edges: seq<Edge>) returns (r: Result<seq<string>, Abort>)
    ensures r.Err? && r.error.Failed? <==> !NoDangling(edges, Elems(ids))
    ensures r.Err? && r.error.Failed? ==> exists i | 0 <= i < |edges| ::
      NoDangling(edges[..i], Elems(ids)) && Dangling(edges[i], Elems(ids)) &&
      r.error.error == KeyError(MissingEnd(edges[i], Elems(ids)))
    ensures r == Err(CycleDetected) ==> Distinct(ids) ==> forall o :: !IsTopoOrder(o, ids, edges)
    ensures r.Ok? ==> Distinct(ids) && IsTopoOrder(r.value, ids, edges)
    ensures r.Ok? ==> Roots(Dedup(ids), edges) <= r.value
  {
    var deps := BuildDeps(ids, edges);
    if deps.Err? {
      r := Err(Failed(deps.error));
      return;
    }
    var adj, indeg := deps.value.adj, deps.value.indeg;
    ghost var ns := Elems(ids);
    var keys := Dedup(ids);
    ZeroInRoots(keys, edges, indeg);
    var q := ZeroIn(keys, indeg);
    InitInv(edges, ns, indeg, keys);
    ghost var q0 := q;
    var order: seq<string> := [];
    while q != []
      invariant indeg.Keys == ns && Elems(q) <= ns
      invariant KahnInv(edges, ns, indeg, order, q)
      invariant q0 <= order + q
      decreases 2 * |Pos(indeg)| + |q|
    {
      indeg, q, order := Visit(adj, indeg, q, order, edges, ns, q0);
    }
    assert order + q == order;
    if |order| != |ids| {
      r := Err(CycleDetected);
      EngineCycle(edges, ids, indeg, order);
    } else {
      r := Ok(order);
      EngineOrder(edges, ids, order);
      DedupDistinct(ids);
    }
  }

  // ---------------------------------------------------------------------------
  // Running the nodes in order (lines 54-92)

  /** `{n["id"]: n for n in nodes}`: the last node with each id. */
  function NodeMap(nodes: seq<EngineNode>): (m: map<string, EngineNode>)
    ensures m.Keys == Elems(NodeIds(nodes))
    ensures forall id | id in m :: m[id].id == id
    decreases |nodes|
  {
    if nodes == [] then map[]
    else
      var n := |nodes| - 1;
      assert NodeIds(nodes) == NodeIds(nodes[..n]) + [nodes[n].id];
      ElemsAppend(NodeIds(nodes[..n]), nodes[n].id);
      NodeMap(nodes[..n])[nodes[n].id := nodes[n]]
  }

  /** With distinct ids, each id maps to its own node. */
  lemma {:induction false} NodeMapDistinct(nodes: seq<EngineNode>, k: nat)
    requires Distinct(NodeIds(nodes)) && k < |nodes|
    ensures NodeMap(nodes)[nodes[k].id] == nodes[k]
    decreases |nodes|
  {
    var n := |nodes| - 1;
    var front := nodes[..n];
    assert NodeMap(nodes) == NodeMap(front)[nodes[n].id := nodes[n]];
    if k < n {
      var ids := NodeIds(nodes);
      assert ids[k] == nodes[k].id && ids[n] == nodes[n].id && ids[k] != ids[n];
      assert Distinct(NodeIds(front)) by {
        forall i, j | 0 <= i < j < n ensures NodeIds(front)[i] != NodeIds(front)[j] {
          assert NodeIds(front)[i] == ids[i] && NodeIds(front)[j] == ids[j];
        }
      }
      NodeMapDistinct(front, k);
      assert front[k] == nodes[k];
    }
  }

  /** The tool definition for a node's slug, if the catalog has it (lines 58-62). */
  function ToolOf(tools: map<string, ToolDef>, node: EngineNode): Option<ToolDef> {
    if node.toolId in tools then Some(tools[node.toolId]) else None
  }

  /** Running `id` records an output: its tool is known and declares an output path. */
  predicate Records(nm: map<string, EngineNode>, tools: map<string, ToolDef>, id: string)
    requires id in nm
  {
    ToolOf(tools, nm[id]).Some? && ToolOf(tools, nm[id]).value.outPath.Some?
  }

  /** `context_outputs` after running the ids of `ran` in order. */
  function Outputs(ran: seq<string>, nm: map<string, EngineNode>, tools: map<string, ToolDef>): map<string, string>
    requires Elems(ran) <= nm.Keys
    decreases |ran|
  {
    if ran == [] then map[]
    else
      var n := |ran| - 1;
      assert Elems(ran[..n]) <= Elems(ran);
      var o := Outputs(ran[..n], nm, tools);
      if Records(nm, tools, ran[n]) then o[ran[n] := ToolOf(tools, nm[ran[n]]).value.outPath.value] else o
  }

  /** Exactly the nodes run so far that record an output have one, the path their tool declares. */
  lemma {:induction false} OutputsExactly(ran: seq<string>, nm: map<string, EngineNode>, tools: map<string, ToolDef>)
    requires Elems(ran) <= nm.Keys
    ensures forall id :: id in Outputs(ran, nm, tools) <==> id in ran && Records(nm, tools, id)
    ensures forall id | id in ran && Records(nm, tools, id) ::
      id in Outputs(ran, nm, tools) && Outputs(ran, nm, tools)[id] == ToolOf(tools, nm[id]).value.outPath.value
    decreases |ran|
  {
    if ran != [] {
      var n := |ran| - 1;
      assert Elems(ran[..n]) <= Elems(ran);
      OutputsExactly(ran[..n], nm, tools);
      assert ran == ran[..n] + [ran[n]];
    }
  }

  /**
   * Lines 68-73: the output of the source of the last edge into `id`, in edge
   * order, whose source has recorded one.
   */
  function Upstream(edges: seq<Edge>, id: string, outputs: map<string, string>): Option<string>
    decreases |edges|
  {
    if edges == [] then None
    else
      var e := edges[|edges| - 1];
      if e.target == id && e.source in outputs then Some(outputs[e.source])
      else Upstream(edges[..|edges| - 1], id, outputs)
  }

  /** An upstream output comes from the last edge into `id` whose source recorded one. */
  lemma {:induction false} UpstreamLast(edges: seq<Edge>, id: string, outputs: map<string, string>)
    ensures Upstream(edges, id, outputs).Some? <==>
      exists i | 0 <= i < |edges| :: edges[i].target == id && edges[i].source in outputs
    ensures Upstream(edges, id, outputs).Some? ==> exists i | 0 <= i < |edges| ::
      edges[i].target == id && edges[i].source in outputs &&
      Upstream(edges, id, outputs).value == outputs[edges[i].source] &&
      forall j | i < j < |edges| :: !(edges[j].target == id && edges[j].source in outputs)
    decreases |edges|
  {
    if edges != [] {
      var n := |edges| - 1;
      UpstreamLast(edges[..n], id, outputs);
      assert forall i | 0 <= i < n :: edges[..n][i] == edges[i];
    }
  }

  /** Two output maps that agree on the sources of the edges into `id` pipe the same file. */
  lemma {:induction false} UpstreamAgree(edges: seq<Edge>, id: string, o1: map<string, string>, o2: map<string, string>)
    requires forall i | 0 <= i < |edges| && edges[i].target == id ::
      (edges[i].source in o1 <==> edges[i].source in o2) &&
      (edges[i].source in o1 ==> o1[edges[i].source] == o2[edges[i].source])
    ensures Upstream(edges, id, o1) == Upstream(edges, id, o2)
    decreases |edges|
  {
    if edges != [] {
      var n := |edges| - 1;
      assert forall i | 0 <= i < n :: edges[..n][i] == edges[i];
      UpstreamAgree(edges[..n], id, o1, o2);
    }
  }

  /** A node's inputs with the upstream file, if any, as `input_file`. */
  function Piped(base: map<string, Value>, up: Option<string>): map<string, Value> {
    match up
    case None => base
    case Some(path) => base["input_file" := VStr(path)]
  }

  /** `[e for e in edges if e["target"] == node_id]` */
  function Incoming(edges: seq<Edge>, id: string): (r: seq<Edge>)
    ensures forall e | e in r :: e.target == id
    decreases |edges|
  {
    if edges == [] then []
    else
      var n := |edges| - 1;
      Incoming(edges[..n], id) + (if edges[n].target == id then [edges[n]] else [])
  }

  lemma {:induction false} UpstreamIncoming(edges: seq<Edge>, id: string, outputs: map<string, string>)
    ensures Upstream(Incoming(edges, id), id, outputs) == Upstream(edges, id, outputs)
    decreases |edges|
  {
    if edges != [] {
      var n := |edges| - 1;
      var inc := Incoming(edges, id);
      UpstreamIncoming(edges[..n], id, outputs);
      if edges[n].target == id {
        assert inc[..|inc| - 1] == Incoming(edges[..n], id);
      } else {
        assert inc == Incoming(edges[..n], id);
      }
    }
  }

  /**
   * Lines 65-73: a copy of the node's inputs, with `input_file` set from each
   * incoming edge whose source has an output; the last one wins. Every other
   * input is the node's own, and the node itself is a value, so it is unchanged.
   */
  method ResolveInputs(node: EngineNode, edges: seq<Edge>, outputs: map<string, string>)
    returns (inputs: map<string, Value>)
    ensures inputs == Piped(node.inputs, Upstream(edges, node.id, outputs))
    ensures forall k | k != "input_file" :: (k in inputs <==> k in node.inputs)
    ensures forall k | k != "input_file" && k in inputs :: inputs[k] == node.inputs[k]
    ensures Upstream(edges, node.id, outputs).None? ==> inputs == node.inputs
    ensures Upstream(edges, node.id, outputs).Some? ==>
      "input_file" in inputs && inputs["input_file"] == VStr(Upstream(edges, node.id, outputs).value)
  {
    inputs := node.inputs;
    var incoming := Incoming(edges, node.id);
    for i := 0 to |incoming|
      invariant inputs == Piped(node.inputs, Upstream(incoming[..i], node.id, outputs))
    {
      var edge := incoming[i];
      assert incoming[..i + 1][..i] == incoming[..i];
      assert edge.target == node.id;
      if edge.source in outputs {
        inputs := inputs["input_file" := VStr(outputs[edge.source])];
      }
    }
    assert incoming[..|incoming|] == incoming;
    UpstreamIncoming(edges, node.id, outputs);
    PipedKeeps(node.inputs, Upstream(edges, node.id, outputs));
  }

  /** Piping touches `input_file` alone. */
  lemma PipedKeeps(base: map<string, Value>, up: Option<string>)
    ensures forall k | k != "input_file" :: (k in Piped(base, up) <==> k in base)
    ensures forall k | k != "input_file" && k in base :: Piped(base, up)[k] == base[k]
    ensures up.None? ==> Piped(base, up) == base
    ensures up.Some? ==> "input_file" in Piped(base, up) && Piped(base, up)["input_file"] == VStr(up.value)
  {
  }

  /** What `CommandBuilder.build_command` returns for the tool and inputs. */
  function CommandOf(tool: ToolDef, inputs: map<string, Value>): string {
    Join(CommandBuilder.Pieces(tool.cmd, CommandBuilder.ActiveParams(tool.args, inputs)), " ")
  }

  /** One executed node: its id and the shell command it ran. */
  datatype Run = Run(node: string, command: string)

  /** The commands run for the ids of `ran`, in order. */
  function Runs(ran: seq<string>, nm: map<string, EngineNode>, tools: map<string, ToolDef>, edges: seq<Edge>): seq<Run>
    requires Elems(ran) <= nm.Keys
    decreases |ran|
  {
    if ran == [] then []
    else
      var n := |ran| - 1;
      assert Elems(ran[..n]) <= Elems(ran);
      var node := nm[ran[n]];
      Runs(ran[..n], nm, tools, edges) +
        match ToolOf(tools, node)
        case None => []
        case Some(tool) =>
          [Run(ran[n], CommandOf(tool, Piped(node.inputs, Upstream(edges, ran[n], Outputs(ran[..n], nm, tools)))))]
  }

  /** The ids of `ran` whose tool slug is known. */
  function Known(ran: seq<string>, nm: map<string, EngineNode>, tools: map<string, ToolDef>): (r: seq<string>)
    requires Elems(ran) <= nm.Keys
    ensures forall id :: id in r <==> id in ran && ToolOf(tools, nm[id]).Some?
    decreases |ran|
  {
    if ran == [] then []
    else
      var n := |ran| - 1;
      assert ran == ran[..n] + [ran[n]];
      assert Elems(ran[..n]) <= Elems(ran);
      Known(ran[..n], nm, tools) + (if ToolOf(tools, nm[ran[n]]).Some? then [ran[n]] else [])
  }

  function RunNodes(runs: seq<Run>): (r: seq<string>)
    ensures |r| == |runs| && forall k | 0 <= k < |runs| :: r[k] == runs[k].node
    decreases |runs|
  {
    if runs == [] then [] else RunNodes(runs[..|runs| - 1]) + [runs[|runs| - 1].node]
  }

  /** A node with an unknown tool slug is skipped; the others run once each, in order. */
  lemma {:induction false} RunsKnown(ran: seq<string>, nm: map<string, EngineNode>, tools: map<string, ToolDef>, edges: seq<Edge>)
    requires Elems(ran) <= nm.Keys
    ensures RunNodes(Runs(ran, nm, tools, edges)) == Known(ran, nm, tools)
    decreases |ran|
  {
    if ran != [] {
      var n := |ran| - 1;
      assert Elems(ran[..n]) <= Elems(ran);
      RunsKnown(ran[..n], nm, tools, edges);
      var rs := Runs(ran, nm, tools, edges);
      var front := Runs(ran[..n], nm, tools, edges);
      if ToolOf(tools, nm[ran[n]]).Some? {
        assert rs[..|rs| - 1] == front;
      } else {
        assert rs == front;
      }
    }
  }

  /**
   * In an order that respects the edges every source of an edge into an
   * `order[k]` has already run, so the file piped into it is the one it would
   * get from the outputs of the whole run.
   */
  lemma PipingIsStatic(order: seq<string>, ids: seq<string>, edges: seq<Edge>,
                       nm: map<string, EngineNode>, tools: map<string, ToolDef>, k: nat)
    requires IsTopoOrder(order, ids, edges) && NoDangling(edges, Elems(ids)) && Elems(ids) <= nm.Keys && k < |order|
    ensures Elems(order[..k]) <= nm.Keys
    ensures Upstream(edges, order[k], Outputs(order[..k], nm, tools)) ==
            Upstream(edges, order[k], Outputs(order, nm, tools))
  {
    assert Elems(order[..k]) <= Elems(order);
    OutputsExactly(order[..k], nm, tools);
    OutputsExactly(order, nm, tools);
    forall i | 0 <= i < |edges| && edges[i].target == order[k]
      ensures edges[i].source in order[..k]
    {
      var s := edges[i].source;
      assert !Dangling(edges[i], Elems(ids));
      assert s in Elems(order);
      var j :| 0 <= j < |order| && order[j] == s;
      assert HasEdge(edges, order[j], order[k]) by {
        assert edges[i] == Edge(order[j], order[k]);
      }
      assert order[..k][j] == s;
    }
    UpstreamAgree(edges, order[k], Outputs(order[..k], nm, tools), Outputs(order, nm, tools));
  }

  /** What the whole run reports: the order, the commands run and the outputs recorded. */
  datatype Report = Report(order: seq<string>, runs: seq<Run>, outputs: map<string, string>)

  /** The loop at lines 56-92. */
  method Execute(order: seq<string>, nodes: seq<EngineNode>, edges: seq<Edge>, tools: map<string, ToolDef>)
    returns (runs: seq<Run>, outputs: map<string, string>)
    requires Elems(order) <= Elems(NodeIds(nodes))
    ensures runs == Runs(order, NodeMap(nodes), tools, edges)
    ensures outputs == Outputs(order, NodeMap(nodes), tools)
  {
    var nm := NodeMap(nodes);
    runs, outputs := [], map[];
    for k := 0 to |order|
      invariant runs == Runs(order[..k], nm, tools, edges)
      invariant outputs == Outputs(order[..k], nm, tools)
    {
      assert order[..k + 1] == order[..k] + [order[k]];
      assert Elems(order[..k + 1]) <= Elems(order);
      assert order[k] in Elems(order);
      runs, outputs := RunNode(order[k], nm, edges, tools, order[..k], runs, outputs);
    }
    assert order[..|order|] == order;
  }

  /** One pass of the loop at lines 56-92: run `id` if its tool is known, and record its output. */
  method RunNode(id: string, nm: map<string, EngineNode>, edges: seq<Edge>, tools: map<string, ToolDef>,
                 ghost ran: seq<string>, runs0: seq<Run>, outputs0: map<string, string>)
    returns (runs: seq<Run>, outputs: map<string, string>)
    requires Elems(ran + [id]) <= nm.Keys && id in nm && nm[id].id == id
    requires runs0 == Runs(ran, nm, tools, edges) && outputs0 == Outputs(ran, nm, tools)
    ensures runs == Runs(ran + [id], nm, tools, edges)
    ensures outputs == Outputs(ran + [id], nm, tools)
  {
    RunsSnoc(ran, id, nm, tools, edges);
    runs, outputs := runs0, outputs0;
    var node := nm[id];
    if node.toolId in tools {
      var tool := tools[node.toolId];
      var inputs := ResolveInputs(node, edges, outputs);
      var command := CommandBuilder.BuildCommand(tool, inputs);
      assert command == CommandOf(tool, inputs);
      runs := runs + [Run(id, command)];
      if tool.outPath.Some? {
        outputs := outputs[id := tool.outPath.value];
      }
    }
  }

  /** `Runs` and `Outputs` after one more id. */
  lemma RunsSnoc(ran: seq<string>, id: string, nm: map<string, EngineNode>, tools: map<string, ToolDef>, edges: seq<Edge>)
    requires Elems(ran + [id]) <= nm.Keys
    ensures Elems(ran) <= nm.Keys && id in nm
    ensures Runs(ran + [id], nm, tools, edges) == Runs(ran, nm, tools, edges) +
      match ToolOf(tools, nm[id])
      case None => []
      case Some(tool) => [Run(id, CommandOf(tool, Piped(nm[id].inputs, Upstream(edges, id, Outputs(ran, nm, tools)))))]
    ensures Outputs(ran + [id], nm, tools) ==
      if Records(nm, tools, id) then Outputs(ran, nm, tools)[id := ToolOf(tools, nm[id]).value.outPath.value]
      else Outputs(ran, nm, tools)
  {
    var all := ran + [id];
    assert all[..|ran|] == ran && all[|ran|] == id;
    assert id in Elems(all);
    assert Elems(ran) <= Elems(all);
  }

  /**
   * `WorkflowEngine.run_workflow` for a workflow that exists: nothing runs
   * unless the schedule is complete; then the nodes run in that order.
   */
  method RunWorkflow(nodes: seq<EngineNode>, edges: seq<Edge>, tools: map<string, ToolDef>)
    returns (r: Result<Report, Abort>)
    ensures r.Err? && r.error.Failed? <==> !NoDangling(edges, Elems(NodeIds(nodes)))
    ensures r == Err(CycleDetected) ==>
      Distinct(NodeIds(nodes)) ==> forall o :: !IsTopoOrder(o, NodeIds(nodes), edges)
    ensures r.Ok? ==> Distinct(NodeIds(nodes)) && IsTopoOrder(r.value.order, NodeIds(nodes), edges)
    ensures r.Ok? ==> Roots(NodeIds(nodes), edges) <= r.value.order
    ensures r.Ok? ==> r.value.runs == Runs(r.value.order, NodeMap(nodes), tools, edges)
    ensures r.Ok? ==> r.value.outputs == Outputs(r.value.order, NodeMap(nodes), tools)
  {
    var ids := NodeIds(nodes);
    var s := Schedule(ids, edges);
    if s.Err? {
      r := Err(s.error);
      return;
    }
    var order := s.value;
    var runs, outputs := Execute(order, nodes, edges, tools);
    r := Ok(Report(order, runs, outputs));
    DedupDistinct(ids);
  }
}
