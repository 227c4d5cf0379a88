/**
 * Workflow graphs: node ids, directed edges between them, and what it means
 * for a list of ids to be an execution order that respects every edge.
 */
module Graph {

  datatype Edge = Edge(source: string, target: string)

  predicate Distinct<T(==)>(xs: seq<T>) {
    forall i, j | 0 <= i < j < |xs| :: xs[i] != xs[j]
  }

  function Elems<T(==)>(xs: seq<T>): set<T> {
    set x | x in xs
  }

  predicate HasEdge(edges: seq<Edge>, a: string, b: string) {
    Edge(a, b) in edges
  }

  /** Along every edge between two listed ids, the source is listed first. */
  predicate RespectsEdges(order: seq<string>, edges: seq<Edge>) {
    forall i, j | 0 <= i < |order| && 0 <= j < |order| && HasEdge(edges, order[i], order[j]) :: i < j
  }

  /** `order` lists each of `ids` exactly once, and nothing else, sources before targets. */
  predicate IsTopoOrder(order: seq<string>, ids: seq<string>, edges: seq<Edge>) {
    Distinct(order) && Elems(order) == Elems(ids) && RespectsEdges(order, edges)
  }

  /** In an order of the ids, each edge between two ids has its source listed before its target. */
  lemma EdgeInOrder(order: seq<string>, ids: seq<string>, edges: seq<Edge>, i: nat)
    requires IsTopoOrder(order, ids, edges) && i < |edges|
    requires edges[i].source in ids && edges[i].target in ids
    ensures exists a, b | 0 <= a < b < |order| :: order[a] == edges[i].source && order[b] == edges[i].target
  {
    assert edges[i].source in Elems(order) && edges[i].target in Elems(order);
    var a :| 0 <= a < |order| && order[a] == edges[i].source;
    var b :| 0 <= b < |order| && order[b] == edges[i].target;
    assert HasEdge(edges, order[a], order[b]) by {
      assert edges[i] == Edge(order[a], order[b]);
    }
  }

  // ---------------------------------------------------------------------------
  // Finite sets

  lemma {:induction false} DistinctCard<T>(xs: seq<T>)
    requires Distinct(xs)
    ensures |Elems(xs)| == |xs|
    decreases |xs|
  {
    if xs != [] {
      var n := |xs| - 1;
      assert Distinct(xs[..n]);
      DistinctCard(xs[..n]);
      assert Elems(xs) == Elems(xs[..n]) + {xs[n]};
      assert xs[n] !in Elems(xs[..n]);
    }
  }

  /** A list has at most as many distinct elements as entries, and fewer unless it is distinct. */
  lemma {:induction false} ElemsCard<T>(xs: seq<T>)
    ensures |Elems(xs)| <= |xs|
    ensures |Elems(xs)| == |xs| ==> Distinct(xs)
    decreases |xs|
  {
    if xs != [] {
      var n := |xs| - 1;
      ElemsCard(xs[..n]);
      assert Elems(xs) == Elems(xs[..n]) + {xs[n]};
      if xs[n] in Elems(xs[..n]) {
        assert Elems(xs) == Elems(xs[..n]);
      } else if |Elems(xs)| == |xs| {
        assert Distinct(xs[..n]);
        forall i, j | 0 <= i < j < |xs| ensures xs[i] != xs[j] {
          if j < n {
            assert xs[..n][i] == xs[i] && xs[..n][j] == xs[j];
          } else {
            assert xs[i] in Elems(xs[..n]);
          }
        }
      }
    }
  }

  lemma ElemsAppend<T>(xs: seq<T>, x: T)
    ensures Elems(xs + [x]) == Elems(xs) + {x}
  {
    assert forall y :: y in xs + [x] <==> y in xs || y == x;
  }

  lemma SubsetEqualCard<T>(a: set<T>, b: set<T>)
    requires a <= b && |a| >= |b|
    ensures a == b
  {
    assert b == a + (b - a);
    assert |b| == |a| + |b - a|;
  }

  /** Taking one more element `u` of `a` away shrinks `a - b` by one. */
  lemma CardRemoveOne<T>(a: set<T>, b: set<T>, u: T)
    requires u in a && u !in b
    ensures |a - (b + {u})| == |a - b| - 1
  {
    assert a - (b + {u}) == (a - b) - {u};
    assert a - b == ((a - b) - {u}) + {u};
  }

  lemma CardRemoveNone<T>(a: set<T>, b: set<T>, u: T)
    requires u !in a || u in b
    ensures a - (b + {u}) == a - b
  {
  }

  // ---------------------------------------------------------------------------
  // No order exists once every remaining node waits for another remaining node

  /** The first position of `order` whose id is outside `done`. */
  lemma FirstOutside(order: seq<string>, done: set<string>, v: string) returns (i: nat)
    requires v in order && v !in done
    ensures i < |order| && order[i] !in done
    ensures forall k | 0 <= k < i :: order[k] in done
  {
    var m :| 0 <= m < |order| && order[m] == v;
    i := m;
    var k := 0;
    while k < m
      invariant k <= m
      invariant forall k' | 0 <= k' < k :: order[k'] in done
    {
      if order[k] !in done {
        i := k;
        return;
      }
      k := k + 1;
    }
  }

  /** `v` has an incoming edge from an id that is not done. */
  predicate Waits(ids: seq<string>, edges: seq<Edge>, done: set<string>, v: string) {
    exists u :: u in ids && u !in done && HasEdge(edges, u, v)
  }

  /**
   * If some id is not done and every id that is not done waits for another id
   * that is not done, the edges hold a cycle: no order of the ids respects them.
   */
  lemma Stuck(ids: seq<string>, edges: seq<Edge>, done: set<string>, order: seq<string>)
    requires exists v :: v in ids && v !in done
    requires forall v | v in ids && v !in done :: Waits(ids, edges, done, v)
    ensures !IsTopoOrder(order, ids, edges)
  {
    if Distinct(order) && Elems(order) == Elems(ids) {
      var v :| v in ids && v !in done;
      assert v in Elems(order);
      var i := FirstOutside(order, done, v);
      var w := order[i];
      assert w in Elems(ids);
      assert Waits(ids, edges, done, w);
      var u :| u in ids && u !in done && HasEdge(edges, u, w);
      assert u in Elems(order);
      var j :| 0 <= j < |order| && order[j] == u;
      assert HasEdge(edges, order[j], order[i]) && !(j < i);
    }
  }

  // ---------------------------------------------------------------------------
  // Kahn's algorithm: the queue, the in-degree counts and their measure

  /** The ids, in list order, whose in-degree is zero. */
  function ZeroIn(ids: seq<string>, indeg: map<string, int>): (r: seq<string>)
    requires Elems(ids) <= indeg.Keys
    ensures forall x :: x in r <==> x in ids && indeg[x] == 0
    ensures Distinct(ids) ==> Distinct(r)
  {
    if ids == [] then []
    else
      assert Elems(ids[1..]) <= Elems(ids);
      var rest := ZeroIn(ids[1..], indeg);
      assert Distinct(ids) ==> ids[0] !in rest;
      (if indeg[ids[0]] == 0 then [ids[0]] else []) + rest
  }

  /** The nodes whose remaining in-degree is positive. */
  function Pos(indeg: map<string, int>): set<string> {
    set v | v in indeg && indeg[v] > 0
  }

  lemma PosDecrement(indeg: map<string, int>, v: string)
    requires v in indeg
    ensures indeg[v] == 1 ==> |Pos(indeg[v := 0])| == |Pos(indeg)| - 1
    ensures indeg[v] != 1 ==> Pos(indeg[v := indeg[v] - 1]) == Pos(indeg)
  {
    if indeg[v] == 1 {
      assert Pos(indeg[v := 0]) == Pos(indeg) - {v};
      assert Pos(indeg) == Pos(indeg[v := 0]) + {v};
    } else {
      assert Pos(indeg[v := indeg[v] - 1]) == Pos(indeg);
    }
  }

  /** Each id is scheduled or queued at most once, never both. */
  predicate Separate(order: seq<string>, q: seq<string>) {
    Distinct(order) && Distinct(q) && forall x | x in order :: x !in q
  }

  /** Everything queued is ready. */
  predicate ZeroQueue(indeg: map<string, int>, q: seq<string>)
    requires Elems(q) <= indeg.Keys
  {
    forall k | 0 <= k < |q| :: indeg[q[k]] == 0
  }

  /** A node neither scheduled nor queued is still waiting. */
  predicate Waiting(ns: set<string>, indeg: map<string, int>, order: seq<string>, q: seq<string>)
    requires indeg.Keys == ns
  {
    forall v | v in ns && v !in order && v !in q :: indeg[v] > 0
  }

  /** A shorter list of distinct ids misses one of them. */
  lemma Unscheduled(ids: seq<string>, order: seq<string>) returns (v: string)
    requires Distinct(ids) && Distinct(order) && Elems(order) <= Elems(ids) && |order| != |ids|
    ensures v in ids && v !in order
  {
    DistinctCard(order);
    DistinctCard(ids);
    assert Elems(ids) == Elems(order) + (Elems(ids) - Elems(order));
    assert |Elems(ids) - Elems(order)| > 0;
    v :| v in Elems(ids) - Elems(order);
  }
}
