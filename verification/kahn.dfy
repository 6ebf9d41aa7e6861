/** Kahn's algorithm, the loop shared by the candidate and the normalized graph. */
module Kahn {
  import opened Prelude
  import opened Graphs

  datatype OrderError = HasCycle

  /** Edges into `v` whose source has not been emitted yet. */
  ghost function Pending(edges: seq<Edge>, v: NodeId, emitted: set<NodeId>): nat {
    if edges == [] then 0
    else
      var e := edges[|edges| - 1];
      Pending(edges[..|edges| - 1], v, emitted)
      + (if e.toNode == v && e.fromNode !in emitted then 1 else 0)
  }

  /** Parallel edges from `u` to `v`. */
  ghost function CountArc(edges: seq<Edge>, u: NodeId, v: NodeId): nat {
    if edges == [] then 0
    else
      var e := edges[|edges| - 1];
      CountArc(edges[..|edges| - 1], u, v) + (if e.toNode == v && e.fromNode == u then 1 else 0)
  }

  lemma PendingStep(edges: seq<Edge>, j: nat, v: NodeId, emitted: set<NodeId>)
    requires j < |edges|
    ensures Pending(edges[..j + 1], v, emitted)
         == Pending(edges[..j], v, emitted)
            + (if edges[j].toNode == v && edges[j].fromNode !in emitted then 1 else 0)
  {
    assert edges[..j + 1][..j] == edges[..j];
  }

  lemma CountArcStep(edges: seq<Edge>, j: nat, u: NodeId, v: NodeId)
    requires j < |edges|
    ensures CountArc(edges[..j + 1], u, v)
         == CountArc(edges[..j], u, v) + (if edges[j].toNode == v && edges[j].fromNode == u then 1 else 0)
  {
    assert edges[..j + 1][..j] == edges[..j];
  }

  lemma {:induction false} CountArcPrefix(edges: seq<Edge>, j: nat, u: NodeId, v: NodeId)
    requires j <= |edges|
    ensures CountArc(edges[..j], u, v) <= CountArc(edges, u, v)
    decreases |edges| - j
  {
    if j < |edges| {
      CountArcStep(edges, j, u, v);
      CountArcPrefix(edges, j + 1, u, v);
    } else {
      assert edges[..j] == edges;
    }
  }

  /** Emitting `u` removes exactly the parallel edges `u -> v` from the count of `v`. */
  lemma {:induction false} PendingEmit(edges: seq<Edge>, u: NodeId, v: NodeId, emitted: set<NodeId>)
    requires u !in emitted
    ensures Pending(edges, v, emitted + {u}) == Pending(edges, v, emitted) - CountArc(edges, u, v)
  {
    if edges != [] {
      PendingEmit(edges[..|edges| - 1], u, v, emitted);
    }
  }

  /** A node has no pending edge iff all its predecessors have been emitted. */
  lemma {:induction false} PendingZero(edges: seq<Edge>, v: NodeId, emitted: set<NodeId>)
    ensures Pending(edges, v, emitted) == 0 <==> forall u :: (u, v) in ArcsOf(edges) ==> u in emitted
  {
    if edges != [] {
      var init, e := edges[..|edges| - 1], edges[|edges| - 1];
      PendingZero(init, v, emitted);
      assert edges == init + [e];
      assert ArcsOf(edges) == ArcsOf(init) + {(e.fromNode, e.toNode)};
    }
  }

  /** When the queue runs dry before every node is emitted, what is left contains a cycle. */
  lemma StuckMeansCycle(nodes: seq<NodeId>, edges: seq<Edge>, order: seq<NodeId>)
    requires EndpointsIn(edges, nodes)
    requires Elems(order) <= Elems(nodes) && |Elems(order)| < |Elems(nodes)|
    requires forall v :: v in nodes && v !in order ==> Pending(edges, v, Elems(order)) != 0
    ensures !Acyclic(ArcsOf(edges))
  {
    var rest := Elems(nodes) - Elems(order);
    assert Elems(nodes) == Elems(order) + rest;
    forall v | v in rest
      ensures HasPredecessorIn(ArcsOf(edges), rest, v)
    {
      assert v in nodes && v !in order;
      PendingZero(edges, v, Elems(order));
      var u :| (u, v) in ArcsOf(edges) && u !in Elems(order);
      assert u in rest;
    }
    NoSourceMeansCycle(ArcsOf(edges), rest);
  }

  /** `indeg` of the source, once an arc list and the emitted nodes are fixed. */
  ghost predicate Counts(nodes: seq<NodeId>, edges: seq<Edge>, emitted: set<NodeId>, indeg: map<NodeId, int>) {
    && indeg.Keys == Elems(nodes)
    && forall v :: v in indeg ==> indeg[v] == Pending(edges, v, emitted)
  }

  /** The nodes whose count is zero are the ones emitted or queued. */
  ghost predicate ReadyAre(indeg: map<NodeId, int>, ready: seq<NodeId>) {
    && Distinct(ready)
    && forall v :: v in ready <==> v in indeg && indeg[v] == 0
  }

  /** First two loops: in-degrees of all nodes. */
  method InDegrees(nodes: seq<NodeId>, edges: seq<Edge>) returns (indeg: map<NodeId, int>)
    requires EndpointsIn(edges, nodes)
    ensures Counts(nodes, edges, {}, indeg)
  {
    indeg := map n | n in nodes :: 0;
    for j := 0 to |edges|
      invariant indeg.Keys == Elems(nodes)
      invariant forall v :: v in indeg ==> indeg[v] == Pending(edges[..j], v, {})
    {
      forall v { PendingStep(edges, j, v, {}); }
      var t := edges[j].toNode;
      assert edges[j] in edges;
      indeg := indeg[t := indeg[t] + 1];
    }
    assert edges[..|edges|] == edges;
  }

  lemma ReadyAfterDecrement(indeg: map<NodeId, int>, ready: seq<NodeId>, t: NodeId)
    requires ReadyAre(indeg, ready) && t in indeg && indeg[t] > 0
    ensures ReadyAre(indeg[t := indeg[t] - 1], if indeg[t] == 1 then ready + [t] else ready)
  {
    assert t !in ready;
  }

  /** Counts while `u` is being released: its first `j` edges are already accounted for. */
  ghost predicate MidCounts(nodes: seq<NodeId>, edges: seq<Edge>, emitted: set<NodeId>,
                            j: nat, u: NodeId, indeg: map<NodeId, int>)
    requires j <= |edges|
  {
    && indeg.Keys == Elems(nodes)
    && forall v :: v in indeg ==> indeg[v] == Pending(edges, v, emitted) - CountArc(edges[..j], u, v)
  }

  lemma MidCountsStep(nodes: seq<NodeId>, edges: seq<Edge>, emitted: set<NodeId>,
                      j: nat, u: NodeId, indeg: map<NodeId, int>)
    requires EndpointsIn(edges, nodes) && u !in emitted && j < |edges|
    requires MidCounts(nodes, edges, emitted, j, u, indeg)
    ensures edges[j].fromNode != u ==> MidCounts(nodes, edges, emitted, j + 1, u, indeg)
    ensures edges[j].fromNode == u ==>
      var t := edges[j].toNode;
      t in indeg && indeg[t] > 0
      && MidCounts(nodes, edges, emitted, j + 1, u, indeg[t := indeg[t] - 1])
  {
    forall v { CountArcStep(edges, j, u, v); }
    var t := edges[j].toNode;
    assert edges[j] in edges;
    CountArcPrefix(edges, j + 1, u, t);
    PendingEmit(edges, u, t, emitted);
  }

  lemma MidCountsStart(nodes: seq<NodeId>, edges: seq<Edge>, order: seq<NodeId>, u: NodeId, indeg: map<NodeId, int>)
    requires Counts(nodes, edges, Elems(order), indeg)
    ensures MidCounts(nodes, edges, Elems(order), 0, u, indeg)
  {
  }

  lemma MidCountsDone(nodes: seq<NodeId>, edges: seq<Edge>, order: seq<NodeId>, u: NodeId, indeg: map<NodeId, int>)
    requires u !in order && MidCounts(nodes, edges, Elems(order), |edges|, u, indeg)
    ensures Counts(nodes, edges, Elems(order + [u]), indeg)
  {
    assert edges[..|edges|] == edges;
    assert Elems(order + [u]) == Elems(order) + {u};
    forall v | v in indeg { PendingEmit(edges, u, v, Elems(order)); }
  }

  /** One turn of the inner loop: a successor loses one edge and joins the queue at zero. */
  lemma ReleaseStep(nodes: seq<NodeId>, edges: seq<Edge>, order: seq<NodeId>, u: NodeId, j: nat,
                    q: seq<NodeId>, indeg: map<NodeId, int>)
    requires EndpointsIn(edges, nodes) && u !in order && j < |edges|
    requires MidCounts(nodes, edges, Elems(order), j, u, indeg) && ReadyAre(indeg, order + [u] + q)
    ensures edges[j].fromNode != u ==> MidCounts(nodes, edges, Elems(order), j + 1, u, indeg)
    ensures edges[j].fromNode == u ==>
      var t := edges[j].toNode;
      && t in indeg
      && MidCounts(nodes, edges, Elems(order), j + 1, u, indeg[t := indeg[t] - 1])
      && ReadyAre(indeg[t := indeg[t] - 1], order + [u] + if indeg[t] == 1 then q + [t] else q)
  {
    MidCountsStep(nodes, edges, Elems(order), j, u, indeg);
    if edges[j].fromNode == u {
      var t, ready := edges[j].toNode, order + [u] + q;
      ReadyAfterDecrement(indeg, ready, t);
      assert order + [u] + (q + [t]) == ready + [t];
    }
  }

  /** The inner loop: emit `u`, decrement its successors, append those that become ready. */
  method Release(nodes: seq<NodeId>, edges: seq<Edge>, order: seq<NodeId>, u: NodeId,
                 queue: seq<NodeId>, degrees: map<NodeId, int>)
    returns (q: seq<NodeId>, indeg: map<NodeId, int>)
    requires EndpointsIn(edges, nodes) && u !in order
    requires Counts(nodes, edges, Elems(order), degrees)
    requires ReadyAre(degrees, order + [u] + queue)
    ensures Counts(nodes, edges, Elems(order + [u]), indeg)
    ensures ReadyAre(indeg, order + [u] + q)
  {
    q, indeg := queue, degrees;
    MidCountsStart(nodes, edges, order, u, indeg);
    for j := 0 to |edges|
      invariant MidCounts(nodes, edges, Elems(order), j, u, indeg)
      invariant ReadyAre(indeg, order + [u] + q)
    {
      ReleaseStep(nodes, edges, order, u, j, q, indeg);
      if edges[j].fromNode == u {
        var t := edges[j].toNode;
        indeg := indeg[t := indeg[t] - 1];
        if indeg[t] == 0 {
          q := q + [t];
        }
      }
    }
    MidCountsDone(nodes, edges, order, u, indeg);
  }

  /** The nodes that start in the queue, in node order. */
  method InitialQueue(nodes: seq<NodeId>, indeg: map<NodeId, int>) returns (q: seq<NodeId>)
    requires Distinct(nodes) && indeg.Keys == Elems(nodes)
    ensures ReadyAre(indeg, q)
  {
    q := [];
    for k := 0 to |nodes|
      invariant Distinct(q)
      invariant forall v :: v in q <==> v in nodes[..k] && indeg[v] == 0
    {
      assert nodes[..k + 1] == nodes[..k] + [nodes[k]];
      assert nodes[k] !in nodes[..k];
      if indeg[nodes[k]] == 0 {
        q := q + [nodes[k]];
      }
    }
    assert nodes[..|nodes|] == nodes;
  }

  /** The head of the queue has not been emitted, and all its predecessors have. */
  lemma HeadIsReady(nodes: seq<NodeId>, edges: seq<Edge>, order: seq<NodeId>,
                    q: seq<NodeId>, indeg: map<NodeId, int>)
    requires q != [] && PredecessorsFirst(ArcsOf(edges), order)
    requires Counts(nodes, edges, Elems(order), indeg) && ReadyAre(indeg, order + q)
    ensures order + q == order + [q[0]] + q[1..]
    ensures q[0] !in order && PredecessorsFirst(ArcsOf(edges), order + [q[0]])
  {
    var u := q[0];
    assert (order + q)[|order|] == u;
    assert forall i :: 0 <= i < |order| ==> (order + q)[i] == order[i];
    assert u in indeg && indeg[u] == 0;
    PendingZero(edges, u, Elems(order));
    ExtendOrder(ArcsOf(edges), order, u);
  }

  lemma ExtendOrder(arcs: Arcs, order: seq<NodeId>, u: NodeId)
    requires PredecessorsFirst(arcs, order)
    requires forall w :: (w, u) in arcs ==> w in order
    ensures PredecessorsFirst(arcs, order + [u])
  {
    var next := order + [u];
    forall i, w | 0 <= i < |next| && (w, next[i]) in arcs
      ensures w in next[..i]
    {
      if i < |order| {
        assert next[..i] == order[..i];
      } else {
        assert next[..i] == order;
      }
    }
  }

  lemma ReadyWithin(nodes: seq<NodeId>, order: seq<NodeId>, q: seq<NodeId>, indeg: map<NodeId, int>)
    requires Distinct(nodes) && indeg.Keys == Elems(nodes) && ReadyAre(indeg, order + q)
    ensures Distinct(order) && Elems(order) <= Elems(nodes)
    ensures |order| + |q| <= |nodes|
  {
    assert forall i :: 0 <= i < |order| ==> (order + q)[i] == order[i];
    DistinctCount(nodes);
    DistinctCount(order + q);
    SubsetSize(Elems(order + q), Elems(nodes));
  }

  /** What the length test after the loop decides. */
  lemma DryQueueDecides(nodes: seq<NodeId>, edges: seq<Edge>, order: seq<NodeId>, indeg: map<NodeId, int>)
    requires Distinct(nodes) && EndpointsIn(edges, nodes)
    requires Counts(nodes, edges, Elems(order), indeg) && ReadyAre(indeg, order)
    requires PredecessorsFirst(ArcsOf(edges), order)
    ensures |order| == |nodes| <==> Acyclic(ArcsOf(edges))
    ensures |order| == |nodes| ==> IsTopological(nodes, ArcsOf(edges), order)
  {
    assert order + [] == order;
    ReadyWithin(nodes, order, [], indeg);
    DistinctCount(nodes);
    DistinctCount(order);
    if |order| != |nodes| {
      StuckMeansCycle(nodes, edges, order);
    } else {
      DistinctCovers(order, Elems(nodes));
      TopologicalIsAcyclic(nodes, ArcsOf(edges), order);
    }
  }

  /** Returns a topological order of the nodes, or fails: it fails exactly when the
      graph has a directed cycle. Duplicate edges and self-loops are allowed. */
  method TopologicalOrder(nodes: seq<NodeId>, edges: seq<Edge>) returns (r: Result<seq<NodeId>, OrderError>)
    requires Distinct(nodes) && EndpointsIn(edges, nodes)
    ensures r.Ok? <==> Acyclic(ArcsOf(edges))
    ensures r.Ok? ==> IsTopological(nodes, ArcsOf(edges), r.value)
  {
    var indeg := InDegrees(nodes, edges);
    var q := InitialQueue(nodes, indeg);
    var order: seq<NodeId> := [];
    assert order + q == q && Elems(order) == {};
    while q != []
      invariant Counts(nodes, edges, Elems(order), indeg)
      invariant ReadyAre(indeg, order + q)
      invariant PredecessorsFirst(ArcsOf(edges), order)
      decreases |nodes| - |order|
    {
      HeadIsReady(nodes, edges, order, q, indeg);
      ReadyWithin(nodes, order, q, indeg);
      var u := q[0];
      q, indeg := Release(nodes, edges, order, u, q[1..], indeg);
      order := order + [u];
    }
    assert order + q == order;
    DryQueueDecides(nodes, edges, order, indeg);
    if |order| != |nodes| {
      return Err(HasCycle);
    }
    return Ok(order);
  }
}
