/** Directed graphs as the compiler sees them: node ids and a list of edges.
    Paths, reachability and acyclicity are stated on the set of arcs, so they do
    not depend on edge order, on duplicate edges or on edge conditions. */
module Graphs {
  import opened Prelude

  type NodeId = string
  type Arcs = set<(NodeId, NodeId)>

  datatype Edge = Edge(fromNode: NodeId, toNode: NodeId, cond: string)

  ghost function ArcsOf(edges: seq<Edge>): Arcs {
    set e | e in edges :: (e.fromNode, e.toNode)
  }

  /** Every edge starts and ends at a known node. */
  ghost predicate EndpointsIn(edges: seq<Edge>, nodes: seq<NodeId>) {
    forall e :: e in edges ==> e.fromNode in nodes && e.toNode in nodes
  }

  ghost predicate IsPath(arcs: Arcs, p: seq<NodeId>) {
    |p| >= 1 && forall i :: 0 <= i < |p| - 1 ==> IsArc(arcs, p, i)
  }

  ghost predicate IsArc(arcs: Arcs, p: seq<NodeId>, i: nat)
    requires i < |p| - 1
  {
    (p[i], p[i + 1]) in arcs
  }

  /** Both ways to take a path apart. */
  lemma PathInit(arcs: Arcs, p: seq<NodeId>)
    requires IsPath(arcs, p) && |p| > 1
    ensures IsPath(arcs, p[..|p| - 1]) && (p[|p| - 2], p[|p| - 1]) in arcs
  {
    var init := p[..|p| - 1];
    assert IsArc(arcs, p, |p| - 2);
    forall i | 0 <= i < |init| - 1
      ensures IsArc(arcs, init, i)
    {
      assert IsArc(arcs, p, i);
    }
  }

  lemma PathTail(arcs: Arcs, p: seq<NodeId>)
    requires IsPath(arcs, p) && |p| > 1
    ensures IsPath(arcs, p[1..]) && (p[0], p[1]) in arcs
  {
    assert IsArc(arcs, p, 0);
    forall i | 0 <= i < |p| - 2
      ensures IsArc(arcs, p[1..], i)
    {
      assert IsArc(arcs, p, i + 1);
    }
  }

  lemma PathJoin(arcs: Arcs, p: seq<NodeId>, q: seq<NodeId>)
    requires IsPath(arcs, p) && IsPath(arcs, q) && (p[|p| - 1], q[0]) in arcs
    ensures IsPath(arcs, p + q)
  {
    var r := p + q;
    forall i | 0 <= i < |r| - 1
      ensures IsArc(arcs, r, i)
    {
      if i < |p| - 1 {
        assert IsArc(arcs, p, i);
      } else if i >= |p| {
        assert IsArc(arcs, q, i - |p|);
      }
    }
  }

  lemma PathPrefix(arcs: Arcs, p: seq<NodeId>, n: nat)
    requires IsPath(arcs, p) && 1 <= n <= |p|
    ensures IsPath(arcs, p[..n])
  {
    forall i | 0 <= i < n - 1
      ensures IsArc(arcs, p[..n], i)
    {
      assert IsArc(arcs, p, i);
    }
  }

  ghost predicate PathFromTo(arcs: Arcs, p: seq<NodeId>, u: NodeId, v: NodeId) {
    IsPath(arcs, p) && p[0] == u && p[|p| - 1] == v
  }

  /** Reflexive-transitive reachability. */
  ghost predicate Reaches(arcs: Arcs, u: NodeId, v: NodeId) {
    exists p :: PathFromTo(arcs, p, u, v)
  }

  ghost predicate IsCycle(arcs: Arcs, p: seq<NodeId>) {
    IsPath(arcs, p) && |p| >= 2 && p[0] == p[|p| - 1]
  }

  ghost predicate Acyclic(arcs: Arcs) {
    forall p :: !IsCycle(arcs, p)
  }

  /** `order` lists exactly `nodes`, each once, and the source of every arc
      stands before its target. */
  ghost predicate IsTopological(nodes: seq<NodeId>, arcs: Arcs, order: seq<NodeId>) {
    && Distinct(order)
    && Elems(order) == Elems(nodes)
    && PredecessorsFirst(arcs, order)
  }

  ghost predicate PredecessorsFirst(arcs: Arcs, order: seq<NodeId>) {
    forall i, u :: 0 <= i < |order| && (u, order[i]) in arcs ==> u in order[..i]
  }

  lemma ReachesSelf(arcs: Arcs, u: NodeId)
    ensures Reaches(arcs, u, u)
  {
    assert PathFromTo(arcs, [u], u, u);
  }

  lemma ReachesStep(arcs: Arcs, u: NodeId, v: NodeId, w: NodeId)
    requires Reaches(arcs, u, v) && (v, w) in arcs
    ensures Reaches(arcs, u, w)
  {
    var p :| PathFromTo(arcs, p, u, v);
    PathJoin(arcs, p, [w]);
    assert PathFromTo(arcs, p + [w], u, w);
  }

  lemma ReachesTrans(arcs: Arcs, u: NodeId, v: NodeId, w: NodeId)
    requires Reaches(arcs, u, v) && Reaches(arcs, v, w)
    ensures Reaches(arcs, u, w)
  {
    var p :| PathFromTo(arcs, p, u, v);
    var q :| PathFromTo(arcs, q, v, w);
    if |q| == 1 {
      assert PathFromTo(arcs, p, u, w);
    } else {
      PathTail(arcs, q);
      PathJoin(arcs, p, q[1..]);
      assert PathFromTo(arcs, p + q[1..], u, w);
    }
  }

  /** A nonempty path into `v` enters it over an arc. */
  lemma ReachesLastArc(arcs: Arcs, u: NodeId, v: NodeId)
    requires Reaches(arcs, u, v)
    ensures u == v || exists w :: Reaches(arcs, u, w) && (w, v) in arcs
  {
    var p :| PathFromTo(arcs, p, u, v);
    if |p| > 1 {
      var w := p[|p| - 2];
      PathInit(arcs, p);
      assert PathFromTo(arcs, p[..|p| - 1], u, w);
    }
  }

  /** A set closed under arcs keeps every path that starts in it. */
  lemma ClosedKeepsPaths(arcs: Arcs, s: set<NodeId>, u: NodeId, v: NodeId)
    requires forall a, b :: a in s && (a, b) in arcs ==> b in s
    requires u in s && Reaches(arcs, u, v)
    ensures v in s
  {
    var p :| PathFromTo(arcs, p, u, v);
    PathStaysIn(arcs, s, p);
  }

  lemma {:induction false} PathStaysIn(arcs: Arcs, s: set<NodeId>, p: seq<NodeId>)
    requires forall a, b :: a in s && (a, b) in arcs ==> b in s
    requires IsPath(arcs, p) && p[0] in s
    ensures p[|p| - 1] in s
  {
    if |p| > 1 {
      PathInit(arcs, p);
      PathStaysIn(arcs, s, p[..|p| - 1]);
    }
  }

  /** Along a path the position in a topological order strictly increases. */
  lemma {:induction false} PathAscends(arcs: Arcs, order: seq<NodeId>, p: seq<NodeId>, j: nat)
    requires Distinct(order) && PredecessorsFirst(arcs, order)
    requires IsPath(arcs, p) && j < |order| && p[|p| - 1] == order[j]
    ensures p[0] in order[..j + 1]
    ensures |p| > 1 ==> p[0] in order[..j]
  {
    if |p| == 1 {
      assert order[..j + 1][j] == p[0];
    } else {
      PathInit(arcs, p);
      var k := PredecessorIndex(arcs, order, p[|p| - 2], j);
      PathAscends(arcs, order, p[..|p| - 1], k);
      assert order[..k + 1] <= order[..j] <= order[..j + 1];
    }
  }

  lemma PredecessorIndex(arcs: Arcs, order: seq<NodeId>, u: NodeId, j: nat) returns (k: nat)
    requires PredecessorsFirst(arcs, order) && j < |order| && (u, order[j]) in arcs
    ensures k < j && order[k] == u
  {
    assert u in order[..j];
    k :| 0 <= k < j && order[k] == u;
  }

  lemma TopologicalIsAcyclic(nodes: seq<NodeId>, arcs: Arcs, order: seq<NodeId>)
    requires IsTopological(nodes, arcs, order)
    requires forall a :: a in arcs ==> a.1 in nodes
    ensures Acyclic(arcs)
  {
    forall p | IsCycle(arcs, p)
      ensures false
    {
      PathInit(arcs, p);
      assert p[|p| - 1] in Elems(nodes);
      assert p[|p| - 1] in order;
      var j :| 0 <= j < |order| && order[j] == p[|p| - 1];
      PathAscends(arcs, order, p, j);
    }
  }

  ghost predicate HasPredecessorIn(arcs: Arcs, s: set<NodeId>, v: NodeId) {
    exists u :: u in s && (u, v) in arcs
  }

  /** Pigeonhole: walking backwards inside a finite set in which every member has a
      predecessor in the set must close a cycle. `p` is the walk so far. */
  lemma {:induction false} BackwardWalkCloses(arcs: Arcs, s: set<NodeId>, p: seq<NodeId>)
    requires forall v :: v in s ==> HasPredecessorIn(arcs, s, v)
    requires IsPath(arcs, p) && Elems(p) <= s
    ensures !Acyclic(arcs)
    decreases s - Elems(p)
  {
    assert p[0] in Elems(p);
    assert HasPredecessorIn(arcs, s, p[0]);
    var u :| u in s && (u, p[0]) in arcs;
    var q := [u] + p;
    PathJoin(arcs, [u], p);
    if u in p {
      var k :| 0 <= k < |p| && p[k] == u;
      PathPrefix(arcs, q, k + 2);
      assert IsCycle(arcs, q[..k + 2]);
    } else {
      assert Elems(q) == Elems(p) + {u};
      BackwardWalkCloses(arcs, s, q);
    }
  }

  lemma NoSourceMeansCycle(arcs: Arcs, s: set<NodeId>)
    requires s != {}
    requires forall v :: v in s ==> HasPredecessorIn(arcs, s, v)
    ensures !Acyclic(arcs)
  {
    var v :| v in s;
    assert Elems([v]) == {v};
    BackwardWalkCloses(arcs, s, [v]);
  }
}
