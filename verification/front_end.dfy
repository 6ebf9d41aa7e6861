/** Parser and normalizer: from a task template to a graph whose inputs are explicit. */
module FrontEnd {
  import opened Prelude
  import opened Graphs
  import opened Schema
  import Kahn

  datatype ParseError = PurposeNotRequired | UnknownEndpoint | CyclicTemplate

  /** `nodes` is an insertion-ordered dictionary: `ids` gives its iteration order. */
  datatype CandidateGraph = CandidateGraph(
    templateId: string,
    ids: seq<NodeId>,
    nodes: map<NodeId, NodeSpec>,
    edges: seq<Edge>,
    purpose: string
  )

  datatype ValueRef = ValueRef(producer: NodeId, viewName: Option<string>)

  datatype NormalizedNode = NormalizedNode(node: NodeSpec, inputRefs: seq<ValueRef>)

  datatype NormalizedGraph = NormalizedGraph(
    templateId: string,
    ids: seq<NodeId>,
    nodes: map<NodeId, NormalizedNode>,
    edges: seq<Edge>,
    purpose: string
  ) {
    ghost function Arcs(): Arcs { ArcsOf(edges) }
  }

  // ---- What parsing accepts and keeps ----

  ghost predicate PurposesAllowed(t: TaskTemplate) {
    t.requiredPurposes == [] || forall n :: n in t.nodes ==> n.purpose in t.requiredPurposes
  }

  ghost predicate EndpointsKnown(t: TaskTemplate) {
    EndpointsIn(t.edges, FirstIds(t.nodes))
  }

  ghost predicate Parseable(t: TaskTemplate) {
    PurposesAllowed(t) && EndpointsKnown(t) && Acyclic(ArcsOf(t.edges))
  }

  /** Keys of a dictionary filled in list order: each id at its first occurrence. */
  ghost function FirstIds(specs: seq<NodeSpec>): seq<NodeId> {
    if specs == [] then []
    else
      var rest := FirstIds(specs[..|specs| - 1]);
      var id := specs[|specs| - 1].nodeId;
      if id in rest then rest else rest + [id]
  }

  /** Values of that dictionary: the last specification given for an id. */
  ghost function LastSpecs(specs: seq<NodeSpec>): map<NodeId, NodeSpec> {
    if specs == [] then map[]
    else
      var n := specs[|specs| - 1];
      LastSpecs(specs[..|specs| - 1])[n.nodeId := n]
  }

  lemma {:induction false} DictionaryShape(specs: seq<NodeSpec>)
    ensures Distinct(FirstIds(specs))
    ensures LastSpecs(specs).Keys == Elems(FirstIds(specs))
    ensures forall id :: id in LastSpecs(specs) ==> LastSpecs(specs)[id].nodeId == id
    ensures forall id :: id in LastSpecs(specs) ==> LastSpecs(specs)[id] in specs
  {
    if specs != [] {
      var init, n := specs[..|specs| - 1], specs[|specs| - 1];
      DictionaryShape(init);
      assert specs == init + [n];
    }
  }

  /** The last specification given for an id is the one kept. */
  lemma {:induction false} LastSpecWins(specs: seq<NodeSpec>, i: nat)
    requires i < |specs| && forall j :: i < j < |specs| ==> specs[j].nodeId != specs[i].nodeId
    ensures specs[i].nodeId in LastSpecs(specs) && LastSpecs(specs)[specs[i].nodeId] == specs[i]
  {
    if i < |specs| - 1 {
      LastSpecWins(specs[..|specs| - 1], i);
    }
  }

  /** `x` occurs in the list before the first occurrence of `y`. */
  ghost predicate Precedes<T>(s: seq<T>, x: T, y: T) {
    exists i :: 0 <= i < |s| && s[i] == x && y !in s[..i + 1]
  }

  lemma PrecedesExtends<T>(s: seq<T>, x: T, y: T, last: T)
    ensures Precedes(s, x, y) ==> Precedes(s + [last], x, y)
    ensures x in s && last !in s ==> Precedes(s + [last], x, last)
  {
    var more := s + [last];
    if Precedes(s, x, y) {
      var i :| 0 <= i < |s| && s[i] == x && y !in s[..i + 1];
      assert more[..i + 1] == s[..i + 1] && more[i] == x;
    }
    if x in s && last !in s {
      var i :| 0 <= i < |s| && s[i] == x;
      assert more[..i + 1] == s[..i + 1] && more[i] == x;
    }
  }

  ghost function IdsOf(specs: seq<NodeSpec>): seq<NodeId> {
    seq(|specs|, i requires 0 <= i < |specs| => specs[i].nodeId)
  }

  /** The ids of the dictionary are those of the template, in the order of their first occurrence. */
  lemma {:induction false} IdsInFirstOrder(specs: seq<NodeSpec>)
    ensures forall id :: id in FirstIds(specs) <==> id in IdsOf(specs)
    ensures forall a, b :: 0 <= a < b < |FirstIds(specs)| ==>
      Precedes(IdsOf(specs), FirstIds(specs)[a], FirstIds(specs)[b])
  {
    if specs != [] {
      var init, last := specs[..|specs| - 1], specs[|specs| - 1].nodeId;
      IdsInFirstOrder(init);
      assert IdsOf(specs) == IdsOf(init) + [last];
      forall a, b | 0 <= a < b < |FirstIds(specs)|
        ensures Precedes(IdsOf(specs), FirstIds(specs)[a], FirstIds(specs)[b])
      {
        PrecedesExtends(IdsOf(init), FirstIds(specs)[a], FirstIds(specs)[b], last);
      }
    }
  }

  lemma DictionaryStep(specs: seq<NodeSpec>, i: nat)
    requires i < |specs|
    ensures var ids, nodes := FirstIds(specs[..i]), LastSpecs(specs[..i]);
      && FirstIds(specs[..i + 1]) == (if specs[i].nodeId in nodes then ids else ids + [specs[i].nodeId])
      && LastSpecs(specs[..i + 1]) == nodes[specs[i].nodeId := specs[i]]
  {
    assert specs[..i + 1][..i] == specs[..i];
    DictionaryShape(specs[..i]);
    assert specs[i].nodeId in FirstIds(specs[..i]) <==> specs[i].nodeId in Elems(FirstIds(specs[..i]));
  }

  /** With distinct ids the dictionary is the template's node list. */
  lemma {:induction false} DistinctIdsKeepEveryNode(specs: seq<NodeSpec>)
    requires forall i, j :: 0 <= i < j < |specs| ==> specs[i].nodeId != specs[j].nodeId
    ensures |FirstIds(specs)| == |specs|
    ensures forall i :: 0 <= i < |specs| ==> FirstIds(specs)[i] == specs[i].nodeId
    ensures forall i :: 0 <= i < |specs| ==>
      specs[i].nodeId in LastSpecs(specs) && LastSpecs(specs)[specs[i].nodeId] == specs[i]
  {
    if specs != [] {
      DistinctIdsKeepEveryNode(specs[..|specs| - 1]);
    }
  }

  /** Fills the node dictionary; `ids` is its insertion order. */
  method CollectNodes(specs: seq<NodeSpec>) returns (ids: seq<NodeId>, nodes: map<NodeId, NodeSpec>)
    ensures ids == FirstIds(specs) && nodes == LastSpecs(specs)
  {
    ids, nodes := [], map[];
    for i := 0 to |specs|
      invariant ids == FirstIds(specs[..i]) && nodes == LastSpecs(specs[..i])
    {
      var n := specs[i];
      DictionaryStep(specs, i);
      if n.nodeId !in nodes {
        ids := ids + [n.nodeId];
      }
      nodes := nodes[n.nodeId := n];
    }
    assert specs[..|specs|] == specs;
  }

  method Parse(t: TaskTemplate, contractPurpose: string) returns (r: Result<CandidateGraph, ParseError>)
    ensures r.Ok? <==> Parseable(t)
    ensures r == Err(PurposeNotRequired) <==> !PurposesAllowed(t)
    ensures r == Err(UnknownEndpoint) <==> PurposesAllowed(t) && !EndpointsKnown(t)
    ensures r.Ok? ==>
      r.value == CandidateGraph(t.templateId, FirstIds(t.nodes), LastSpecs(t.nodes), t.edges, contractPurpose)
  {
    for i := 0 to |t.nodes|
      invariant t.requiredPurposes == []
                || forall k :: 0 <= k < i ==> t.nodes[k].purpose in t.requiredPurposes
    {
      if t.nodes[i].purpose !in t.requiredPurposes && t.requiredPurposes != [] {
        assert t.nodes[i] in t.nodes;
        return Err(PurposeNotRequired);
      }
    }
    var ids, nodes := CollectNodes(t.nodes);
    DictionaryShape(t.nodes);
    for i := 0 to |t.edges|
      invariant forall k :: 0 <= k < i ==> t.edges[k].fromNode in nodes && t.edges[k].toNode in nodes
    {
      assert t.edges[i] in t.edges;
      if t.edges[i].fromNode !in nodes {
        return Err(UnknownEndpoint);
      }
      if t.edges[i].toNode !in nodes {
        return Err(UnknownEndpoint);
      }
    }
    var order := Kahn.TopologicalOrder(ids, t.edges);
    if order.Err? {
      return Err(CyclicTemplate);
    }
    return Ok(CandidateGraph(t.templateId, ids, nodes, t.edges, contractPurpose));
  }

  // ---- Normalization ----

  /** First occurrences, in order. */
  ghost function Dedup(edges: seq<Edge>): seq<Edge> {
    if edges == [] then []
    else
      var rest := Dedup(edges[..|edges| - 1]);
      var e := edges[|edges| - 1];
      if e in rest then rest else rest + [e]
  }

  ghost function RefsInto(edges: seq<Edge>, nodes: map<NodeId, NodeSpec>, v: NodeId): seq<ValueRef>
    requires forall e :: e in edges ==> e.fromNode in nodes
  {
    if edges == [] then []
    else
      var e := edges[|edges| - 1];
      var rest := RefsInto(edges[..|edges| - 1], nodes, v);
      if e.toNode == v then rest + [RefOf(e, nodes)] else rest
  }

  function RefOf(e: Edge, nodes: map<NodeId, NodeSpec>): ValueRef
    requires e.fromNode in nodes
  {
    var views := nodes[e.fromNode].views;
    ValueRef(e.fromNode, if views == [] then None else Some(views[0]))
  }

  /** Merging duplicate edges keeps the edge set, hence arcs, reachability and acyclicity. */
  lemma {:induction false} DedupKeepsEdges(edges: seq<Edge>)
    ensures Distinct(Dedup(edges))
    ensures Elems(Dedup(edges)) == Elems(edges)
    ensures ArcsOf(Dedup(edges)) == ArcsOf(edges)
  {
    if edges != [] {
      var init, e := edges[..|edges| - 1], edges[|edges| - 1];
      DedupKeepsEdges(init);
      assert edges == init + [e];
      assert Elems(edges) == Elems(init) + {e};
      assert Elems(Dedup(edges)) == Elems(Dedup(init)) + {e};
    }
    SameEdgesSameArcs(Dedup(edges), edges);
  }

  /** Merged edges stand in the order of their first occurrence. */
  lemma {:induction false} DedupKeepsOrder(edges: seq<Edge>)
    ensures forall a, b :: 0 <= a < b < |Dedup(edges)| ==> Precedes(edges, Dedup(edges)[a], Dedup(edges)[b])
  {
    if edges != [] {
      var init, last := edges[..|edges| - 1], edges[|edges| - 1];
      DedupKeepsOrder(init);
      DedupKeepsMembers(init);
      assert edges == init + [last];
      forall a, b | 0 <= a < b < |Dedup(edges)|
        ensures Precedes(edges, Dedup(edges)[a], Dedup(edges)[b])
      {
        PrecedesExtends(init, Dedup(edges)[a], Dedup(edges)[b], last);
      }
    }
  }

  /** The edges into a node, in order. */
  ghost function Incoming(edges: seq<Edge>, v: NodeId): seq<Edge> {
    if edges == [] then []
    else
      var e := edges[|edges| - 1];
      Incoming(edges[..|edges| - 1], v) + (if e.toNode == v then [e] else [])
  }

  /** The k-th input of a node comes from the producer of its k-th incoming edge, through the
      first view that producer declares, if it declares any. */
  lemma {:induction false} RefsFollowEdges(edges: seq<Edge>, nodes: map<NodeId, NodeSpec>, v: NodeId)
    requires forall e :: e in edges ==> e.fromNode in nodes
    ensures |RefsInto(edges, nodes, v)| == |Incoming(edges, v)|
    ensures forall k :: 0 <= k < |Incoming(edges, v)| ==>
      && Incoming(edges, v)[k].fromNode in nodes
      && var ref, views := RefsInto(edges, nodes, v)[k], nodes[Incoming(edges, v)[k].fromNode].views;
         && ref.producer == Incoming(edges, v)[k].fromNode
         && (ref.viewName.None? <==> views == [])
         && (views != [] ==> ref.viewName == Some(views[0]))
  {
    if edges != [] {
      var init, e := edges[..|edges| - 1], edges[|edges| - 1];
      assert edges == init + [e];
      RefsFollowEdges(init, nodes, v);
    }
  }

  lemma SameEdgesSameArcs(a: seq<Edge>, b: seq<Edge>)
    requires Elems(a) == Elems(b)
    ensures ArcsOf(a) == ArcsOf(b)
    ensures forall e :: e in a <==> e in b
  {
    assert forall e :: e in a <==> e in Elems(a);
    assert forall e :: e in b <==> e in Elems(b);
  }

  /** The producers a node reads from are exactly its predecessors. */
  lemma {:induction false} ProducersArePredecessors(edges: seq<Edge>, nodes: map<NodeId, NodeSpec>, v: NodeId)
    requires forall e :: e in edges ==> e.fromNode in nodes
    ensures forall u :: (u, v) in ArcsOf(edges) <==>
      exists k :: 0 <= k < |RefsInto(edges, nodes, v)| && RefsInto(edges, nodes, v)[k].producer == u
  {
    if edges != [] {
      var init, e := edges[..|edges| - 1], edges[|edges| - 1];
      assert edges == init + [e];
      ProducersArePredecessors(init, nodes, v);
      var rest, all := RefsInto(init, nodes, v), RefsInto(edges, nodes, v);
      assert ArcsOf(edges) == ArcsOf(init) + {(e.fromNode, e.toNode)};
      forall u | (u, v) in ArcsOf(edges)
        ensures exists k :: 0 <= k < |all| && all[k].producer == u
      {
        if (u, v) in ArcsOf(init) {
          var k :| 0 <= k < |rest| && rest[k].producer == u;
          assert all[k] == rest[k];
        } else {
          assert all[|all| - 1].producer == u;
        }
      }
    }
  }

  ghost predicate WellFormed(g: NormalizedGraph) {
    && Distinct(g.ids)
    && g.nodes.Keys == Elems(g.ids)
    && EndpointsIn(g.edges, g.ids)
    && (forall v :: v in g.nodes ==> g.nodes[v].node.nodeId == v)
    && InputsMatch(g)
  }

  ghost predicate InputsMatch(g: NormalizedGraph) {
    forall v :: v in g.nodes ==> Reads(g.Arcs(), v, g.nodes[v].inputRefs)
  }

  ghost predicate Reads(arcs: Arcs, v: NodeId, refs: seq<ValueRef>) {
    forall u :: (u, v) in arcs <==> exists k :: 0 <= k < |refs| && refs[k].producer == u
  }

  lemma DedupKeepsMembers(edges: seq<Edge>)
    ensures forall e :: e in Dedup(edges) <==> e in edges
  {
    DedupKeepsEdges(edges);
    forall e
      ensures e in Dedup(edges) <==> e in edges
    {
      assert e in Elems(Dedup(edges)) <==> e in Elems(edges);
    }
  }

  /** The normalized graph as a value. */
  ghost function Normalized(c: CandidateGraph): NormalizedGraph
    requires EndpointsIn(c.edges, c.ids) && c.nodes.Keys == Elems(c.ids)
  {
    DedupKeepsMembers(c.edges);
    NormalizedGraph(
      c.templateId, c.ids,
      map v | v in c.nodes :: NormalizedNode(c.nodes[v], RefsInto(Dedup(c.edges), c.nodes, v)),
      Dedup(c.edges), c.purpose)
  }

  lemma NormalizedIsWellFormed(c: CandidateGraph)
    requires Distinct(c.ids) && EndpointsIn(c.edges, c.ids) && c.nodes.Keys == Elems(c.ids)
    requires forall v :: v in c.nodes ==> c.nodes[v].nodeId == v
    ensures WellFormed(Normalized(c))
    ensures Normalized(c).Arcs() == ArcsOf(c.edges)
  {
    DedupKeepsEdges(c.edges);
    DedupKeepsMembers(c.edges);
    var edges := Dedup(c.edges);
    forall v | v in c.nodes
      ensures Reads(ArcsOf(edges), v, RefsInto(edges, c.nodes, v))
    {
      ProducersArePredecessors(edges, c.nodes, v);
    }
  }

  method MergeDuplicates(all: seq<Edge>) returns (edges: seq<Edge>)
    ensures edges == Dedup(all)
  {
    var seen: set<Edge> := {};
    edges := [];
    for j := 0 to |all|
      invariant edges == Dedup(all[..j]) && seen == Elems(edges)
    {
      assert all[..j + 1][..j] == all[..j];
      var e := all[j];
      if e !in seen {
        seen := seen + {e};
        edges := edges + [e];
      }
    }
    assert all[..|all|] == all;
  }

  method InputRefs(edges: seq<Edge>, nodes: map<NodeId, NodeSpec>) returns (refs: map<NodeId, seq<ValueRef>>)
    requires forall e :: e in edges ==> e.fromNode in nodes && e.toNode in nodes
    ensures refs.Keys == nodes.Keys
    ensures forall v :: v in refs ==> refs[v] == RefsInto(edges, nodes, v)
  {
    refs := map v | v in nodes :: [];
    for j := 0 to |edges|
      invariant refs.Keys == nodes.Keys
      invariant forall v :: v in refs ==> refs[v] == RefsInto(edges[..j], nodes, v)
    {
      var e := edges[j];
      assert e in edges;
      assert edges[..j + 1][..j] == edges[..j];
      assert forall v :: v in refs ==>
        RefsInto(edges[..j + 1], nodes, v) == if e.toNode == v then refs[v] + [RefOf(e, nodes)] else refs[v];
      refs := refs[e.toNode := refs[e.toNode] + [RefOf(e, nodes)]];
    }
    assert edges[..|edges|] == edges;
  }

  method Normalize(c: CandidateGraph) returns (g: NormalizedGraph)
    requires Distinct(c.ids) && EndpointsIn(c.edges, c.ids) && c.nodes.Keys == Elems(c.ids)
    ensures g == Normalized(c)
  {
    var edges := MergeDuplicates(c.edges);
    DedupKeepsEdges(c.edges);
    SameEdgesSameArcs(edges, c.edges);
    var refs := InputRefs(edges, c.nodes);
    g := NormalizedGraph(
      c.templateId, c.ids,
      map v | v in c.nodes :: NormalizedNode(c.nodes[v], refs[v]),
      edges, c.purpose);
  }
}
