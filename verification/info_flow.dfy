/** Security-label algebra and the information-flow check over a normalized graph. */
module InfoFlow {
  import opened Prelude
  import opened Graphs
  import opened Schema
  import opened FrontEnd
  import Kahn

  // ---- The label algebra ----

  /** Most restrictive combination of two labels; the owner is not carried over. */
  function Join(a: SecurityLabel, b: SecurityLabel): SecurityLabel {
    SecurityLabel(
      if a.classification.Rank() >= b.classification.Rank() then a.classification else b.classification,
      if a.residency == LOCAL || b.residency == LOCAL then LOCAL
      else if a.residency == b.residency then a.residency else LOCAL,
      if a.sourceTrust.Rank() >= b.sourceTrust.Rank() then a.sourceTrust else b.sourceTrust,
      if a.retentionDays <= b.retentionDays then a.retentionDays else b.retentionDays,
      DEFAULT_OWNER)
  }

  /** A label without its owner. */
  function Erase(l: SecurityLabel): SecurityLabel {
    l.(owner := DEFAULT_OWNER)
  }

  /** `b` already absorbs `a`. */
  ghost predicate Below(a: SecurityLabel, b: SecurityLabel) {
    Erase(Join(a, b)) == Erase(b)
  }

  lemma RankInjective()
    ensures forall c: Classification, d: Classification :: c.Rank() == d.Rank() ==> c == d
    ensures forall c: SourceTrust, d: SourceTrust :: c.Rank() == d.Rank() ==> c == d
  {
  }

  lemma JoinLaws(a: SecurityLabel, b: SecurityLabel, c: SecurityLabel)
    ensures Join(Join(a, b), c) == Join(a, Join(b, c))
    ensures Join(a, b) == Join(b, a)
    ensures Erase(Join(a, a)) == Erase(a)
    ensures Join(a, b).owner == "tenant:root"
  {
    RankInjective();
  }

  /** The order behind the join, field by field. */
  lemma BelowMeans(a: SecurityLabel, b: SecurityLabel)
    ensures Below(a, b) <==>
      && a.classification.Rank() <= b.classification.Rank()
      && (b.residency == LOCAL || a.residency == b.residency)
      && a.sourceTrust.Rank() <= b.sourceTrust.Rank()
      && a.retentionDays >= b.retentionDays
  {
    RankInjective();
  }

  /** Which tier may enter which, spelled out. */
  predicate MayEnter(c: Classification, d: Classification) {
    match c
    case Public => true
    case Partner => d != Public
    case Internal => d == Internal || d == Restricted
    case Restricted => d == Restricted
  }

  /** The second source is restricted at least as much as the first, spelled out. */
  predicate NoMoreRestricted(s: SourceTrust, t: SourceTrust) {
    match s
    case Synthetic => true
    case FromPublic => t != Synthetic
    case FromPartner => t != Synthetic && t != FromPublic
    case FromInternal => t == FromInternal || t == FromRestricted
    case FromRestricted => t == FromRestricted
  }

  /** The flow check and the order behind the join, tier by tier. */
  lemma FlowByTiers(a: SecurityLabel, b: SecurityLabel)
    ensures a.CanFlowTo(b) <==>
      MayEnter(a.classification, b.classification)
      && (a.residency == "local" || b.residency == "local" || a.residency == b.residency)
    ensures Below(a, b) <==>
      && MayEnter(a.classification, b.classification)
      && (b.residency == "local" || a.residency == b.residency)
      && NoMoreRestricted(a.sourceTrust, b.sourceTrust)
      && a.retentionDays >= b.retentionDays
  {
    BelowMeans(a, b);
  }

  lemma BelowOrder(a: SecurityLabel, b: SecurityLabel, c: SecurityLabel)
    ensures Below(a, a)
    ensures Below(a, b) && Below(b, c) ==> Below(a, c)
    ensures Below(a, b) && Below(b, a) ==> Erase(a) == Erase(b)
  {
    RankInjective();
    BelowMeans(a, b);
    BelowMeans(b, c);
    BelowMeans(a, c);
  }

  /** `Join` is the least upper bound: bounding the join is bounding both. */
  lemma JoinIsLeast(a: SecurityLabel, b: SecurityLabel, bound: SecurityLabel)
    ensures Below(Join(a, b), bound) <==> Below(a, bound) && Below(b, bound)
  {
    BelowMeans(Join(a, b), bound);
    BelowMeans(a, bound);
    BelowMeans(b, bound);
  }

  /** Data absorbed by a label may flow to it. */
  lemma BelowMayFlow(a: SecurityLabel, b: SecurityLabel)
    requires Below(a, b)
    ensures a.CanFlowTo(b)
  {
    BelowMeans(a, b);
  }

  /** `CanFlowTo` alone is not transitive: it composes unless a local hop joins
      two different specific residencies. */
  lemma FlowComposition(a: SecurityLabel, b: SecurityLabel, c: SecurityLabel)
    requires a.CanFlowTo(b) && b.CanFlowTo(c)
    ensures a.CanFlowTo(c) <==>
      !(b.residency == LOCAL && a.residency != LOCAL && c.residency != LOCAL && a.residency != c.residency)
  {
  }

  lemma FlowIsNotTransitive() returns (a: SecurityLabel, b: SecurityLabel, c: SecurityLabel)
    ensures a.CanFlowTo(b) && b.CanFlowTo(c) && !a.CanFlowTo(c)
  {
    a := SecurityLabel(Public, "cn", Synthetic, 30, DEFAULT_OWNER);
    b := a.(residency := LOCAL);
    c := a.(residency := "us");
    assert a.residency[0] != c.residency[0];
  }

  // ---- Labels as joins over source ancestors ----

  ghost predicate IsSource(arcs: Arcs, v: NodeId) {
    forall u :: (u, v) !in arcs
  }

  /** `bound` absorbs the initial label of every source that reaches `v`. */
  ghost predicate BoundsSources(arcs: Arcs, init: map<NodeId, SecurityLabel>, v: NodeId, bound: SecurityLabel) {
    forall s :: s in init && IsSource(arcs, s) && Reaches(arcs, s, v) ==> Below(init[s], bound)
  }

  /** `l` is the join of the initial labels of the sources that reach `v`: a label
      absorbs `l` exactly when it absorbs each of them. */
  ghost predicate IsSourceJoin(arcs: Arcs, init: map<NodeId, SecurityLabel>, v: NodeId, l: SecurityLabel) {
    forall bound :: Below(l, bound) <==> BoundsSources(arcs, init, v, bound)
  }

  ghost predicate LabelsAreSourceJoins(arcs: Arcs, init: map<NodeId, SecurityLabel>,
                                       labels: map<NodeId, SecurityLabel>) {
    forall v :: v in labels ==> IsSourceJoin(arcs, init, v, labels[v])
  }

  /** The join over sources is unique up to the owner, so labels do not depend on
      which topological order computed them. */
  lemma SourceJoinUnique(arcs: Arcs, init: map<NodeId, SecurityLabel>, v: NodeId,
                         l: SecurityLabel, m: SecurityLabel)
    requires IsSourceJoin(arcs, init, v, l) && IsSourceJoin(arcs, init, v, m)
    ensures Erase(l) == Erase(m)
  {
    BelowOrder(l, m, l);
    BelowOrder(m, l, m);
    assert Below(l, l) && Below(m, m);
  }

  /** Labels only rise along paths, and each may flow to the next. */
  lemma LabelsRise(arcs: Arcs, init: map<NodeId, SecurityLabel>, labels: map<NodeId, SecurityLabel>,
                   u: NodeId, v: NodeId)
    requires LabelsAreSourceJoins(arcs, init, labels)
    requires u in labels && v in labels && Reaches(arcs, u, v)
    ensures Below(labels[u], labels[v])
    ensures labels[u].CanFlowTo(labels[v])
  {
    var top := labels[v];
    BelowOrder(top, top, top);
    assert BoundsSources(arcs, init, v, top);
    forall s | s in init && IsSource(arcs, s) && Reaches(arcs, s, u)
      ensures Below(init[s], top)
    {
      ReachesTrans(arcs, s, u, v);
    }
    assert BoundsSources(arcs, init, u, top);
    BelowMayFlow(labels[u], top);
  }

  lemma SourceIsItsOwnJoin(arcs: Arcs, init: map<NodeId, SecurityLabel>, v: NodeId)
    requires IsSource(arcs, v) && v in init
    ensures IsSourceJoin(arcs, init, v, init[v])
  {
    forall bound
      ensures Below(init[v], bound) <==> BoundsSources(arcs, init, v, bound)
    {
      ReachesSelf(arcs, v);
      forall s | s in init && Reaches(arcs, s, v)
        ensures s == v
      {
        ReachesLastArc(arcs, s, v);
      }
    }
  }

  /** The sources above an inner node are the sources above its predecessors. */
  lemma SourcesSplit(arcs: Arcs, init: map<NodeId, SecurityLabel>, v: NodeId, bound: SecurityLabel)
    requires !IsSource(arcs, v)
    ensures BoundsSources(arcs, init, v, bound) <==>
      forall u :: (u, v) in arcs ==> BoundsSources(arcs, init, u, bound)
  {
    if BoundsSources(arcs, init, v, bound) {
      forall u, s | (u, v) in arcs && s in init && IsSource(arcs, s) && Reaches(arcs, s, u)
        ensures Below(init[s], bound)
      {
        ReachesStep(arcs, s, u, v);
      }
    }
    if forall u :: (u, v) in arcs ==> BoundsSources(arcs, init, u, bound) {
      forall s | s in init && IsSource(arcs, s) && Reaches(arcs, s, v)
        ensures Below(init[s], bound)
      {
        ReachesLastArc(arcs, s, v);
        var w :| Reaches(arcs, s, w) && (w, v) in arcs;
        assert BoundsSources(arcs, init, w, bound);
      }
    }
  }

  /** `acc` is the join of the first `k` labels of `ls`. */
  ghost predicate IsJoinOf(ls: seq<SecurityLabel>, acc: SecurityLabel) {
    forall bound :: Below(acc, bound) <==> forall i :: 0 <= i < |ls| ==> Below(ls[i], bound)
  }

  lemma JoinOfExtends(ls: seq<SecurityLabel>, acc: SecurityLabel, next: SecurityLabel)
    requires IsJoinOf(ls, acc)
    ensures IsJoinOf(ls + [next], Join(acc, next))
  {
    var all := ls + [next];
    forall bound
      ensures Below(Join(acc, next), bound) <==> forall i :: 0 <= i < |all| ==> Below(all[i], bound)
    {
      JoinIsLeast(acc, next, bound);
      assert all[|ls|] == next;
      assert forall i :: 0 <= i < |ls| ==> all[i] == ls[i];
    }
  }

  /** Join of a nonempty list, folded from its first element. */
  method JoinAll(ls: seq<SecurityLabel>) returns (acc: SecurityLabel)
    requires ls != []
    ensures IsJoinOf(ls, acc)
  {
    acc := ls[0];
    for i := 1 to |ls|
      invariant IsJoinOf(ls[..i], acc)
    {
      JoinOfExtends(ls[..i], acc, ls[i]);
      assert ls[..i + 1] == ls[..i] + [ls[i]];
      acc := Join(acc, ls[i]);
    }
    assert ls[..|ls|] == ls;
  }

  /** Labels of the producers of a node that have been labelled already. */
  method ProducerLabels(refs: seq<ValueRef>, labels: map<NodeId, SecurityLabel>)
    returns (ls: seq<SecurityLabel>)
    ensures (forall k :: 0 <= k < |refs| ==> refs[k].producer in labels) ==>
      |ls| == |refs| && forall k :: 0 <= k < |refs| ==> ls[k] == labels[refs[k].producer]
  {
    ls := [];
    for k := 0 to |refs|
      invariant (forall i :: 0 <= i < k ==> refs[i].producer in labels) ==>
        |ls| == k && forall i :: 0 <= i < k ==> ls[i] == labels[refs[i].producer]
    {
      if refs[k].producer in labels {
        ls := ls + [labels[refs[k].producer]];
      }
    }
  }

  lemma InnerNodeLabel(arcs: Arcs, init: map<NodeId, SecurityLabel>, labels: map<NodeId, SecurityLabel>,
                       v: NodeId, refs: seq<ValueRef>, ls: seq<SecurityLabel>, acc: SecurityLabel)
    requires LabelsAreSourceJoins(arcs, init, labels)
    requires Reads(arcs, v, refs) && refs != [] && |ls| == |refs|
    requires forall k :: 0 <= k < |refs| ==> refs[k].producer in labels && ls[k] == labels[refs[k].producer]
    requires IsJoinOf(ls, acc)
    ensures IsSourceJoin(arcs, init, v, acc)
  {
    assert refs[0].producer == refs[0].producer;
    assert (refs[0].producer, v) in arcs;
    forall bound
      ensures Below(acc, bound) <==> BoundsSources(arcs, init, v, bound)
    {
      SourcesSplit(arcs, init, v, bound);
      forall k | 0 <= k < |refs|
        ensures (refs[k].producer, v) in arcs
        ensures Below(ls[k], bound) <==> BoundsSources(arcs, init, refs[k].producer, bound)
      {
      }
      if forall k :: 0 <= k < |refs| ==> Below(ls[k], bound) {
        forall u | (u, v) in arcs
          ensures BoundsSources(arcs, init, u, bound)
        {
          var k :| 0 <= k < |refs| && refs[k].producer == u;
        }
      }
    }
  }

  /** Labels every node along a topological order, starting from an arbitrary labelling
      of the sources. No producer is ever missing when a node is labelled. */
  method Propagate(g: NormalizedGraph, order: seq<NodeId>, init: map<NodeId, SecurityLabel>)
    returns (labels: map<NodeId, SecurityLabel>)
    requires WellFormed(g) && init.Keys == Elems(g.ids)
    requires IsTopological(g.ids, g.Arcs(), order)
    ensures labels.Keys == Elems(g.ids)
    ensures LabelsAreSourceJoins(g.Arcs(), init, labels)
  {
    labels := map[];
    for k := 0 to |order|
      invariant labels.Keys == Elems(order[..k])
      invariant LabelsAreSourceJoins(g.Arcs(), init, labels)
    {
      var v := order[k];
      assert v in Elems(order);
      assert v in init && v in g.nodes;
      var refs := g.nodes[v].inputRefs;
      assert Reads(g.Arcs(), v, refs);
      forall i | 0 <= i < |refs|
        ensures refs[i].producer in labels
      {
        assert (refs[i].producer, order[k]) in g.Arcs();
        assert refs[i].producer in order[..k];
      }
      var ls := ProducerLabels(refs, labels);
      var l := init[v];
      if ls == [] {
        SourceIsItsOwnJoin(g.Arcs(), init, v);
      } else {
        l := JoinAll(ls);
        InnerNodeLabel(g.Arcs(), init, labels, v, refs, ls, l);
      }
      labels := labels[v := l];
      assert order[..k + 1] == order[..k] + [v];
    }
    assert order[..|order|] == order;
  }

  /** Below every node of an acyclic graph there is a source that reaches it. */
  lemma {:induction false} SomeSourceReaches(arcs: Arcs, order: seq<NodeId>, k: nat)
    requires PredecessorsFirst(arcs, order) && k < |order|
    ensures exists s :: s in order && IsSource(arcs, s) && Reaches(arcs, s, order[k])
  {
    if IsSource(arcs, order[k]) {
      ReachesSelf(arcs, order[k]);
    } else {
      var u :| (u, order[k]) in arcs;
      assert u in order[..k];
      var j :| 0 <= j < k && order[j] == u;
      SomeSourceReaches(arcs, order, j);
      var s :| s in order && IsSource(arcs, s) && Reaches(arcs, s, u);
      ReachesStep(arcs, s, u, order[k]);
    }
  }

  /** With one initial label for all sources every node ends up with that label. */
  lemma OneInitialLabel(nodes: seq<NodeId>, arcs: Arcs, order: seq<NodeId>,
                        init: map<NodeId, SecurityLabel>, labels: map<NodeId, SecurityLabel>,
                        initial: SecurityLabel, v: NodeId)
    requires IsTopological(nodes, arcs, order) && init.Keys == Elems(nodes)
    requires forall s :: s in init ==> init[s] == initial
    requires LabelsAreSourceJoins(arcs, init, labels) && v in labels && v in nodes
    ensures Erase(labels[v]) == Erase(initial)
  {
    assert v in Elems(nodes);
    assert v in order;
    var k :| 0 <= k < |order| && order[k] == v;
    SomeSourceReaches(arcs, order, k);
    var s :| s in order && IsSource(arcs, s) && Reaches(arcs, s, v);
    assert s in Elems(order);
    BelowOrder(initial, labels[v], initial);
    BelowOrder(labels[v], initial, labels[v]);
    assert BoundsSources(arcs, init, v, initial);
    assert BoundsSources(arcs, init, v, labels[v]);
  }

  // ---- The checks ----

  const PUBLIC_RESEARCH: NodeId := "public_research"

  function BoundManifest(bindings: map<NodeId, string>, manifests: map<string, Manifest>, v: NodeId)
    : Option<Manifest>
  {
    if v in bindings && bindings[v] != "" && bindings[v] in manifests
    then Some(manifests[bindings[v]]) else None
  }

  /** Bound to a known public-model capability, and not the exempted node. */
  predicate PublicConsumer(bindings: map<NodeId, string>, manifests: map<string, Manifest>, v: NodeId) {
    var m := BoundManifest(bindings, manifests, v);
    m.Some? && m.value.kind == PublicModel && v != PUBLIC_RESEARCH
  }

  ghost predicate HasPredecessor(arcs: Arcs, v: NodeId) {
    exists u :: (u, v) in arcs
  }

  /** Which flow errors a graph gets when all data enters with label `initial`. */
  ghost predicate FlowErrorExpected(g: NormalizedGraph, initial: SecurityLabel,
                                    bindings: map<NodeId, string>, manifests: map<string, Manifest>,
                                    e: CompileError) {
    && e.nodeId in g.ids
    && PublicConsumer(bindings, manifests, e.nodeId)
    && match e.kind
       case RestrictedToPublic => initial.classification != Public
       case TrustNotInherited => initial.sourceTrust == FromRestricted && HasPredecessor(g.Arcs(), e.nodeId)
       case _ => false
  }

  /** First check: classified data at a public-model node. */
  method ClassificationErrors(order: seq<NodeId>, labels: map<NodeId, SecurityLabel>,
                              bindings: map<NodeId, string>, manifests: map<string, Manifest>)
    returns (errors: seq<CompileError>)
    requires Elems(order) == labels.Keys
    ensures forall e :: e in errors <==>
      && e.kind == RestrictedToPublic && e.nodeId in order
      && PublicConsumer(bindings, manifests, e.nodeId) && labels[e.nodeId].classification != Public
  {
    errors := [];
    for k := 0 to |order|
      invariant forall e :: e in errors <==>
        && e.kind == RestrictedToPublic && e.nodeId in order[..k]
        && PublicConsumer(bindings, manifests, e.nodeId) && labels[e.nodeId].classification != Public
    {
      assert order[..k + 1] == order[..k] + [order[k]];
      var v := order[k];
      assert v in Elems(order);
      var m := BoundManifest(bindings, manifests, v);
      if m.None? {
        continue;
      }
      if m.value.kind != PublicModel {
        continue;
      }
      if labels[v].classification.Rank() > Classification.Public.Rank() {
        if v == PUBLIC_RESEARCH {
          continue;
        }
        errors := errors + [CompileError(RestrictedToPublic, v)];
      }
    }
    assert order[..|order|] == order;
  }

  /** Edges that carry RESTRICTED-trust data from a producer in `producers` into `v`. */
  ghost predicate CarriesRestricted(edges: seq<Edge>, labels: map<NodeId, SecurityLabel>,
                                    producers: seq<NodeId>, v: NodeId) {
    exists u :: u in producers && u in labels && labels[u].sourceTrust == FromRestricted
                && (u, v) in ArcsOf(edges)
  }

  /** Inner loop of the second check: consumers of the RESTRICTED-trust producer `u`. */
  method ConsumersOf(edges: seq<Edge>, u: NodeId, bindings: map<NodeId, string>, manifests: map<string, Manifest>)
    returns (errors: seq<CompileError>)
    ensures forall e :: e in errors <==>
      && e.kind == TrustNotInherited && (u, e.nodeId) in ArcsOf(edges)
      && PublicConsumer(bindings, manifests, e.nodeId)
  {
    errors := [];
    for j := 0 to |edges|
      invariant forall e :: e in errors <==>
        && e.kind == TrustNotInherited && (u, e.nodeId) in ArcsOf(edges[..j])
        && PublicConsumer(bindings, manifests, e.nodeId)
    {
      var e := edges[j];
      ArcsStep(edges, j);
      if e.fromNode != u {
        continue;
      }
      var m := BoundManifest(bindings, manifests, e.toNode);
      if m.None? {
        continue;
      }
      if m.value.kind == PublicModel {
        if e.toNode != PUBLIC_RESEARCH {
          errors := errors + [CompileError(TrustNotInherited, e.toNode)];
        }
      }
    }
    assert edges[..|edges|] == edges;
  }

  lemma ArcsStep(edges: seq<Edge>, j: nat)
    requires j < |edges|
    ensures ArcsOf(edges[..j + 1]) == ArcsOf(edges[..j]) + {(edges[j].fromNode, edges[j].toNode)}
  {
    assert edges[..j + 1] == edges[..j] + [edges[j]];
  }

  /** Second check: RESTRICTED-trust data handed to a public-model consumer. */
  method TrustErrors(edges: seq<Edge>, order: seq<NodeId>, labels: map<NodeId, SecurityLabel>,
                     bindings: map<NodeId, string>, manifests: map<string, Manifest>)
    returns (errors: seq<CompileError>)
    requires Elems(order) == labels.Keys
    ensures forall e :: e in errors <==>
      && e.kind == TrustNotInherited && PublicConsumer(bindings, manifests, e.nodeId)
      && CarriesRestricted(edges, labels, order, e.nodeId)
  {
    errors := [];
    for k := 0 to |order|
      invariant forall e :: e in errors <==>
        && e.kind == TrustNotInherited && PublicConsumer(bindings, manifests, e.nodeId)
        && CarriesRestricted(edges, labels, order[..k], e.nodeId)
    {
      var u := order[k];
      assert u in Elems(order);
      assert order[..k + 1] == order[..k] + [u];
      if labels[u].sourceTrust.Rank() == FromRestricted.Rank() {
        var more := ConsumersOf(edges, u, bindings, manifests);
        errors := errors + more;
      }
    }
    assert order[..|order|] == order;
  }

  /** The whole check. It raises exactly on cyclic graphs; otherwise its errors are
      exactly the expected ones, whatever topological order was used. */
  method Check(g: NormalizedGraph, initial: SecurityLabel,
               bindings: map<NodeId, string>, manifests: map<string, Manifest>)
    returns (r: Result<seq<CompileError>, Kahn.OrderError>)
    requires WellFormed(g)
    ensures r.Ok? <==> Acyclic(g.Arcs())
    ensures r.Ok? ==> forall e :: e in r.value <==> FlowErrorExpected(g, initial, bindings, manifests, e)
  {
    var order := Kahn.TopologicalOrder(g.ids, g.edges);
    if order.Err? {
      return Err(order.error);
    }
    var init := map v | v in g.ids :: initial;
    var labels := Propagate(g, order.value, init);
    var first := ClassificationErrors(order.value, labels, bindings, manifests);
    var second := TrustErrors(g.edges, order.value, labels, bindings, manifests);
    forall v | v in labels
      ensures Erase(labels[v]) == Erase(initial)
    {
      OneInitialLabel(g.ids, g.Arcs(), order.value, init, labels, initial, v);
    }
    FlowErrorsAsExpected(g, order.value, labels, initial, bindings, manifests, first, second);
    return Ok(first + second);
  }

  lemma FlowErrorsAsExpected(g: NormalizedGraph, order: seq<NodeId>, labels: map<NodeId, SecurityLabel>,
                             initial: SecurityLabel, bindings: map<NodeId, string>,
                             manifests: map<string, Manifest>,
                             first: seq<CompileError>, second: seq<CompileError>)
    requires WellFormed(g) && Elems(order) == Elems(g.ids) == labels.Keys
    requires forall v :: v in labels ==> Erase(labels[v]) == Erase(initial)
    requires forall e :: e in first <==>
      && e.kind == RestrictedToPublic && e.nodeId in order
      && PublicConsumer(bindings, manifests, e.nodeId) && labels[e.nodeId].classification != Public
    requires forall e :: e in second <==>
      && e.kind == TrustNotInherited && PublicConsumer(bindings, manifests, e.nodeId)
      && CarriesRestricted(g.edges, labels, order, e.nodeId)
    ensures forall e :: e in first + second <==> FlowErrorExpected(g, initial, bindings, manifests, e)
  {
    forall v | v in labels
      ensures labels[v].classification == initial.classification
      ensures labels[v].sourceTrust == initial.sourceTrust
    {
      assert labels[v].classification == Erase(labels[v]).classification;
      assert labels[v].sourceTrust == Erase(labels[v]).sourceTrust;
    }
    assert forall v :: v in order <==> v in Elems(order);
    assert forall v :: v in g.ids <==> v in Elems(g.ids);
    forall v
      ensures CarriesRestricted(g.edges, labels, order, v) <==>
        initial.sourceTrust == FromRestricted && v in g.ids && HasPredecessor(g.Arcs(), v)
    {
      forall u | (u, v) in g.Arcs()
        ensures u in order && v in g.ids
      {
        var e :| e in g.edges && (u, v) == (e.fromNode, e.toNode);
      }
    }
  }
}
