/** Resolver and compiler end to end: what is left to reject once bindings were resolved. */
module Pipeline {
  import opened Prelude
  import opened Graphs
  import opened Schema
  import opened FrontEnd
  import opened InfoFlow
  import opened Gates
  import opened Registry
  import opened Resolver
  import opened Compiler

  ghost predicate DistinctNodeIds(t: TaskTemplate) {
    forall i, j :: 0 <= i < j < |t.nodes| ==> t.nodes[i].nodeId != t.nodes[j].nodeId
  }

  /** A resolution in which the default policy, not a fallback, chose every non-human binding. */
  ghost predicate ResolvedByPolicy(t: TaskTemplate, purpose: string, s: Setting, r: ResolverResult)
    requires Parseable(t)
  {
    var g := GraphOf(t, purpose);
    && UniqueIds(s.store)
    && IsDefaultPolicy(s.rules)
    && (s.template == None || s.template == Some(t))
    && IsResolution(s, g, r) && r.ok
    && forall v :: v in g.nodes && Human !in g.nodes[v].node.kinds ==> BoundByPolicy(s, g, v)
  }

  /** What policy routing does not look at. The last two clauses concern nodes for which the
      router found a specification that declares more effects than the compiled one, and human
      nodes when the store registers a manifest under the id of the human approver. */
  ghost predicate ResidualChecks(t: TaskTemplate, purpose: string, s: Setting, r: ResolverResult, v: NodeId)
    requires v in LastSpecs(t.nodes)
  {
    var n, m := SpecOf(t, v), BoundManifest(r.bindings, ById(s.store), v);
    && (n.HighRisk() ==> TemplateGates(t, v))
    && n.purpose == purpose
    && (PublicConsumer(r.bindings, ById(s.store), v) ==>
          && s.query.dataLabel.classification != Partner
          && !(s.query.dataLabel.sourceTrust == FromRestricted && HasPredecessor(ArcsOf(t.edges), v)))
    && (RoutedExceeds(s, n) && m.Some? ==> !Escalates(m.value, n))
    && (Human in n.kinds && m.Some? ==>
          && !Escalates(m.value, n)
          && (PublicConsumer(r.bindings, ById(s.store), v) ==> s.query.dataLabel.classification == Public))
  }

  lemma NodeResidual(t: TaskTemplate, purpose: string, s: Setting, r: ResolverResult, v: NodeId)
    requires Parseable(t) && ResolvedByPolicy(t, purpose, s, r) && v in LastSpecs(t.nodes)
    ensures NodeAccepted(t, purpose, s.query.dataLabel, r.bindings, ById(s.store), v)
       <==> ResidualChecks(t, purpose, s, r, v)
  {
    var g := GraphOf(t, purpose);
    NodeOfGraph(t, purpose, v);
    if Human in SpecOf(t, v).kinds {
      HumanResidual(t, purpose, s, r, v);
    } else {
      PolicyNodeResidual(t, purpose, s, r, v, g);
    }
  }

  lemma NodeOfGraph(t: TaskTemplate, purpose: string, v: NodeId)
    requires Parseable(t) && v in LastSpecs(t.nodes)
    ensures var g := GraphOf(t, purpose);
      WellFormed(g) && v in g.ids && v in g.nodes && g.nodes[v].node == SpecOf(t, v)
  {
    GraphShape(t, purpose);
    assert v in Elems(GraphOf(t, purpose).ids);
  }

  lemma HumanResidual(t: TaskTemplate, purpose: string, s: Setting, r: ResolverResult, v: NodeId)
    requires v in LastSpecs(t.nodes) && Human in SpecOf(t, v).kinds
    ensures NodeAccepted(t, purpose, s.query.dataLabel, r.bindings, ById(s.store), v)
       <==> ResidualChecks(t, purpose, s, r, v)
  {
  }

  lemma PolicyNodeResidual(t: TaskTemplate, purpose: string, s: Setting, r: ResolverResult, v: NodeId,
                           g: NormalizedGraph)
    requires UniqueIds(s.store) && WellFormed(g) && IsResolution(s, g, r) && IsDefaultPolicy(s.rules)
    requires BoundByPolicy(s, g, v) && v in LastSpecs(t.nodes) && g.nodes[v].node == SpecOf(t, v)
    ensures NodeAccepted(t, purpose, s.query.dataLabel, r.bindings, ById(s.store), v)
       <==> ResidualChecks(t, purpose, s, r, v)
  {
    PolicyBindingManifest(s, g, r, v);
    PolicyBindingEscalation(s, g, r, v);
    PolicyBindingLeaksOnlyPartner(s, g, r, v);
    assert v in Elems(g.ids);
  }

  /** A template resolved by policy compiles exactly when the checks policy does not make
      succeed at every node. */
  lemma ResolvedTemplateCompiles(t: TaskTemplate, purpose: string, s: Setting, r: ResolverResult)
    requires Parseable(t) && ResolvedByPolicy(t, purpose, s, r)
    ensures Accepted(t, purpose, s.query.dataLabel, r.bindings, ById(s.store)) <==>
      forall v :: v in LastSpecs(t.nodes) ==> ResidualChecks(t, purpose, s, r, v)
  {
    forall v | v in LastSpecs(t.nodes) {
      NodeResidual(t, purpose, s, r, v);
    }
  }

  /** With distinct node ids the router sees the specifications that are compiled. */
  lemma DistinctIdsNeverExceed(t: TaskTemplate, s: Setting, v: NodeId)
    requires DistinctNodeIds(t) && v in LastSpecs(t.nodes) && (s.template == None || s.template == Some(t))
    ensures !RoutedExceeds(s, SpecOf(t, v))
  {
    DictionaryShape(t.nodes);
    SpecsAgree(s, SpecOf(t, v));
  }

  /** If no manifest is registered under the id of the human approver, the clause on human
      nodes is void. */
  lemma UnregisteredApproverIsFree(t: TaskTemplate, purpose: string, s: Setting, r: ResolverResult, v: NodeId)
    requires Parseable(t) && ResolvedByPolicy(t, purpose, s, r) && v in LastSpecs(t.nodes)
    requires HUMAN_APPROVER !in ById(s.store) && Human in SpecOf(t, v).kinds
    ensures BoundManifest(r.bindings, ById(s.store), v).None?
  {
    GraphShape(t, purpose);
    var g := GraphOf(t, purpose);
    assert v in Elems(g.ids) && IsBound(s, g, v);
    assert BindingAt(s, g, g.ids, r, v);
  }

  // ---- Repeated node ids ----

  /** Two tool specifications of one node id, of which only the first may write, and a store
      whose only manifest writes. */
  ghost predicate RepeatedIdCase(t: TaskTemplate, purpose: string, s: Setting, m: Manifest) {
    && |t.nodes| == 2 && t.edges == [] && t.requiredPurposes == []
    && t.nodes[1] == t.nodes[0].(effects := [])
    && t.nodes[0].kinds == [Tool] && t.nodes[0].effects == [Write] && t.nodes[0].fallback == None
    && t.nodes[0].purpose == purpose
    && s.store == [m] && m.kind == Tool && m.effects == [Write]
    && m.capabilityId != "" && m.capabilityId != HUMAN_APPROVER
    && IsDefaultPolicy(s.rules) && s.template == Some(t)
    && s.query.dataLabel.residency == LOCAL && s.query.budgetUsd >= 0.0
  }

  /** The compiler keeps the last specification of a repeated id, the router finds the first:
      the resolution succeeds by policy and the compiler rejects it for escalation. */
  lemma RepeatedIdEscalates(t: TaskTemplate, purpose: string, s: Setting, m: Manifest) returns (r: ResolverResult)
    requires RepeatedIdCase(t, purpose, s, m)
    ensures Parseable(t) && ResolvedByPolicy(t, purpose, s, r)
    ensures ErrorExpected(GraphOf(t, purpose), purpose, s.query.dataLabel, r.bindings, ById(s.store),
                          CompileError(EffectEscalation, t.nodes[0].nodeId))
  {
    RepeatedIdShape(t);
    var g, v := GraphOf(t, purpose), t.nodes[0].nodeId;
    NodeOfGraph(t, purpose, v);
    GraphShape(t, purpose);
    r := ResolutionExists(s, g);
    RepeatedIdBinds(t, s, m, g);
    RepeatedIdRejected(t, s, m, g, r);
    SoleNodeResolved(t, purpose, s, r, v);
  }

  /** A template of one node id, bound by policy, is resolved by policy. */
  lemma SoleNodeResolved(t: TaskTemplate, purpose: string, s: Setting, r: ResolverResult, v: NodeId)
    requires Parseable(t) && UniqueIds(s.store) && IsDefaultPolicy(s.rules) && s.template == Some(t)
    requires var g := GraphOf(t, purpose);
      g.nodes.Keys == {v} && IsResolution(s, g, r) && BoundByPolicy(s, g, v)
    ensures ResolvedByPolicy(t, purpose, s, r)
  {
  }

  lemma RepeatedIdRejected(t: TaskTemplate, s: Setting, m: Manifest, g: NormalizedGraph, r: ResolverResult)
    requires RepeatedIdCase(t, g.purpose, s, m) && WellFormed(g) && IsResolution(s, g, r) && UniqueIds(s.store)
    requires BoundByPolicy(s, g, t.nodes[0].nodeId) && g.nodes[t.nodes[0].nodeId].node == t.nodes[1]
    requires RoutedNode(s, g, t.nodes[1]).choice.entry == EntryOf(m)
    ensures EffectErrorExpected(g, r.bindings, ById(s.store), CompileError(EffectEscalation, t.nodes[0].nodeId))
  {
    assert Write in m.effects && Write !in t.nodes[1].effects;
    PolicyBindingEscalation(s, g, r, t.nodes[0].nodeId);
  }

  lemma RepeatedIdBinds(t: TaskTemplate, s: Setting, m: Manifest, g: NormalizedGraph)
    requires RepeatedIdCase(t, g.purpose, s, m) && g.nodes.Keys == {t.nodes[0].nodeId}
    requires g.nodes[t.nodes[0].nodeId].node == t.nodes[1]
    ensures BoundByPolicy(s, g, t.nodes[0].nodeId)
    ensures RoutedNode(s, g, t.nodes[1]).choice.entry == EntryOf(m)
  {
    var q := s.query.(purpose := g.purpose);
    assert RoutedSpec(s, t.nodes[1]) == Some(t.nodes[0]);
    assert DefaultAllows(PolicyRequest(t.nodes[0], m, q));
    SoleManifestBinds(s, g, t.nodes[0].nodeId, t.nodes[0], m);
  }

  lemma RepeatedIdShape(t: TaskTemplate)
    requires |t.nodes| == 2 && t.edges == [] && t.requiredPurposes == [] && t.nodes[0].nodeId == t.nodes[1].nodeId
    ensures Parseable(t) && LastSpecs(t.nodes) == map[t.nodes[0].nodeId := t.nodes[1]]
  {
    assert t.nodes[..1][..0] == [] && t.nodes[..1] == [t.nodes[0]];
    assert LastSpecs(t.nodes[..1]) == map[t.nodes[0].nodeId := t.nodes[0]];
    assert IsTopological(FirstIds(t.nodes), ArcsOf(t.edges), FirstIds(t.nodes)) by {
      DictionaryShape(t.nodes);
    }
    TopologicalIsAcyclic(FirstIds(t.nodes), ArcsOf(t.edges), FirstIds(t.nodes));
  }
}
