/** The trust compiler: parse, normalize, then every checker, errors accumulated. */
module Compiler {
  import opened Prelude
  import opened Graphs
  import opened Schema
  import opened FrontEnd
  import opened InfoFlow
  import opened Gates

  /** A parse failure is not returned as a result: the handler that should build one
      names an enumeration it does not import, so the call raises. */
  datatype CompileOutcome =
    | Raised
    | Completed(ok: bool, errors: seq<CompileError>, graph: Option<NormalizedGraph>)

  /** Flags every node whose purpose differs from the task's. */
  method DelegationCheck(g: NormalizedGraph, purpose: string) returns (errors: seq<CompileError>)
    requires WellFormed(g)
    ensures forall e :: e in errors <==>
      e.kind == PurposeEscalation && e.nodeId in g.nodes && g.nodes[e.nodeId].node.purpose != purpose
  {
    errors := [];
    for i := 0 to |g.ids|
      invariant forall e :: e in errors <==>
        e.kind == PurposeEscalation && e.nodeId in g.ids[..i] && g.nodes[e.nodeId].node.purpose != purpose
    {
      var v := g.ids[i];
      assert v in Elems(g.ids);
      assert g.ids[..i + 1] == g.ids[..i] + [v];
      if g.nodes[v].node.purpose != purpose {
        errors := errors + [CompileError(PurposeEscalation, v)];
      }
    }
    assert g.ids[..|g.ids|] == g.ids;
    assert forall v :: v in g.ids <==> v in Elems(g.ids);
  }

  // ---- The verdict, stated on the template alone ----

  ghost function SpecOf(t: TaskTemplate, v: NodeId): NodeSpec
    requires v in LastSpecs(t.nodes)
  {
    LastSpecs(t.nodes)[v]
  }

  /** An approval node of the template reaches `v` along the template's own edges. */
  ghost predicate TemplateGates(t: TaskTemplate, v: NodeId) {
    exists gate :: gate in LastSpecs(t.nodes) && SpecOf(t, gate).requiresApproval
                   && Reaches(ArcsOf(t.edges), gate, v)
  }

  ghost predicate NodeAccepted(t: TaskTemplate, purpose: string, initial: SecurityLabel,
                               bindings: map<NodeId, string>, manifests: map<string, Manifest>, v: NodeId)
    requires v in LastSpecs(t.nodes)
  {
    var n := SpecOf(t, v);
    var m := BoundManifest(bindings, manifests, v);
    && (n.HighRisk() ==> TemplateGates(t, v))
    && (m.Some? ==> forall k :: k in m.value.effects ==> k in n.effects)
    && (PublicConsumer(bindings, manifests, v) ==>
          && initial.classification == Public
          && (initial.sourceTrust == FromRestricted ==> !HasPredecessor(ArcsOf(t.edges), v)))
    && n.purpose == purpose
  }

  ghost predicate Accepted(t: TaskTemplate, purpose: string, initial: SecurityLabel,
                           bindings: map<NodeId, string>, manifests: map<string, Manifest>) {
    && Parseable(t)
    && forall v :: v in LastSpecs(t.nodes) ==> NodeAccepted(t, purpose, initial, bindings, manifests, v)
  }

  /** The graph a parseable template compiles to. */
  ghost function GraphOf(t: TaskTemplate, purpose: string): NormalizedGraph
    requires EndpointsKnown(t)
  {
    DictionaryShape(t.nodes);
    Normalized(CandidateGraph(t.templateId, FirstIds(t.nodes), LastSpecs(t.nodes), t.edges, purpose))
  }

  lemma GraphShape(t: TaskTemplate, purpose: string)
    requires EndpointsKnown(t)
    ensures var g := GraphOf(t, purpose);
      && WellFormed(g) && g.Arcs() == ArcsOf(t.edges)
      && g.nodes.Keys == LastSpecs(t.nodes).Keys
      && forall v :: v in g.nodes ==> g.nodes[v].node == LastSpecs(t.nodes)[v]
  {
    DictionaryShape(t.nodes);
    NormalizedIsWellFormed(CandidateGraph(t.templateId, FirstIds(t.nodes), LastSpecs(t.nodes), t.edges, purpose));
  }

  ghost predicate ErrorExpected(g: NormalizedGraph, purpose: string, initial: SecurityLabel,
                                bindings: map<NodeId, string>, manifests: map<string, Manifest>,
                                e: CompileError) {
    || (e.kind == HighRiskWithoutApproval && Ungated(g, e.nodeId))
    || FlowErrorExpected(g, initial, bindings, manifests, e)
    || EffectErrorExpected(g, bindings, manifests, e)
    || (e.kind == PurposeEscalation && e.nodeId in g.nodes && g.nodes[e.nodeId].node.purpose != purpose)
  }

  lemma SameGates(t: TaskTemplate, purpose: string, v: NodeId)
    requires EndpointsKnown(t)
    ensures Gated(GraphOf(t, purpose), v) <==> TemplateGates(t, v)
  {
    GraphShape(t, purpose);
    var g := GraphOf(t, purpose);
    if gate :| GateCovers(g, gate, v) {
      assert gate in LastSpecs(t.nodes) && SpecOf(t, gate).requiresApproval;
    }
    if gate :| gate in LastSpecs(t.nodes) && SpecOf(t, gate).requiresApproval
               && Reaches(ArcsOf(t.edges), gate, v) {
      assert GateCovers(g, gate, v);
    }
  }

  /** Each kind of error at a node, read off the template. */
  lemma ExpectedAtNode(t: TaskTemplate, purpose: string, initial: SecurityLabel,
                       bindings: map<NodeId, string>, manifests: map<string, Manifest>,
                       v: NodeId, kind: ErrorKind)
    requires EndpointsKnown(t) && v in LastSpecs(t.nodes)
    ensures ErrorExpected(GraphOf(t, purpose), purpose, initial, bindings, manifests, CompileError(kind, v)) <==>
      var n, m := SpecOf(t, v), BoundManifest(bindings, manifests, v);
      match kind
      case HighRiskWithoutApproval => n.HighRisk() && !TemplateGates(t, v)
      case EffectEscalation => m.Some? && Escalates(m.value, n)
      case RestrictedToPublic => PublicConsumer(bindings, manifests, v) && initial.classification != Public
      case TrustNotInherited =>
        PublicConsumer(bindings, manifests, v) && initial.sourceTrust == FromRestricted
        && HasPredecessor(ArcsOf(t.edges), v)
      case PurposeEscalation => n.purpose != purpose
      case _ => false
  {
    GraphShape(t, purpose);
    SameGates(t, purpose, v);
    var g := GraphOf(t, purpose);
    assert v in Elems(g.ids);
    assert g.nodes[v].node == SpecOf(t, v);
  }

  /** A node is free of expected errors exactly when it satisfies the template-level verdict. */
  lemma NoErrorAtNode(t: TaskTemplate, purpose: string, initial: SecurityLabel,
                      bindings: map<NodeId, string>, manifests: map<string, Manifest>, v: NodeId)
    requires EndpointsKnown(t) && v in LastSpecs(t.nodes)
    ensures NodeAccepted(t, purpose, initial, bindings, manifests, v) <==>
      forall kind :: !ErrorExpected(GraphOf(t, purpose), purpose, initial, bindings, manifests, CompileError(kind, v))
  {
    forall kind {
      ExpectedAtNode(t, purpose, initial, bindings, manifests, v, kind);
    }
    var g := GraphOf(t, purpose);
    if NodeAccepted(t, purpose, initial, bindings, manifests, v) {
      forall kind
        ensures !ErrorExpected(g, purpose, initial, bindings, manifests, CompileError(kind, v))
      {
      }
    } else {
      var kind := FailedKind(t, purpose, initial, bindings, manifests, v);
      assert ErrorExpected(g, purpose, initial, bindings, manifests, CompileError(kind, v));
    }
  }

  /** The first clause a rejected node violates. */
  ghost function FailedKind(t: TaskTemplate, purpose: string, initial: SecurityLabel,
                            bindings: map<NodeId, string>, manifests: map<string, Manifest>, v: NodeId): ErrorKind
    requires v in LastSpecs(t.nodes)
  {
    var n, m := SpecOf(t, v), BoundManifest(bindings, manifests, v);
    if n.HighRisk() && !TemplateGates(t, v) then HighRiskWithoutApproval
    else if m.Some? && Escalates(m.value, n) then EffectEscalation
    else if n.purpose != purpose then PurposeEscalation
    else if initial.classification != Public then RestrictedToPublic
    else TrustNotInherited
  }

  lemma AcceptedMeansNoError(t: TaskTemplate, purpose: string, initial: SecurityLabel,
                             bindings: map<NodeId, string>, manifests: map<string, Manifest>)
    requires Parseable(t)
    ensures Accepted(t, purpose, initial, bindings, manifests) <==>
      forall e :: !ErrorExpected(GraphOf(t, purpose), purpose, initial, bindings, manifests, e)
  {
    var g := GraphOf(t, purpose);
    GraphShape(t, purpose);
    assert forall v :: v in g.ids <==> v in Elems(g.ids);
    forall v | v in LastSpecs(t.nodes) {
      NoErrorAtNode(t, purpose, initial, bindings, manifests, v);
    }
    forall e | ErrorExpected(g, purpose, initial, bindings, manifests, e)
      ensures e.nodeId in LastSpecs(t.nodes)
      ensures e == CompileError(e.kind, e.nodeId)
    {
    }
  }

  // ---- The verdict, spelled out ----

  /** The node declares an effect other than reading and notifying, and no node that requires
      approval reaches it along the template's edges. */
  ghost predicate LacksApproval(t: TaskTemplate, v: NodeId) {
    && v in LastSpecs(t.nodes)
    && (exists k :: k in LastSpecs(t.nodes)[v].effects && k != Read && k != Notify)
    && forall gate :: gate in LastSpecs(t.nodes) && LastSpecs(t.nodes)[gate].requiresApproval ==>
         !Reaches(ArcsOf(t.edges), gate, v)
  }

  /** Manifest `m` may serve the node: it adds no effect, and if it is a public model only
      PUBLIC data gets there, and no data of RESTRICTED origin from another node. */
  ghost predicate MayServe(t: TaskTemplate, initial: SecurityLabel, v: NodeId, m: Manifest)
    requires v in LastSpecs(t.nodes)
  {
    && (forall k :: k in m.effects ==> k in LastSpecs(t.nodes)[v].effects)
    && (m.kind == PublicModel && v != "public_research" ==>
          && initial.classification == Public
          && (initial.sourceTrust == FromRestricted ==> forall u :: (u, v) !in ArcsOf(t.edges)))
  }

  ghost predicate PassesAt(t: TaskTemplate, purpose: string, initial: SecurityLabel,
                           bindings: map<NodeId, string>, manifests: map<string, Manifest>, v: NodeId)
    requires v in LastSpecs(t.nodes)
  {
    && !LacksApproval(t, v)
    && LastSpecs(t.nodes)[v].purpose == purpose
    && (v in bindings && bindings[v] != "" && bindings[v] in manifests ==>
          MayServe(t, initial, v, manifests[bindings[v]]))
  }

  lemma LacksApprovalMeans(t: TaskTemplate, v: NodeId)
    requires v in LastSpecs(t.nodes)
    ensures LacksApproval(t, v) <==> SpecOf(t, v).HighRisk() && !TemplateGates(t, v)
  {
    HighRiskMeans(SpecOf(t, v));
  }

  /** The verdict at a node, in terms of the template, the bindings and the manifests alone. */
  lemma NodeVerdict(t: TaskTemplate, purpose: string, initial: SecurityLabel,
                    bindings: map<NodeId, string>, manifests: map<string, Manifest>, v: NodeId)
    requires v in LastSpecs(t.nodes)
    ensures NodeAccepted(t, purpose, initial, bindings, manifests, v) <==>
      PassesAt(t, purpose, initial, bindings, manifests, v)
  {
    LacksApprovalMeans(t, v);
  }

  /** A node without approval is rejected and reported, whatever else holds; no other node is. */
  lemma UnapprovedIsReported(t: TaskTemplate, purpose: string, initial: SecurityLabel,
                             bindings: map<NodeId, string>, manifests: map<string, Manifest>, v: NodeId)
    requires EndpointsKnown(t)
    ensures var e := CompileError(HighRiskWithoutApproval, v);
      ErrorExpected(GraphOf(t, purpose), purpose, initial, bindings, manifests, e) <==> LacksApproval(t, v)
    ensures LacksApproval(t, v) ==> !Accepted(t, purpose, initial, bindings, manifests)
  {
    GraphShape(t, purpose);
    if v in LastSpecs(t.nodes) {
      LacksApprovalMeans(t, v);
      ExpectedAtNode(t, purpose, initial, bindings, manifests, v, HighRiskWithoutApproval);
    }
  }

  /** The whole template parses and every node passes. */
  ghost predicate Passes(t: TaskTemplate, purpose: string, initial: SecurityLabel,
                         bindings: map<NodeId, string>, manifests: map<string, Manifest>) {
    && Parseable(t)
    && forall v :: v in LastSpecs(t.nodes) ==> PassesAt(t, purpose, initial, bindings, manifests, v)
  }

  lemma VerdictMeans(t: TaskTemplate, purpose: string, initial: SecurityLabel,
                     bindings: map<NodeId, string>, manifests: map<string, Manifest>)
    ensures Accepted(t, purpose, initial, bindings, manifests) <==> Passes(t, purpose, initial, bindings, manifests)
  {
    forall v | v in LastSpecs(t.nodes) {
      NodeVerdict(t, purpose, initial, bindings, manifests, v);
    }
  }

  /** Exactly the nodes without approval are reported as such. */
  ghost predicate UnapprovedReported(t: TaskTemplate, errors: seq<CompileError>) {
    forall v :: CompileError(HighRiskWithoutApproval, v) in errors <==> LacksApproval(t, v)
  }

  lemma ReportsUnapproved(t: TaskTemplate, purpose: string, initial: SecurityLabel,
                          bindings: map<NodeId, string>, manifests: map<string, Manifest>,
                          errors: seq<CompileError>)
    requires EndpointsKnown(t)
    requires forall e :: e in errors <==>
      ErrorExpected(GraphOf(t, purpose), purpose, initial, bindings, manifests, e)
    ensures UnapprovedReported(t, errors)
  {
    forall v
      ensures CompileError(HighRiskWithoutApproval, v) in errors <==> LacksApproval(t, v)
    {
      UnapprovedIsReported(t, purpose, initial, bindings, manifests, v);
    }
  }

  /** Every ungated high-risk node is reported once, or twice if it is bound to a known manifest. */
  ghost predicate ApprovalsReported(g: NormalizedGraph, bindings: map<NodeId, string>,
                                    manifests: map<string, Manifest>, errors: seq<CompileError>) {
    forall v :: ReportedAsExpected(g, bindings, manifests, errors, v)
  }

  ghost predicate ReportedAsExpected(g: NormalizedGraph, bindings: map<NodeId, string>,
                                     manifests: map<string, Manifest>, errors: seq<CompileError>, v: NodeId) {
    multiset(errors)[CompileError(HighRiskWithoutApproval, v)] == ApprovalReports(g, bindings, manifests, v)
  }

  lemma MergedReports(g: NormalizedGraph, bindings: map<NodeId, string>, manifests: map<string, Manifest>,
                      approval: seq<CompileError>, flow: seq<CompileError>, effect: seq<CompileError>,
                      delegation: seq<CompileError>)
    requires Distinct(approval) && Distinct(effect)
    requires forall e :: e in approval <==> e.kind == HighRiskWithoutApproval && Ungated(g, e.nodeId)
    requires forall e :: e in effect <==> EffectErrorExpected(g, bindings, manifests, e)
    requires forall e :: e in flow || e in delegation ==> e.kind != HighRiskWithoutApproval
    ensures ApprovalsReported(g, bindings, manifests, approval + flow + effect + delegation)
  {
    var all := approval + flow + effect + delegation;
    forall v
      ensures ReportedAsExpected(g, bindings, manifests, all, v)
    {
      var e := CompileError(HighRiskWithoutApproval, v);
      ApprovalRuleTwice(g, bindings, manifests, approval, effect, v);
      assert multiset(all) == multiset(approval + effect) + multiset(flow) + multiset(delegation);
      assert e !in flow && e !in delegation;
    }
  }

  lemma MergedErrors(g: NormalizedGraph, purpose: string, initial: SecurityLabel, bindings: map<NodeId, string>,
                     manifests: map<string, Manifest>, approval: seq<CompileError>, flow: seq<CompileError>,
                     effect: seq<CompileError>, delegation: seq<CompileError>)
    requires forall e :: e in approval <==> e.kind == HighRiskWithoutApproval && Ungated(g, e.nodeId)
    requires forall e :: e in flow <==> FlowErrorExpected(g, initial, bindings, manifests, e)
    requires forall e :: e in effect <==> EffectErrorExpected(g, bindings, manifests, e)
    requires forall e :: e in delegation <==>
      e.kind == PurposeEscalation && e.nodeId in g.nodes && g.nodes[e.nodeId].node.purpose != purpose
    ensures forall e :: e in approval + flow + effect + delegation <==>
      ErrorExpected(g, purpose, initial, bindings, manifests, e)
  {
    forall e
      ensures e in approval + flow + effect + delegation <==>
        ErrorExpected(g, purpose, initial, bindings, manifests, e)
    {
      assert e in approval + flow + effect + delegation <==>
        e in approval || e in flow || e in effect || e in delegation;
    }
  }

  /** The compiler accepts exactly the templates whose verdict, stated on the template's
      own nodes and edges, is positive; after a successful parse nothing raises, and the
      errors reported are exactly the expected ones. */
  method Compile(t: TaskTemplate, purpose: string, initial: SecurityLabel,
                 bindings: map<NodeId, string>, manifests: map<string, Manifest>)
    returns (r: CompileOutcome)
    ensures r.Raised? <==> !Parseable(t)
    ensures r.Completed? && r.ok <==> Accepted(t, purpose, initial, bindings, manifests)
    ensures r.Completed? && r.ok <==> Passes(t, purpose, initial, bindings, manifests)
    ensures r.Completed? ==> UnapprovedReported(t, r.errors)
    ensures r.Completed? ==> forall e :: e in r.errors <==>
      ErrorExpected(GraphOf(t, purpose), purpose, initial, bindings, manifests, e)
    ensures r.Completed? ==> ApprovalsReported(GraphOf(t, purpose), bindings, manifests, r.errors)
    ensures r.Completed? ==> r.graph == if r.ok then Some(GraphOf(t, purpose)) else None
  {
    var candidate := Parse(t, purpose);
    if candidate.Err? {
      return Raised;
    }
    DictionaryShape(t.nodes);
    GraphShape(t, purpose);
    var g := Normalize(candidate.value);
    var errors := TypeCheck(g);
    var flow := InfoFlow.Check(g, initial, bindings, manifests);
    var effect := EffectCheck(g, bindings, manifests);
    var delegation := DelegationCheck(g, purpose);
    var all := errors + flow.value + effect + delegation;
    MergedReports(g, bindings, manifests, errors, flow.value, effect, delegation);
    MergedErrors(g, purpose, initial, bindings, manifests, errors, flow.value, effect, delegation);
    errors := all;
    AcceptedMeansNoError(t, purpose, initial, bindings, manifests);
    VerdictMeans(t, purpose, initial, bindings, manifests);
    ReportsUnapproved(t, purpose, initial, bindings, manifests, errors);
    if errors != [] {
      assert errors[0] in errors;
      return Completed(false, errors, None);
    }
    return Completed(true, [], Some(g));
  }
}
