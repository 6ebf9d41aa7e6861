/** Approval-gate coverage, and the type and effect checkers built on it. */
module Gates {
  import opened Prelude
  import opened Graphs
  import opened Schema
  import opened FrontEnd
  import opened InfoFlow

  /** High risk means writing, deleting, paying or publishing; reading and notifying never are. */
  lemma HighRiskMeans(n: NodeSpec)
    ensures n.HighRisk() <==> Write in n.effects || Delete in n.effects || Payment in n.effects || Publish in n.effects
    ensures n.HighRisk() <==> exists k :: k in n.effects && k != Read && k != Notify
  {
    if k :| k in n.effects && k != Read && k != Notify {
      assert k in HIGH_RISK;
    }
  }

  /** An effect that changes something outside the run, which no approval node covers. */
  ghost predicate RunsUngated(g: NormalizedGraph, v: NodeId, k: EffectKind) {
    && v in g.nodes && k in g.nodes[v].node.effects && k != Read && k != Notify
    && forall gate :: gate in g.nodes && g.nodes[gate].node.requiresApproval ==> !Reaches(g.Arcs(), gate, v)
  }

  lemma UngatedMeans(g: NormalizedGraph, v: NodeId)
    ensures Ungated(g, v) <==> exists k :: RunsUngated(g, v, k)
  {
    if v in g.nodes {
      HighRiskMeans(g.nodes[v].node);
    }
    if Ungated(g, v) {
      var k :| k in g.nodes[v].node.effects && k != Read && k != Notify;
      forall gate | gate in g.nodes && g.nodes[gate].node.requiresApproval
        ensures !Reaches(g.Arcs(), gate, v)
      {
        assert !GateCovers(g, gate, v);
      }
      assert RunsUngated(g, v, k);
    }
    if k :| RunsUngated(g, v, k) {
      forall gate
        ensures !GateCovers(g, gate, v)
      {
      }
    }
  }

  /** Some node that requires approval reaches `v`. */
  ghost predicate GateCovers(g: NormalizedGraph, gate: NodeId, v: NodeId) {
    gate in g.nodes && g.nodes[gate].node.requiresApproval && Reaches(g.Arcs(), gate, v)
  }

  ghost predicate Gated(g: NormalizedGraph, v: NodeId) {
    exists gate :: GateCovers(g, gate, v)
  }

  ghost predicate Ungated(g: NormalizedGraph, v: NodeId) {
    v in g.nodes && g.nodes[v].node.HighRisk() && !Gated(g, v)
  }

  /** One step of the worklist: successors of `cur` go on the stack, duplicates included. */
  method PushSuccessors(edges: seq<Edge>, cur: NodeId, stack: seq<NodeId>) returns (s: seq<NodeId>)
    ensures forall x :: x in s <==> x in stack || (cur, x) in ArcsOf(edges)
  {
    s := stack;
    for j := 0 to |edges|
      invariant forall x :: x in s <==> x in stack || (cur, x) in ArcsOf(edges[..j])
    {
      ArcsStep(edges, j);
      if edges[j].fromNode == cur {
        s := s + [edges[j].toNode];
      }
    }
    assert edges[..|edges|] == edges;
  }

  /** The worklist search computes exactly the nodes reachable from the gate,
      on every graph, cyclic ones included. */
  method Covered(edges: seq<Edge>, gate: NodeId) returns (covered: set<NodeId>)
    ensures forall v :: v in covered <==> Reaches(ArcsOf(edges), gate, v)
  {
    ghost var arcs := ArcsOf(edges);
    ghost var universe := {gate} + set e | e in edges :: e.toNode;
    covered := {};
    var stack := [gate];
    ReachesSelf(arcs, gate);
    while stack != []
      invariant forall v :: v in stack || v in covered ==> v in universe && Reaches(arcs, gate, v)
      invariant gate in stack || gate in covered
      invariant forall a, b :: a in covered && (a, b) in arcs ==> b in covered || b in stack
      decreases universe - covered, |stack|
    {
      var cur := stack[|stack| - 1];
      assert stack == stack[..|stack| - 1] + [cur];
      stack := stack[..|stack| - 1];
      if cur in covered {
        continue;
      }
      covered := covered + {cur};
      forall x | (cur, x) in arcs
        ensures x in universe && Reaches(arcs, gate, x)
      {
        ReachesStep(arcs, gate, cur, x);
      }
      stack := PushSuccessors(edges, cur, stack);
    }
    forall v | Reaches(arcs, gate, v)
      ensures v in covered
    {
      ClosedKeepsPaths(arcs, covered, gate, v);
    }
  }

  /** Coverage of every gate, as both checkers build it. */
  method GateMap(g: NormalizedGraph) returns (gates: map<NodeId, set<NodeId>>)
    requires WellFormed(g)
    ensures forall v :: (exists k :: k in gates && v in gates[k]) <==> Gated(g, v)
  {
    gates := map[];
    for i := 0 to |g.ids|
      invariant forall k :: k in gates <==> k in g.ids[..i] && g.nodes[k].node.requiresApproval
      invariant forall k :: k in gates ==> forall v :: v in gates[k] <==> Reaches(g.Arcs(), k, v)
    {
      var v := g.ids[i];
      assert v in Elems(g.ids);
      assert g.ids[..i + 1] == g.ids[..i] + [v];
      if g.nodes[v].node.requiresApproval {
        var covered := Covered(g.edges, v);
        gates := gates[v := covered];
      }
    }
    assert g.ids[..|g.ids|] == g.ids;
    forall v
      ensures (exists k :: k in gates && v in gates[k]) <==> Gated(g, v)
    {
      if k :| k in gates && v in gates[k] {
        assert k in Elems(g.ids);
        assert GateCovers(g, k, v);
      }
      if k :| GateCovers(g, k, v) {
        assert k in Elems(g.ids);
        assert k in gates && v in gates[k];
      }
    }
  }

  /** Flags a node iff it declares a high-risk effect and no approval node reaches it. */
  method TypeCheck(g: NormalizedGraph) returns (errors: seq<CompileError>)
    requires WellFormed(g)
    ensures Distinct(errors)
    ensures forall e :: e in errors <==> e.kind == HighRiskWithoutApproval && Ungated(g, e.nodeId)
    ensures forall v :: CompileError(HighRiskWithoutApproval, v) in errors <==> exists k :: RunsUngated(g, v, k)
  {
    var gates := GateMap(g);
    forall v { UngatedMeans(g, v); }
    errors := [];
    for i := 0 to |g.ids|
      invariant Distinct(errors)
      invariant forall e :: e in errors <==>
        e.kind == HighRiskWithoutApproval && e.nodeId in g.ids[..i] && Ungated(g, e.nodeId)
    {
      var v := g.ids[i];
      assert v in Elems(g.ids);
      assert g.ids[..i + 1] == g.ids[..i] + [v];
      if !g.nodes[v].node.HighRisk() {
        continue;
      }
      var covered := exists k :: k in gates && v in gates[k];
      if !covered {
        errors := errors + [CompileError(HighRiskWithoutApproval, v)];
      }
    }
    assert g.ids[..|g.ids|] == g.ids;
    assert forall v :: v in g.ids <==> v in Elems(g.ids);
  }

  ghost predicate Escalates(m: Manifest, n: NodeSpec) {
    exists k :: k in m.effects && k !in n.effects
  }

  ghost predicate EffectErrorExpected(g: NormalizedGraph, bindings: map<NodeId, string>,
                                      manifests: map<string, Manifest>, e: CompileError) {
    && e.nodeId in g.nodes
    && var m := BoundManifest(bindings, manifests, e.nodeId);
       && m.Some?
       && match e.kind
          case EffectEscalation => Escalates(m.value, g.nodes[e.nodeId].node)
          case HighRiskWithoutApproval => Ungated(g, e.nodeId)
          case _ => false
  }

  /** The errors of one node: escalation, and again the approval rule. */
  method EffectErrorsAt(g: NormalizedGraph, bindings: map<NodeId, string>, manifests: map<string, Manifest>,
                        gates: map<NodeId, set<NodeId>>, v: NodeId)
    returns (errors: seq<CompileError>)
    requires v in g.nodes && ((exists k :: k in gates && v in gates[k]) <==> Gated(g, v))
    ensures Distinct(errors)
    ensures forall e :: e in errors <==> e.nodeId == v && EffectErrorExpected(g, bindings, manifests, e)
  {
    errors := [];
    var m := BoundManifest(bindings, manifests, v);
    if m.None? {
      return;
    }
    var node := g.nodes[v].node;
    var escalation := set k | k in m.value.effects && k !in node.effects;
    if escalation != {} {
      errors := errors + [CompileError(EffectEscalation, v)];
    }
    assert escalation != {} <==> Escalates(m.value, node) by {
      if Escalates(m.value, node) {
        var k :| k in m.value.effects && k !in node.effects;
        assert k in escalation;
      }
    }
    if node.HighRisk() && !exists k :: k in gates && v in gates[k] {
      errors := errors + [CompileError(HighRiskWithoutApproval, v)];
    }
  }

  /** Effect escalation at bound nodes, and again the approval rule, but only at nodes
      bound to a known manifest. */
  method EffectCheck(g: NormalizedGraph, bindings: map<NodeId, string>, manifests: map<string, Manifest>)
    returns (errors: seq<CompileError>)
    requires WellFormed(g)
    ensures Distinct(errors)
    ensures forall e :: e in errors <==> EffectErrorExpected(g, bindings, manifests, e)
    ensures forall v :: CompileError(HighRiskWithoutApproval, v) in errors <==>
      v in bindings && bindings[v] != "" && bindings[v] in manifests && exists k :: RunsUngated(g, v, k)
    ensures forall v :: CompileError(EffectEscalation, v) in errors <==>
      && v in g.nodes && v in bindings && bindings[v] != "" && bindings[v] in manifests
      && exists k :: k in manifests[bindings[v]].effects && k !in g.nodes[v].node.effects
  {
    var gates := GateMap(g);
    forall v { UngatedMeans(g, v); }
    errors := [];
    for i := 0 to |g.ids|
      invariant Distinct(errors)
      invariant forall e :: e in errors <==>
        e.nodeId in g.ids[..i] && EffectErrorExpected(g, bindings, manifests, e)
    {
      var v := g.ids[i];
      assert v in Elems(g.ids);
      assert g.ids[..i + 1] == g.ids[..i] + [v];
      var more := EffectErrorsAt(g, bindings, manifests, gates, v);
      errors := errors + more;
    }
    assert g.ids[..|g.ids|] == g.ids;
    assert forall v :: v in g.ids <==> v in Elems(g.ids);
  }

  lemma {:induction false} DistinctMultiplicity(errors: seq<CompileError>, e: CompileError)
    requires Distinct(errors)
    ensures multiset(errors)[e] == if e in errors then 1 else 0
  {
    if errors != [] {
      var init, last := errors[..|errors| - 1], errors[|errors| - 1];
      assert errors == init + [last];
      DistinctMultiplicity(init, e);
      assert last !in init;
    }
  }

  /** How often an ungated high-risk node is reported: once by the type checker, and once more
      by the effect checker if it is bound to a known manifest. */
  ghost function ApprovalReports(g: NormalizedGraph, bindings: map<NodeId, string>,
                                 manifests: map<string, Manifest>, v: NodeId): nat {
    if !Ungated(g, v) then 0 else if BoundManifest(bindings, manifests, v).None? then 1 else 2
  }

  /** Stated on what the two checkers return. */
  lemma ApprovalRuleTwice(g: NormalizedGraph, bindings: map<NodeId, string>, manifests: map<string, Manifest>,
                          typeErrors: seq<CompileError>, effectErrors: seq<CompileError>, v: NodeId)
    requires Distinct(typeErrors) && Distinct(effectErrors)
    requires forall e :: e in typeErrors <==> e.kind == HighRiskWithoutApproval && Ungated(g, e.nodeId)
    requires forall e :: e in effectErrors <==> EffectErrorExpected(g, bindings, manifests, e)
    ensures multiset(typeErrors + effectErrors)[CompileError(HighRiskWithoutApproval, v)]
         == ApprovalReports(g, bindings, manifests, v)
    ensures typeErrors == [] ==> forall e :: e in effectErrors ==> e.kind == EffectEscalation
  {
    var e := CompileError(HighRiskWithoutApproval, v);
    DistinctMultiplicity(typeErrors, e);
    DistinctMultiplicity(effectErrors, e);
    if typeErrors == [] {
      forall x | x in effectErrors
        ensures x.kind == EffectEscalation
      {
        assert CompileError(HighRiskWithoutApproval, x.nodeId) !in typeErrors;
      }
    }
  }

  /** A covering gate is the node itself or stands strictly before it in every
      topological order of the graph. */
  lemma GateStandsBefore(g: NormalizedGraph, order: seq<NodeId>, gate: NodeId, v: NodeId, i: nat)
    requires IsTopological(g.ids, g.Arcs(), order)
    requires GateCovers(g, gate, v) && i < |order| && order[i] == v
    ensures gate == v || gate in order[..i]
  {
    var p :| PathFromTo(g.Arcs(), p, gate, v);
    PathAscends(g.Arcs(), order, p, i);
  }
}
