/** Plan-time resolution of capability bindings, and the closure check on them. */
module Resolver {
  import opened Prelude
  import opened Graphs
  import opened Schema
  import opened FrontEnd
  import opened InfoFlow
  import opened Gates
  import opened Registry
  import Kahn

  const HUMAN_APPROVER := "human.approver"

  datatype ResolveError = CyclicGraph | NodeNotInTemplate | NodeWithoutKinds

  datatype ResolverResult = ResolverResult(
    ok: bool,
    bindings: map<NodeId, string>,
    manifestBindings: map<NodeId, ManifestRef>,
    eligibleSets: map<NodeId, seq<EligibleEntry>>,
    errors: seq<CompileError>,
    fallbackUsed: map<NodeId, string>
  )

  /** Everything resolution depends on besides the graph. */
  datatype Setting = Setting(store: Store, rules: seq<Rule>, query: Query, template: Option<TaskTemplate>)

  /** The first template node with the given id. */
  function TemplateNode(specs: seq<NodeSpec>, id: NodeId): Option<NodeSpec> {
    if specs == [] then None
    else if specs[0].nodeId == id then Some(specs[0])
    else TemplateNode(specs[1..], id)
  }

  /** The specification handed to the router: the template's, or one rebuilt from the node. */
  function RoutedSpec(s: Setting, n: NodeSpec): Option<NodeSpec> {
    match s.template
    case Some(t) => TemplateNode(t.nodes, n.nodeId)
    case None => Some(n.(views := []))
  }

  /** Whether resolving this node returns rather than raises. */
  predicate Resolvable(s: Setting, n: NodeSpec) {
    Human in n.kinds || (RoutedSpec(s, n).Some? && RoutedSpec(s, n).value.kinds != [])
  }

  ghost predicate AllResolvable(s: Setting, g: NormalizedGraph) {
    forall v :: v in g.nodes ==> Resolvable(s, g.nodes[v].node)
  }

  ghost function RoutedNode(s: Setting, g: NormalizedGraph, n: NodeSpec): RoutingResult
    requires RoutedSpec(s, n).Some?
  {
    Routing(s.store, s.rules, RoutedSpec(s, n).value, s.query.(purpose := g.purpose))
  }

  /** The eligible entries recorded for a node; none for the human approver. */
  function EligibleOf(s: Setting, n: NodeSpec): seq<EligibleEntry> {
    if Human in n.kinds || RoutedSpec(s, n).None? then [] else EligibleEntries(RoutedSpec(s, n).value, s.store)
  }

  /** What a node is bound to; nothing when no manifest is eligible or routing fails. */
  ghost function BindingOf(s: Setting, g: NormalizedGraph, n: NodeSpec): Option<(string, ManifestRef)> {
    if Human in n.kinds then Some((HUMAN_APPROVER, Synthesised))
    else if RoutedSpec(s, n).None? then None
    else
      var r := RoutedNode(s, g, n);
      if r.eligible == [] || r.choice.CapabilityId() == "" then None
      else Some((r.choice.CapabilityId(), r.choice.ManifestId()))
  }

  ghost predicate IsBound(s: Setting, g: NormalizedGraph, v: NodeId) {
    v in g.nodes && BindingOf(s, g, g.nodes[v].node).Some?
  }

  /** `r` holds exactly the bindings, eligible sets, failures and fallback marks of `done`. */
  ghost predicate ResolvedSoFar(s: Setting, g: NormalizedGraph, done: seq<NodeId>, r: ResolverResult) {
    BoundSoFar(s, g, done, r) && ListedSoFar(s, g, done, r.eligibleSets)
  }

  ghost predicate ListedSoFar(s: Setting, g: NormalizedGraph, done: seq<NodeId>,
                              listed: map<NodeId, seq<EligibleEntry>>) {
    && (forall v :: v in listed <==> v in done)
    && (forall v :: v in listed && v in g.nodes ==> listed[v] == EligibleOf(s, g.nodes[v].node))
  }

  ghost predicate BoundSoFar(s: Setting, g: NormalizedGraph, done: seq<NodeId>, r: ResolverResult) {
    && (forall v :: BindingAt(s, g, done, r, v))
    && (forall e :: e in r.errors <==>
          e.kind == InfeasibleBinding && e.nodeId in done && !IsBound(s, g, e.nodeId))
  }

  /** The binding, snapshot and fallback mark of one node are those of its specification. */
  ghost predicate BindingAt(s: Setting, g: NormalizedGraph, done: seq<NodeId>, r: ResolverResult, v: NodeId) {
    && (v in r.bindings <==> v in done && IsBound(s, g, v))
    && (v in r.manifestBindings <==> v in r.bindings)
    && (v in r.bindings ==> BindingOf(s, g, g.nodes[v].node) == Some((r.bindings[v], r.manifestBindings[v])))
    && (v in r.fallbackUsed <==>
          v in r.bindings && Human !in g.nodes[v].node.kinds && g.nodes[v].node.fallback == Some(r.bindings[v]))
    && (v in r.fallbackUsed ==> r.fallbackUsed[v] == r.bindings[v])
  }

  ghost predicate IsResolution(s: Setting, g: NormalizedGraph, r: ResolverResult) {
    ResolvedSoFar(s, g, g.ids, r) && (r.ok <==> forall v :: v in g.nodes ==> IsBound(s, g, v))
  }

  // ---- What a node is bound to, spelled out ----

  /** What the router asks policy about for this graph. */
  function QueryFor(s: Setting, g: NormalizedGraph): Query {
    Query(s.query.dataLabel, g.purpose, s.query.region, s.query.budgetUsd)
  }

  /** Manifest `m` serves specification `f`: some manifest is eligible at all, and `m` is the
      best one policy allows or, if policy denies them all, the declared fallback. */
  ghost predicate Serves(s: Setting, g: NormalizedGraph, f: NodeSpec, m: Manifest) {
    && (exists k :: k in s.store && IsEligible(f, k))
    && m.capabilityId != ""
    && if AllDenied(s.store, s.rules, f, QueryFor(s, g)) then IsDeclaredFallback(s.store, f, m)
       else IsBest(s.store, s.rules, f, QueryFor(s, g), m)
  }

  /** A routed node is bound if and only if some manifest serves it, and then to that one. */
  lemma BindingMeans(s: Setting, g: NormalizedGraph, n: NodeSpec)
    requires UniqueIds(s.store) && Human !in n.kinds && RoutedSpec(s, n).Some?
    ensures BindingOf(s, g, n).Some? <==> exists m :: Serves(s, g, RoutedSpec(s, n).value, m)
    ensures forall m :: Serves(s, g, RoutedSpec(s, n).value, m) ==>
      BindingOf(s, g, n) == Some((m.capabilityId, Snapshot(m)))
  {
    var f, q := RoutedSpec(s, n).value, QueryFor(s, g);
    var r := RoutedNode(s, g, n);
    assert s.query.(purpose := g.purpose) == q;
    RoutingAnswers(s.store, s.rules, f, q);
    SomeEligible(f, s.store);
    FallbackOnlyWhenAllDenied(s.store, s.rules, f, q);
    if BindingOf(s, g, n).Some? {
      assert Serves(s, g, f, if r.choice.Picked? then r.choice.entry.manifest else r.choice.manifest);
    }
    forall m | Serves(s, g, f, m)
      ensures BindingOf(s, g, n) == Some((m.capabilityId, Snapshot(m)))
    {
      ServingIsUnique(s, g, f, m, r.choice);
    }
  }

  lemma SomeEligible(f: NodeSpec, store: Store)
    requires UniqueIds(store)
    ensures EligibleEntries(f, store) != [] <==> exists k :: k in store && IsEligible(f, k)
  {
    EligibleEntriesAre(f, store);
    if EligibleEntries(f, store) != [] {
      assert EligibleEntries(f, store)[0] in EligibleEntries(f, store);
    }
    if k :| k in store && IsEligible(f, k) {
      assert EntryOf(k).manifest == k;
    }
  }

  /** The manifest that serves a specification is the one the router answers with. */
  lemma ServingIsUnique(s: Setting, g: NormalizedGraph, f: NodeSpec, m: Manifest, c: Choice)
    requires UniqueIds(s.store) && Serves(s, g, f, m) && IsAnswer(s.store, s.rules, f, QueryFor(s, g), c)
    ensures c.Picked? ==> c.entry.manifest == m
    ensures !c.Picked? ==> c.FellBack? && c.manifest == m
  {
    if c.Picked? {
      BestIsUnique(s.store, s.rules, f, QueryFor(s, g), m, c.entry.manifest);
    } else {
      LookupIsTheOne(s.store, m);
      if c.FellBack? {
        LookupIsTheOne(s.store, c.manifest);
      }
    }
  }

  /** The outcome of a routed node: bound if and only if some manifest serves it, to that one. */
  ghost predicate RoutedOutcome(s: Setting, g: NormalizedGraph, n: NodeSpec, b: Option<(string, ManifestRef)>) {
    && RoutedSpec(s, n).Some?
    && (b.Some? <==> exists m :: Serves(s, g, RoutedSpec(s, n).value, m))
    && forall m :: Serves(s, g, RoutedSpec(s, n).value, m) ==> b == Some((m.capabilityId, Snapshot(m)))
  }

  /** What a resolution says about one node: the human approver at a human node, and elsewhere
      the manifest that serves the specification, or nothing. */
  ghost predicate NodeOutcome(s: Setting, g: NormalizedGraph, r: ResolverResult, v: NodeId)
    requires v in g.nodes
  {
    var n := g.nodes[v].node;
    && (v in r.manifestBindings <==> v in r.bindings)
    && (CompileError(InfeasibleBinding, v) in r.errors <==> v !in r.bindings)
    && (v in r.fallbackUsed <==> v in r.bindings && Human !in n.kinds && n.fallback == Some(r.bindings[v]))
    && if Human in n.kinds then
         v in r.bindings && r.bindings[v] == "human.approver" && r.manifestBindings[v] == Synthesised
       else
         RoutedOutcome(s, g, n, if v in r.bindings then Some((r.bindings[v], r.manifestBindings[v])) else None)
  }

  lemma RoutedOutcomeMeans(s: Setting, g: NormalizedGraph, n: NodeSpec)
    requires UniqueIds(s.store) && Human !in n.kinds && Resolvable(s, n)
    ensures RoutedOutcome(s, g, n, BindingOf(s, g, n))
  {
    BindingMeans(s, g, n);
  }

  lemma OutcomeAtNode(s: Setting, g: NormalizedGraph, r: ResolverResult, v: NodeId)
    requires UniqueIds(s.store) && WellFormed(g) && IsResolution(s, g, r) && v in g.nodes
    requires Resolvable(s, g.nodes[v].node)
    ensures NodeOutcome(s, g, r, v)
  {
    assert v in Elems(g.ids);
    assert BindingAt(s, g, g.ids, r, v);
    if Human !in g.nodes[v].node.kinds {
      RoutedOutcomeMeans(s, g, g.nodes[v].node);
    }
  }

  /** The candidates listed for a node: none at a human node, elsewhere exactly the eligible
      manifests of the specification the router saw, best first. */
  ghost predicate ListsCandidates(s: Setting, n: NodeSpec, entries: seq<EligibleEntry>) {
    if Human in n.kinds then entries == []
    else
      && RoutedSpec(s, n).Some? && Ranked(entries)
      && forall e :: e in entries <==>
           && e.manifest in s.store && IsEligible(RoutedSpec(s, n).value, e.manifest)
           && e == EligibleEntry(e.manifest.capabilityId, e.manifest, Score(e.manifest))
  }

  lemma CandidatesListed(s: Setting, n: NodeSpec)
    requires UniqueIds(s.store) && Resolvable(s, n)
    ensures ListsCandidates(s, n, EligibleOf(s, n))
  {
    if Human !in n.kinds {
      EligibleEntriesAre(RoutedSpec(s, n).value, s.store);
    }
  }

  /** Every node of a resolved graph has its outcome and its candidates. */
  ghost predicate AllOutcomes(s: Setting, g: NormalizedGraph, r: ResolverResult) {
    && (forall v :: v in g.nodes ==> NodeOutcome(s, g, r, v))
    && (forall v :: v in g.nodes ==> v in r.eligibleSets && ListsCandidates(s, g.nodes[v].node, r.eligibleSets[v]))
  }

  lemma OutcomesHold(s: Setting, g: NormalizedGraph, r: ResolverResult)
    requires UniqueIds(s.store) && WellFormed(g) && IsResolution(s, g, r) && AllResolvable(s, g)
    ensures AllOutcomes(s, g, r)
  {
    forall v | v in g.nodes
      ensures NodeOutcome(s, g, r, v)
    {
      OutcomeAtNode(s, g, r, v);
    }
    forall v | v in g.nodes
      ensures v in r.eligibleSets && ListsCandidates(s, g.nodes[v].node, r.eligibleSets[v])
    {
      assert v in Elems(g.ids);
      CandidatesListed(s, g.nodes[v].node);
    }
  }

  /** A node is never bound to a manifest policy denies, except to the declared fallback of the
      specification the router saw, and then policy denies everything eligible. */
  lemma DeniedOnlyAsFallback(s: Setting, g: NormalizedGraph, n: NodeSpec, f: NodeSpec, m: Manifest)
    requires UniqueIds(s.store) && Human !in n.kinds && RoutedSpec(s, n) == Some(f) && m in s.store
    requires BindingOf(s, g, n).Some? && BindingOf(s, g, n).value.0 == m.capabilityId
    requires !PolicyAllows(s.rules, f, QueryFor(s, g), m) || !IsEligible(f, m)
    ensures f.fallback == Some(m.capabilityId) && AllDenied(s.store, s.rules, f, QueryFor(s, g))
  {
    BindingMeans(s, g, n);
    var k :| Serves(s, g, f, k);
    ServesDenied(s, g, f, k, m);
  }

  lemma ServesDenied(s: Setting, g: NormalizedGraph, f: NodeSpec, k: Manifest, m: Manifest)
    requires UniqueIds(s.store) && Serves(s, g, f, k) && m in s.store && k.capabilityId == m.capabilityId
    requires !PolicyAllows(s.rules, f, QueryFor(s, g), m) || !IsEligible(f, m)
    ensures f.fallback == Some(m.capabilityId) && AllDenied(s.store, s.rules, f, QueryFor(s, g))
  {
    LookupIsTheOne(s.store, m);
    LookupIsTheOne(s.store, k);
  }

  /** The binding chosen for one node by one turn of the loop, or why the turn raises. */
  method BindNode(s: Setting, g: NormalizedGraph, n: NodeSpec)
    returns (b: Result<Option<(string, ManifestRef)>, ResolveError>, eligible: seq<EligibleEntry>)
    ensures b.Ok? <==> Resolvable(s, n)
    ensures b.Ok? ==> b.value == BindingOf(s, g, n) && eligible == EligibleOf(s, n)
  {
    if Human in n.kinds {
      return Ok(Some((HUMAN_APPROVER, Synthesised))), [];
    }
    var spec := RoutedSpec(s, n);
    if spec.None? {
      return Err(NodeNotInTemplate), [];
    }
    var es := EligibleSet(spec.value, s.store);
    if es.Err? {
      return Err(NodeWithoutKinds), [];
    }
    if es.value == [] {
      return Ok(None), es.value;
    }
    var routed := Route(s.store, s.rules, spec.value, s.query.(purpose := g.purpose));
    assert routed.value == RoutedNode(s, g, n);
    var id := routed.value.choice.CapabilityId();
    if id == "" {
      return Ok(None), es.value;
    }
    return Ok(Some((id, routed.value.choice.ManifestId()))), es.value;
  }

  /** What a turn of the loop adds to the collected result. */
  function Record(r: ResolverResult, n: NodeSpec, v: NodeId, b: Option<(string, ManifestRef)>,
                  eligible: seq<EligibleEntry>): ResolverResult
  {
    var listed := r.eligibleSets[v := eligible];
    if b.None? then r.(eligibleSets := listed, errors := r.errors + [CompileError(InfeasibleBinding, v)])
    else
      var (id, snapshot) := b.value;
      r.(eligibleSets := listed,
         bindings := r.bindings[v := id],
         manifestBindings := r.manifestBindings[v := snapshot],
         fallbackUsed := if Human !in n.kinds && n.fallback == Some(id)
                         then r.fallbackUsed[v := id] else r.fallbackUsed)
  }

  lemma RecordKeeps(s: Setting, g: NormalizedGraph, done: seq<NodeId>, v: NodeId, r: ResolverResult)
    requires v in g.nodes && v !in done && ResolvedSoFar(s, g, done, r)
    ensures var n := g.nodes[v].node;
      ResolvedSoFar(s, g, done + [v], Record(r, n, v, BindingOf(s, g, n), EligibleOf(s, n)))
  {
    var b := BindingOf(s, g, g.nodes[v].node);
    assert IsBound(s, g, v) <==> b.Some?;
    if b.None? {
      RecordFailure(s, g, done, v, r);
    } else {
      RecordBinding(s, g, done, v, r, b.value);
    }
    RecordLists(s, g, done, v, r.eligibleSets);
  }

  lemma RecordLists(s: Setting, g: NormalizedGraph, done: seq<NodeId>, v: NodeId,
                    listed: map<NodeId, seq<EligibleEntry>>)
    requires v in g.nodes && ListedSoFar(s, g, done, listed)
    ensures ListedSoFar(s, g, done + [v], listed[v := EligibleOf(s, g.nodes[v].node)])
  {
  }

  lemma RecordFailure(s: Setting, g: NormalizedGraph, done: seq<NodeId>, v: NodeId, r: ResolverResult)
    requires v in g.nodes && v !in done && BoundSoFar(s, g, done, r) && !IsBound(s, g, v)
    ensures BoundSoFar(s, g, done + [v], Record(r, g.nodes[v].node, v, None, EligibleOf(s, g.nodes[v].node)))
  {
    var errors := r.errors + [CompileError(InfeasibleBinding, v)];
    forall u
      ensures BindingAt(s, g, done + [v], Record(r, g.nodes[v].node, v, None, EligibleOf(s, g.nodes[v].node)), u)
    {
      assert BindingAt(s, g, done, r, u);
    }
    forall e
      ensures e in errors <==>
        e.kind == InfeasibleBinding && e.nodeId in done + [v] && !IsBound(s, g, e.nodeId)
    {
      assert e == CompileError(e.kind, e.nodeId);
    }
  }

  lemma RecordBinding(s: Setting, g: NormalizedGraph, done: seq<NodeId>, v: NodeId, r: ResolverResult,
                      b: (string, ManifestRef))
    requires v in g.nodes && v !in done && BoundSoFar(s, g, done, r)
    requires BindingOf(s, g, g.nodes[v].node) == Some(b) && IsBound(s, g, v)
    ensures BoundSoFar(s, g, done + [v], Record(r, g.nodes[v].node, v, Some(b), EligibleOf(s, g.nodes[v].node)))
  {
    var next := Record(r, g.nodes[v].node, v, Some(b), EligibleOf(s, g.nodes[v].node));
    forall u
      ensures BindingAt(s, g, done + [v], next, u)
    {
      assert BindingAt(s, g, done, r, u);
      RecordBindingAt(s, g, done, v, r, b, u);
    }
    forall e
      ensures e in next.errors <==>
        e.kind == InfeasibleBinding && e.nodeId in done + [v] && !IsBound(s, g, e.nodeId)
    {
    }
  }

  lemma RecordBindingAt(s: Setting, g: NormalizedGraph, done: seq<NodeId>, v: NodeId, r: ResolverResult,
                        b: (string, ManifestRef), u: NodeId)
    requires v in g.nodes && v !in done && BindingAt(s, g, done, r, u)
    requires BindingOf(s, g, g.nodes[v].node) == Some(b) && IsBound(s, g, v)
    ensures BindingAt(s, g, done + [v], Record(r, g.nodes[v].node, v, Some(b), EligibleOf(s, g.nodes[v].node)), u)
  {
  }

  lemma TurnKeeps(s: Setting, g: NormalizedGraph, order: seq<NodeId>, i: nat, r: ResolverResult)
    requires i < |order| && Distinct(order) && order[i] in g.nodes && ResolvedSoFar(s, g, order[..i], r)
    ensures var n := g.nodes[order[i]].node;
      ResolvedSoFar(s, g, order[..i + 1], Record(r, n, order[i], BindingOf(s, g, n), EligibleOf(s, n)))
  {
    RecordKeeps(s, g, order[..i], order[i], r);
    assert order[..i + 1] == order[..i] + [order[i]];
  }

  lemma NothingResolved(s: Setting, g: NormalizedGraph, r: ResolverResult)
    requires r.bindings == map[] && r.manifestBindings == map[] && r.eligibleSets == map[]
    requires r.errors == [] && r.fallbackUsed == map[]
    ensures ResolvedSoFar(s, g, [], r)
  {
    assert forall v :: BindingAt(s, g, [], r, v);
  }

  lemma OrderListsNodes(g: NormalizedGraph, order: seq<NodeId>)
    requires WellFormed(g) && Elems(order) == Elems(g.ids)
    ensures forall k :: 0 <= k < |order| ==> order[k] in g.nodes
  {
    forall k | 0 <= k < |order|
      ensures order[k] in g.nodes
    {
      assert order[k] in Elems(order);
    }
  }

  ghost predicate PrefixResolvable(s: Setting, g: NormalizedGraph, order: seq<NodeId>, i: nat)
    requires i <= |order|
  {
    forall k :: 0 <= k < i ==> order[k] in g.nodes && Resolvable(s, g.nodes[order[k]].node)
  }

  lemma LoopCoversNodes(s: Setting, g: NormalizedGraph, order: seq<NodeId>)
    requires WellFormed(g) && Elems(order) == Elems(g.ids) && PrefixResolvable(s, g, order, |order|)
    ensures AllResolvable(s, g)
  {
    forall v | v in g.nodes
      ensures Resolvable(s, g.nodes[v].node)
    {
      assert v in Elems(order);
    }
  }

  /** One turn of the loop. */
  method ResolveNode(s: Setting, g: NormalizedGraph, order: seq<NodeId>, i: nat, out: ResolverResult)
    returns (r: Result<ResolverResult, ResolveError>)
    requires i < |order| && Distinct(order) && order[i] in g.nodes && ResolvedSoFar(s, g, order[..i], out)
    ensures r.Ok? <==> Resolvable(s, g.nodes[order[i]].node)
    ensures r.Ok? ==> ResolvedSoFar(s, g, order[..i + 1], r.value)
  {
    var v := order[i];
    var b, eligible := BindNode(s, g, g.nodes[v].node);
    if b.Err? {
      return Err(b.error);
    }
    TurnKeeps(s, g, order, i, out);
    return Ok(Record(out, g.nodes[v].node, v, b.value, eligible));
  }

  /** Resolves every node, or raises: on a cyclic graph, on a node missing from the given
      template, or on a node that declares no capability kinds. */
  method Resolve(s: Setting, g: NormalizedGraph) returns (r: Result<ResolverResult, ResolveError>)
    requires WellFormed(g)
    ensures r.Ok? <==> Acyclic(g.Arcs()) && AllResolvable(s, g)
    ensures r.Ok? ==> IsResolution(s, g, r.value)
    ensures r.Ok? && UniqueIds(s.store) ==> AllOutcomes(s, g, r.value)
  {
    var ordered := Kahn.TopologicalOrder(g.ids, g.edges);
    if ordered.Err? {
      return Err(CyclicGraph);
    }
    var order := ordered.value;
    OrderListsNodes(g, order);
    var out := ResolverResult(true, map[], map[], map[], [], map[]);
    assert order[..0] == [];
    NothingResolved(s, g, out);
    for i := 0 to |order|
      invariant PrefixResolvable(s, g, order, i)
      invariant ResolvedSoFar(s, g, order[..i], out)
    {
      var turn := ResolveNode(s, g, order, i, out);
      if turn.Err? {
        return Err(turn.error);
      }
      out := turn.value;
    }
    assert order[..|order|] == order;
    LoopCoversNodes(s, g, order);
    NoErrorsMeansAllBound(s, g, order, out);
    out := out.(ok := out.errors == []);
    if UniqueIds(s.store) {
      OutcomesHold(s, g, out);
    }
    return Ok(out);
  }

  lemma NoErrorsMeansAllBound(s: Setting, g: NormalizedGraph, order: seq<NodeId>, out: ResolverResult)
    requires WellFormed(g) && Elems(order) == Elems(g.ids) && ResolvedSoFar(s, g, order, out)
    ensures IsResolution(s, g, out.(ok := out.errors == []))
  {
    assert forall v :: v in order <==> v in Elems(order);
    assert forall v :: v in g.ids <==> v in Elems(g.ids);
    ResolvedInAnyOrder(s, g, order, g.ids, out, out.errors == []);
    ErrorsAreUnbound(s, g, out);
  }

  /** The collected result does not depend on the order of the nodes, nor on the final verdict. */
  lemma ResolvedInAnyOrder(s: Setting, g: NormalizedGraph, order: seq<NodeId>, ids: seq<NodeId>, r: ResolverResult,
                           ok: bool)
    requires ResolvedSoFar(s, g, order, r) && forall v :: v in order <==> v in ids
    ensures ResolvedSoFar(s, g, ids, r.(ok := ok))
  {
    forall v
      ensures BindingAt(s, g, ids, r.(ok := ok), v)
    {
      assert BindingAt(s, g, order, r, v);
    }
  }

  lemma ErrorsAreUnbound(s: Setting, g: NormalizedGraph, out: ResolverResult)
    requires forall e :: e in out.errors <==>
      e.kind == InfeasibleBinding && e.nodeId in g.nodes && !IsBound(s, g, e.nodeId)
    ensures out.errors == [] <==> forall v :: v in g.nodes ==> IsBound(s, g, v)
  {
    if out.errors != [] {
      assert out.errors[0] in out.errors;
    }
    forall v | v in g.nodes && !IsBound(s, g, v)
      ensures out.errors != []
    {
      assert CompileError(InfeasibleBinding, v) in out.errors;
    }
  }

  // ---- Binding closure ----

  /** The store as the dictionary the checkers are given. */
  function ById(store: Store): map<string, Manifest> {
    if store == [] then map[]
    else ById(store[..|store| - 1])[store[|store| - 1].capabilityId := store[|store| - 1]]
  }

  /** The dictionary holds exactly the manifests of the store, each under its own id. */
  ghost predicate Indexes(d: map<string, Manifest>, store: Store) {
    && (forall id :: id in d ==> d[id] in store && d[id].capabilityId == id)
    && (forall m :: m in store ==> m.capabilityId in d && d[m.capabilityId] == m)
  }

  lemma IndexesExtends(d: map<string, Manifest>, store: Store, m: Manifest)
    requires Indexes(d, store) && m.capabilityId !in d
    ensures Indexes(d[m.capabilityId := m], store + [m])
  {
  }

  lemma {:induction false} ByIdFinds(store: Store)
    requires UniqueIds(store)
    ensures Indexes(ById(store), store)
  {
    if store != [] {
      var init, m := store[..|store| - 1], store[|store| - 1];
      ByIdFinds(init);
      forall k | k in init
        ensures k.capabilityId != m.capabilityId
      {
        var i :| 0 <= i < |init| && init[i] == k;
        assert store[i] == k && store[|init|] == m;
      }
      IndexesExtends(ById(init), init, m);
      assert store == init + [m];
    }
  }

  ghost predicate ClosureErrorExpected(g: NormalizedGraph, bindings: map<NodeId, string>,
                                       manifestBindings: map<NodeId, ManifestRef>,
                                       manifests: map<string, Manifest>, e: CompileError) {
    || (e.nodeId in g.nodes && CoverageErrorExpected(bindings, manifestBindings, manifests, e))
    || (e.kind == AmbientAuthority && e.nodeId !in bindings && TouchesEdge(g.edges, e.nodeId))
  }

  ghost predicate TouchesEdge(edges: seq<Edge>, v: NodeId) {
    exists d :: d in edges && (d.fromNode == v || d.toNode == v)
  }

  ghost predicate CoverageErrorExpected(bindings: map<NodeId, string>, manifestBindings: map<NodeId, ManifestRef>,
                                        manifests: map<string, Manifest>, e: CompileError) {
    var v := e.nodeId;
    if v !in bindings then e.kind == InfeasibleBinding
    else
      && e.kind == AmbientAuthority
      && bindings[v] != HUMAN_APPROVER
      && !MatchesRegistry(bindings[v], v, manifestBindings, manifests)
  }

  /** The bound capability is registered, and a recorded snapshot is the registered one. */
  ghost predicate MatchesRegistry(cap: string, v: NodeId, manifestBindings: map<NodeId, ManifestRef>,
                                  manifests: map<string, Manifest>) {
    && cap in manifests
    && (v in manifestBindings ==> manifestBindings[v] in {NoManifest, Snapshot(manifests[cap])})
  }

  method CoverageErrors(g: NormalizedGraph, bindings: map<NodeId, string>,
                        manifestBindings: map<NodeId, ManifestRef>, manifests: map<string, Manifest>)
    returns (errors: seq<CompileError>)
    requires WellFormed(g)
    ensures forall e :: e in errors <==>
      e.nodeId in g.nodes && CoverageErrorExpected(bindings, manifestBindings, manifests, e)
  {
    errors := [];
    for i := 0 to |g.ids|
      invariant forall e :: e in errors <==>
        e.nodeId in g.ids[..i] && CoverageErrorExpected(bindings, manifestBindings, manifests, e)
    {
      var v := g.ids[i];
      assert g.ids[..i + 1] == g.ids[..i] + [v];
      if v !in bindings {
        errors := errors + [CompileError(InfeasibleBinding, v)];
        continue;
      }
      var cap := bindings[v];
      if cap == HUMAN_APPROVER {
        continue;
      }
      if cap !in manifests {
        errors := errors + [CompileError(AmbientAuthority, v)];
        continue;
      }
      var bound := if v in manifestBindings then manifestBindings[v] else NoManifest;
      if bound != NoManifest && bound != Snapshot(manifests[cap]) {
        errors := errors + [CompileError(AmbientAuthority, v)];
      }
    }
    assert g.ids[..|g.ids|] == g.ids;
    assert forall v :: v in g.ids <==> v in Elems(g.ids);
  }

  method EndpointErrors(edges: seq<Edge>, bindings: map<NodeId, string>) returns (errors: seq<CompileError>)
    ensures forall e :: e in errors <==>
      e.kind == AmbientAuthority && e.nodeId !in bindings && TouchesEdge(edges, e.nodeId)
  {
    errors := [];
    for j := 0 to |edges|
      invariant forall e :: e in errors <==>
        e.kind == AmbientAuthority && e.nodeId !in bindings && TouchesEdge(edges[..j], e.nodeId)
    {
      assert edges[..j + 1] == edges[..j] + [edges[j]];
      var more: seq<CompileError> := [];
      if edges[j].fromNode !in bindings {
        more := more + [CompileError(AmbientAuthority, edges[j].fromNode)];
      }
      if edges[j].toNode !in bindings {
        more := more + [CompileError(AmbientAuthority, edges[j].toNode)];
      }
      forall e
        ensures e in more <==>
          e.kind == AmbientAuthority && e.nodeId !in bindings
          && (edges[j].fromNode == e.nodeId || edges[j].toNode == e.nodeId)
      {
        assert e == CompileError(e.kind, e.nodeId);
      }
      errors := errors + more;
    }
    assert edges[..|edges|] == edges;
  }

  /** Every node is bound, to the synthesised approver or to a registered capability whose
      recorded snapshot, if there is one, is the registered manifest; so is every edge endpoint. */
  ghost predicate IsClosed(g: NormalizedGraph, bindings: map<NodeId, string>,
                           manifestBindings: map<NodeId, ManifestRef>, manifests: map<string, Manifest>) {
    && (forall v :: v in g.nodes ==> BoundToCurrent(bindings, manifestBindings, manifests, v))
    && (forall d :: d in g.edges ==> d.fromNode in bindings && d.toNode in bindings)
  }

  ghost predicate BoundToCurrent(bindings: map<NodeId, string>, manifestBindings: map<NodeId, ManifestRef>,
                                 manifests: map<string, Manifest>, v: NodeId) {
    && v in bindings
    && (bindings[v] != "human.approver" ==>
          && bindings[v] in manifests
          && (v in manifestBindings && manifestBindings[v] != NoManifest ==>
                manifestBindings[v] == Snapshot(manifests[bindings[v]])))
  }

  lemma ClosedMeans(g: NormalizedGraph, bindings: map<NodeId, string>,
                    manifestBindings: map<NodeId, ManifestRef>, manifests: map<string, Manifest>)
    ensures (forall e :: !ClosureErrorExpected(g, bindings, manifestBindings, manifests, e)) <==>
      IsClosed(g, bindings, manifestBindings, manifests)
  {
    forall e | ClosureErrorExpected(g, bindings, manifestBindings, manifests, e)
      ensures !IsClosed(g, bindings, manifestBindings, manifests)
    {
    }
    if forall e :: !ClosureErrorExpected(g, bindings, manifestBindings, manifests, e) {
      forall v | v in g.nodes
        ensures BoundToCurrent(bindings, manifestBindings, manifests, v)
      {
        assert !ClosureErrorExpected(g, bindings, manifestBindings, manifests, CompileError(InfeasibleBinding, v));
        assert !ClosureErrorExpected(g, bindings, manifestBindings, manifests, CompileError(AmbientAuthority, v));
      }
      forall d | d in g.edges
        ensures d.fromNode in bindings && d.toNode in bindings
      {
        assert TouchesEdge(g.edges, d.fromNode) && TouchesEdge(g.edges, d.toNode);
        assert !ClosureErrorExpected(g, bindings, manifestBindings, manifests,
                                     CompileError(AmbientAuthority, d.fromNode));
        assert !ClosureErrorExpected(g, bindings, manifestBindings, manifests,
                                     CompileError(AmbientAuthority, d.toNode));
      }
    }
  }

  method ClosureCheck(g: NormalizedGraph, bindings: map<NodeId, string>,
                      manifestBindings: map<NodeId, ManifestRef>, manifests: map<string, Manifest>)
    returns (ok: bool, errors: seq<CompileError>)
    requires WellFormed(g)
    ensures forall e :: e in errors <==> ClosureErrorExpected(g, bindings, manifestBindings, manifests, e)
    ensures ok <==> forall e :: !ClosureErrorExpected(g, bindings, manifestBindings, manifests, e)
    ensures ok <==> IsClosed(g, bindings, manifestBindings, manifests)
  {
    ClosedMeans(g, bindings, manifestBindings, manifests);
    var coverage := CoverageErrors(g, bindings, manifestBindings, manifests);
    var endpoints := EndpointErrors(g.edges, bindings);
    errors := coverage + endpoints;
    ok := errors == [];
    if errors != [] {
      assert errors[0] in errors;
    }
  }

  // ---- Resolver and checkers agree over one manifest store ----

  /** A node's binding names a registered manifest, unless it is the human approver. */
  lemma BindingIsRegistered(s: Setting, g: NormalizedGraph, n: NodeSpec)
    requires UniqueIds(s.store) && Human !in n.kinds && BindingOf(s, g, n).Some?
    ensures var (id, snapshot) := BindingOf(s, g, n).value;
      id != "" && id in ById(s.store) && snapshot == Snapshot(ById(s.store)[id])
  {
    ByIdFinds(s.store);
    var spec := RoutedSpec(s, n).value;
    var q := s.query.(purpose := g.purpose);
    var r := RoutedNode(s, g, n);
    if r.choice.Picked? {
      PickIsBest(s.store, s.rules, spec, q);
      assert r.choice.entry.manifest in s.store;
    } else {
      LookupFinds(s.store, spec.fallback.value);
      assert r.choice.manifest in s.store;
    }
  }

  /** A successful resolution is closed: the closure checker finds nothing to report. */
  lemma ResolutionIsClosed(s: Setting, g: NormalizedGraph, r: ResolverResult, e: CompileError)
    requires WellFormed(g) && UniqueIds(s.store)
    requires IsResolution(s, g, r) && r.ok
    ensures !ClosureErrorExpected(g, r.bindings, r.manifestBindings, ById(s.store), e)
  {
    assert forall v :: v in g.ids <==> v in Elems(g.ids);
    if e.nodeId in g.nodes {
      var n := g.nodes[e.nodeId].node;
      assert IsBound(s, g, e.nodeId);
      assert BindingAt(s, g, g.ids, r, e.nodeId);
      if Human !in n.kinds {
        BindingIsRegistered(s, g, n);
      }
    } else {
      forall d | d in g.edges
        ensures d.fromNode in g.nodes && d.toNode in g.nodes
      {
        assert d.fromNode in Elems(g.ids) && d.toNode in Elems(g.ids);
      }
    }
  }

  /** The node was bound by a policy allow, not by a fallback or as the human gate. */
  ghost predicate BoundByPolicy(s: Setting, g: NormalizedGraph, v: NodeId) {
    && v in g.nodes && Human !in g.nodes[v].node.kinds
    && RoutedSpec(s, g.nodes[v].node).Some?
    && RoutedNode(s, g, g.nodes[v].node).choice.Picked?
    && IsBound(s, g, v)
  }

  /** The router checks a specification that declares an effect the checked node does not. */
  ghost predicate RoutedExceeds(s: Setting, n: NodeSpec) {
    RoutedSpec(s, n).Some? && exists k :: k in RoutedSpec(s, n).value.effects && k !in n.effects
  }

  lemma {:induction false} TemplateNodeHasId(specs: seq<NodeSpec>, id: NodeId)
    ensures TemplateNode(specs, id).Some? ==> TemplateNode(specs, id).value.nodeId == id
  {
    if specs != [] {
      TemplateNodeHasId(specs[1..], id);
    }
  }

  lemma RoutedSpecHasId(s: Setting, n: NodeSpec)
    ensures RoutedSpec(s, n).Some? ==> RoutedSpec(s, n).value.nodeId == n.nodeId
  {
    if s.template.Some? {
      TemplateNodeHasId(s.template.value.nodes, n.nodeId);
    }
  }

  lemma {:induction false} TemplateNodeIsTheOne(specs: seq<NodeSpec>, n: NodeSpec)
    requires n in specs
    requires forall i, j :: 0 <= i < j < |specs| ==> specs[i].nodeId != specs[j].nodeId
    ensures TemplateNode(specs, n.nodeId) == Some(n)
  {
    if specs[0].nodeId == n.nodeId {
      var i :| 0 <= i < |specs| && specs[i] == n;
    } else {
      assert specs == [specs[0]] + specs[1..];
      TemplateNodeIsTheOne(specs[1..], n);
    }
  }

  /** Without a template, or with one whose node ids are distinct, the router checks the
      node's own specification. */
  lemma SpecsAgree(s: Setting, n: NodeSpec)
    requires s.template.Some? ==>
      n in s.template.value.nodes
      && forall i, j :: 0 <= i < j < |s.template.value.nodes| ==>
           s.template.value.nodes[i].nodeId != s.template.value.nodes[j].nodeId
    ensures !RoutedExceeds(s, n) && RoutedSpec(s, n) == Some(if s.template.Some? then n else n.(views := []))
  {
    if s.template.Some? {
      TemplateNodeIsTheOne(s.template.value.nodes, n);
    }
  }

  lemma PolicyBindingManifest(s: Setting, g: NormalizedGraph, r: ResolverResult, v: NodeId)
    requires UniqueIds(s.store) && IsResolution(s, g, r) && WellFormed(g)
    requires BoundByPolicy(s, g, v)
    ensures BoundManifest(r.bindings, ById(s.store), v)
         == Some(RoutedNode(s, g, g.nodes[v].node).choice.entry.manifest)
  {
    assert v in Elems(g.ids);
    assert BindingAt(s, g, g.ids, r, v);
    var n := g.nodes[v].node;
    BindingIsRegistered(s, g, n);
    PickIsBest(s.store, s.rules, RoutedSpec(s, n).value, s.query.(purpose := g.purpose));
  }

  /** Under any policy a binding chosen by an allow escalates effects exactly when the chosen
      manifest does, which takes a routed specification that exceeds the node. */
  lemma PolicyBindingEscalation(s: Setting, g: NormalizedGraph, r: ResolverResult, v: NodeId)
    requires UniqueIds(s.store) && WellFormed(g) && IsResolution(s, g, r) && BoundByPolicy(s, g, v)
    ensures EffectErrorExpected(g, r.bindings, ById(s.store), CompileError(EffectEscalation, v)) <==>
      Escalates(RoutedNode(s, g, g.nodes[v].node).choice.entry.manifest, g.nodes[v].node)
    ensures EffectErrorExpected(g, r.bindings, ById(s.store), CompileError(EffectEscalation, v)) ==>
      RoutedExceeds(s, g.nodes[v].node)
  {
    PolicyBindingManifest(s, g, r, v);
    PickWithinSpec(s, g, g.nodes[v].node);
  }

  /** The pick declares no effect beyond the routed specification. */
  lemma PickWithinSpec(s: Setting, g: NormalizedGraph, n: NodeSpec)
    requires UniqueIds(s.store) && RoutedSpec(s, n).Some? && RoutedNode(s, g, n).choice.Picked?
    ensures Escalates(RoutedNode(s, g, n).choice.entry.manifest, n) ==> RoutedExceeds(s, n)
  {
    PickIsBest(s.store, s.rules, RoutedSpec(s, n).value, s.query.(purpose := g.purpose));
  }

  /** A setting with template `t` whose policy binds `v` to a manifest that escalates. */
  ghost predicate EscalatesIn(s: Setting, r: ResolverResult, t: TaskTemplate, g: NormalizedGraph, v: NodeId) {
    && s.template == Some(t) && UniqueIds(s.store) && IsResolution(s, g, r) && BoundByPolicy(s, g, v)
    && EffectErrorExpected(g, r.bindings, ById(s.store), CompileError(EffectEscalation, v))
  }

  /** No store, policy or query makes a policy-chosen binding of `v` escalate if and only if
      every effect of the specification the router finds is one of the node's. The default
      policy is enough to make it escalate otherwise. */
  lemma NeverEscalatesIff(t: TaskTemplate, g: NormalizedGraph, v: NodeId)
    requires WellFormed(g) && v in g.nodes && Human !in g.nodes[v].node.kinds
    requires TemplateNode(t.nodes, v).Some? && TemplateNode(t.nodes, v).value.kinds != []
    ensures (forall s, r :: !EscalatesIn(s, r, t, g, v)) <==>
      forall k :: k in TemplateNode(t.nodes, v).value.effects ==> k in g.nodes[v].node.effects
    ensures (exists k :: k in TemplateNode(t.nodes, v).value.effects && k !in g.nodes[v].node.effects) ==>
      exists s, r :: EscalatesIn(s, r, t, g, v) && IsDefaultPolicy(s.rules)
  {
    var n, f := g.nodes[v].node, TemplateNode(t.nodes, v).value;
    forall s, r | EscalatesIn(s, r, t, g, v)
      ensures exists k :: k in f.effects && k !in n.effects
    {
      PolicyBindingEscalation(s, g, r, v);
    }
    if k :| k in f.effects && k !in n.effects {
      DefaultRulesAllow();
      WitnessEscalates(t, g, v, DefaultRules());
    }
  }

  lemma WitnessEscalates(t: TaskTemplate, g: NormalizedGraph, v: NodeId, rules: seq<Rule>)
    requires WellFormed(g) && v in g.nodes && Human !in g.nodes[v].node.kinds
    requires TemplateNode(t.nodes, v).Some? && TemplateNode(t.nodes, v).value.kinds != []
    requires exists k :: k in TemplateNode(t.nodes, v).value.effects && k !in g.nodes[v].node.effects
    requires IsDefaultPolicy(rules)
    ensures exists s, r :: EscalatesIn(s, r, t, g, v) && IsDefaultPolicy(s.rules)
  {
    var n, f := g.nodes[v].node, TemplateNode(t.nodes, v).value;
    var m := WitnessManifest(f);
    var s := WitnessSetting(t, m, rules);
    var r := ResolutionExists(s, g);
    var q := s.query.(purpose := g.purpose);
    assert n.nodeId == v && RoutedSpec(s, n) == Some(f);
    assert DefaultAllows(PolicyRequest(f, m, q)) && IsEligible(f, m);
    SoleManifestBinds(s, g, v, f, m);
    PolicyBindingEscalation(s, g, r, v);
    assert Escalates(m, n);
    assert EscalatesIn(s, r, t, g, v);
  }

  /** A manifest with all the effects of a specification and an id that is not its fallback. */
  function WitnessManifest(f: NodeSpec): Manifest
    requires f.kinds != []
  {
    Manifest(if f.fallback == Some("a") then "b" else "a", f.kinds[0], "1", f.effects, 0.0, 0)
  }

  function WitnessSetting(t: TaskTemplate, m: Manifest, rules: seq<Rule>): Setting {
    Setting([m], rules, Query(SecurityLabel(Public, LOCAL, Synthetic, 0, DEFAULT_OWNER), "", LOCAL, 0.0), Some(t))
  }

  /** The only manifest of the store is what policy binds the node to. */
  lemma SoleManifestBinds(s: Setting, g: NormalizedGraph, v: NodeId, f: NodeSpec, m: Manifest)
    requires s.store == [m] && v in g.nodes && Human !in g.nodes[v].node.kinds && m.capabilityId != ""
    requires RoutedSpec(s, g.nodes[v].node) == Some(f)
    requires IsEligible(f, m) && Allowed(s.rules, f, s.query.(purpose := g.purpose), EntryOf(m))
    ensures BoundByPolicy(s, g, v) && RoutedNode(s, g, g.nodes[v].node).choice.entry == EntryOf(m)
  {
    SoleManifestPicked(s.rules, f, s.query.(purpose := g.purpose), m);
    assert RoutedNode(s, g, g.nodes[v].node) == Routing(s.store, s.rules, f, s.query.(purpose := g.purpose));
  }

  /** The only manifest of a store is picked if it is eligible and allowed. */
  lemma SoleManifestPicked(rules: seq<Rule>, node: NodeSpec, q: Query, m: Manifest)
    requires IsEligible(node, m) && Allowed(rules, node, q, EntryOf(m))
    ensures var r := Routing([m], rules, node, q);
      r.choice.Picked? && r.choice.entry == EntryOf(m) && r.eligible != []
  {
    assert m in [m];
    FallbackOnlyWhenAllDenied([m], rules, node, q);
    PickIsBest([m], rules, node, q);
    EligibleEntriesAre(node, [m]);
    assert EntryOf(m) in EligibleEntries(node, [m]);
  }

  lemma ResolutionExists(s: Setting, g: NormalizedGraph) returns (r: ResolverResult)
    requires WellFormed(g)
    ensures IsResolution(s, g, r)
  {
    r := ResolveUpTo(s, g, |g.ids|);
    assert g.ids[..|g.ids|] == g.ids;
    NoErrorsMeansAllBound(s, g, g.ids, r);
    r := r.(ok := r.errors == []);
  }

  lemma {:induction false} ResolveUpTo(s: Setting, g: NormalizedGraph, i: nat) returns (r: ResolverResult)
    requires WellFormed(g) && i <= |g.ids|
    ensures ResolvedSoFar(s, g, g.ids[..i], r)
  {
    r := ResolverResult(true, map[], map[], map[], [], map[]);
    if i > 0 {
      r := ResolveUpTo(s, g, i - 1);
      assert g.ids[i - 1] in Elems(g.ids);
      TurnKeeps(s, g, g.ids, i - 1, r);
      var n := g.nodes[g.ids[i - 1]].node;
      r := Record(r, n, g.ids[i - 1], BindingOf(s, g, n), EligibleOf(s, n));
    }
  }

  /** Under the default policy such a binding leaks classified data to a public model
      exactly when the data is PARTNER-classified: the policy has no rule for that tier,
      and the flow checker then rejects what the resolver chose. */
  lemma PolicyBindingLeaksOnlyPartner(s: Setting, g: NormalizedGraph, r: ResolverResult, v: NodeId)
    requires UniqueIds(s.store) && WellFormed(g) && IsResolution(s, g, r)
    requires IsDefaultPolicy(s.rules)
    requires BoundByPolicy(s, g, v)
    ensures FlowErrorExpected(g, s.query.dataLabel, r.bindings, ById(s.store), CompileError(RestrictedToPublic, v))
       <==> s.query.dataLabel.classification == Partner && v != PUBLIC_RESEARCH
            && RoutedNode(s, g, g.nodes[v].node).choice.entry.manifest.kind == PublicModel
  {
    var spec := RoutedSpec(s, g.nodes[v].node).value;
    var q := s.query.(purpose := g.purpose);
    var e := RoutedNode(s, g, g.nodes[v].node).choice.entry;
    RoutedSpecHasId(s, g.nodes[v].node);
    PolicyBindingManifest(s, g, r, v);
    PickIsBest(s.store, s.rules, spec, q);
    assert DefaultAllows(PolicyRequest(spec, e.manifest, q));
    assert v in Elems(g.ids);
  }

  /** The graph of a single node. */
  function OneNodeGraph(n: NodeSpec): NormalizedGraph {
    NormalizedGraph("single", [n.nodeId], map[n.nodeId := NormalizedNode(n, [])], [], n.purpose)
  }

  lemma OneNodeGraphIsWellFormed(n: NodeSpec)
    ensures WellFormed(OneNodeGraph(n))
  {
    var g := OneNodeGraph(n);
    assert Elems(g.ids) == {n.nodeId} == g.nodes.Keys;
  }

  /** PARTNER data, one node that accepts public models, one public model that fits it. */
  ghost predicate PartnerCase(s: Setting, n: NodeSpec, m: Manifest) {
    && s.store == [m] && IsDefaultPolicy(s.rules) && s.template.None?
    && s.query.dataLabel.classification == Partner && s.query.dataLabel.residency == LOCAL
    && s.query.budgetUsd >= 0.0 && s.query.purpose == n.purpose
    && n.views == [] && n.kinds == [PublicModel] && n.effects == [] && n.nodeId != PUBLIC_RESEARCH
    && m.kind == PublicModel && m.effects == [] && m.capabilityId != ""
  }

  lemma PartnerCaseRoutes(s: Setting, n: NodeSpec, m: Manifest)
    requires PartnerCase(s, n, m)
    ensures var r := Routing(s.store, s.rules, n, s.query);
      r.choice.Picked? && r.choice.entry == EntryOf(m) && r.eligible != []
  {
    assert DefaultAllows(PolicyRequest(n, m, s.query));
    assert IsEligible(n, m);
    SoleManifestPicked(s.rules, n, s.query, m);
  }

  lemma PickDecidesBinding(s: Setting, n: NodeSpec, m: Manifest)
    requires s.template.None? && n.views == [] && Human !in n.kinds && s.query.purpose == n.purpose
    requires var r := Routing(s.store, s.rules, n, s.query);
      r.choice.Picked? && r.choice.entry == EntryOf(m) && r.eligible != []
    requires m.capabilityId != ""
    ensures BindingOf(s, OneNodeGraph(n), n) == Some((m.capabilityId, Snapshot(m)))
    ensures RoutedNode(s, OneNodeGraph(n), n) == Routing(s.store, s.rules, n, s.query)
  {
    assert RoutedSpec(s, n) == Some(n);
    assert s.query.(purpose := n.purpose) == s.query;
  }

  lemma OneNodeResolution(s: Setting, n: NodeSpec, b: (string, ManifestRef)) returns (r: ResolverResult)
    requires BindingOf(s, OneNodeGraph(n), n) == Some(b) && n.fallback.None?
    ensures IsResolution(s, OneNodeGraph(n), r) && r.ok
  {
    var v := n.nodeId;
    r := ResolverResult(true, map[v := b.0], map[v := b.1], map[v := EligibleOf(s, n)], [], map[]);
    assert IsBound(s, OneNodeGraph(n), v);
  }

  /** In every such case resolution succeeds by policy, and the flow checker rejects it. */
  lemma PartnerDisagreement(s: Setting, n: NodeSpec, m: Manifest) returns (r: ResolverResult)
    requires PartnerCase(s, n, m) && n.fallback.None?
    ensures IsResolution(s, OneNodeGraph(n), r) && r.ok && BoundByPolicy(s, OneNodeGraph(n), n.nodeId)
    ensures FlowErrorExpected(OneNodeGraph(n), s.query.dataLabel, r.bindings, ById(s.store),
                              CompileError(RestrictedToPublic, n.nodeId))
  {
    PartnerCaseRoutes(s, n, m);
    PickDecidesBinding(s, n, m);
    OneNodeGraphIsWellFormed(n);
    r := OneNodeResolution(s, n, (m.capabilityId, Snapshot(m)));
    PolicyBindingLeaksOnlyPartner(s, OneNodeGraph(n), r, n.nodeId);
  }

  // ---- Amendment ----

  /** Node `v` is bound to capability `id` by a resolution in this setting. */
  ghost predicate BindsTo(s: Setting, g: NormalizedGraph, v: NodeId, id: string) {
    IsBound(s, g, v) && BindingOf(s, g, g.nodes[v].node).value.0 == id
  }

  /** Bindings of an amended result: the new resolution's where it binds a node, and the
      previous ones that did not use the unavailable capability elsewhere. */
  ghost predicate AmendedFrom(s: Setting, g: NormalizedGraph, previous: ResolverResult, unavailable: string,
                              r: ResolverResult) {
    && (forall v :: BindingAmended(s, g, previous, unavailable, r, v))
    && (r.ok <==> forall v :: v in g.nodes ==> IsBound(s, g, v))
  }

  ghost predicate BindingAmended(s: Setting, g: NormalizedGraph, previous: ResolverResult, unavailable: string,
                                 r: ResolverResult, v: NodeId) {
    && (v in r.bindings <==>
          IsBound(s, g, v) || (v in previous.bindings && previous.bindings[v] != unavailable))
    && (v in r.bindings ==>
          if IsBound(s, g, v) then BindsTo(s, g, v, r.bindings[v]) else r.bindings[v] == previous.bindings[v])
  }

  /** The rest of an amended result: snapshots go with the bindings, and candidates and errors are
      those of the new resolution. */
  ghost predicate AmendedRest(s: Setting, g: NormalizedGraph, previous: ResolverResult, unavailable: string,
                              r: ResolverResult) {
    && (forall v :: SnapshotAmended(s, g, previous, unavailable, r, v))
    && ListedSoFar(s, g, g.ids, r.eligibleSets)
    && (forall e :: e in r.errors <==> e.kind == InfeasibleBinding && e.nodeId in g.nodes && !IsBound(s, g, e.nodeId))
  }

  ghost predicate SnapshotAmended(s: Setting, g: NormalizedGraph, previous: ResolverResult, unavailable: string,
                                  r: ResolverResult, v: NodeId) {
    if IsBound(s, g, v) then
      v in r.manifestBindings && r.manifestBindings[v] == BindingOf(s, g, g.nodes[v].node).value.1
    else
      var kept := v in previous.manifestBindings && !(v in previous.bindings && previous.bindings[v] == unavailable);
      && (v in r.manifestBindings <==> kept)
      && (kept ==> r.manifestBindings[v] == previous.manifestBindings[v])
  }

  lemma AmendedRestIs(s: Setting, g: NormalizedGraph, p: ResolverResult, unavailable: string, affected: set<NodeId>,
                      again: ResolverResult, r: ResolverResult)
    requires IsResolution(s, g, again) && WellFormed(g)
    requires affected == set v | v in p.bindings && p.bindings[v] == unavailable
    requires r.manifestBindings == (p.manifestBindings - affected) + again.manifestBindings
    requires r.eligibleSets == again.eligibleSets && r.errors == again.errors
    ensures AmendedRest(s, g, p, unavailable, r)
  {
    assert forall v :: v in g.ids <==> v in Elems(g.ids);
    forall v
      ensures SnapshotAmended(s, g, p, unavailable, r, v)
    {
      assert BindingAt(s, g, g.ids, again, v);
    }
  }

  /** Re-resolution after a capability became unavailable. The unavailable id only decides
      whether to re-run and which old bindings may remain: the amended bindings still use it
      exactly when some node resolves to it in the given setting. Amending a resolution of
      the same graph in the same setting therefore changes nothing. */
  method Amend(previous: ResolverResult, unavailable: string, s: Setting, g: NormalizedGraph)
    returns (r: Result<ResolverResult, ResolveError>)
    requires WellFormed(g)
    ensures unavailable !in previous.bindings.Values ==> r == Ok(previous)
    ensures unavailable in previous.bindings.Values ==>
      (r.Ok? <==> Acyclic(g.Arcs()) && AllResolvable(s, g))
    ensures unavailable in previous.bindings.Values && r.Ok? ==>
      && AmendedFrom(s, g, previous, unavailable, r.value) && AmendedRest(s, g, previous, unavailable, r.value)
      && (unavailable in r.value.bindings.Values <==> exists v :: BindsTo(s, g, v, unavailable))
    ensures r.Ok? && UniqueIds(s.store) && unavailable !in ById(s.store) && unavailable != HUMAN_APPROVER ==>
      unavailable !in r.value.bindings.Values
    ensures r.Ok? && IsResolution(s, g, previous) ==>
      r.value.bindings == previous.bindings && r.value.manifestBindings == previous.manifestBindings
  {
    if unavailable !in previous.bindings.Values {
      return Ok(previous);
    }
    var affected := set v | v in previous.bindings && previous.bindings[v] == unavailable;
    var again := Resolve(s, g);
    if again.Err? {
      return again;
    }
    AmendedBindings(s, g, previous, again.value, affected);
    var amended := again.value.(
      bindings := (previous.bindings - affected) + again.value.bindings,
      manifestBindings := (previous.manifestBindings - affected) + again.value.manifestBindings);
    AmendedIsFrom(s, g, previous, unavailable, affected, again.value, amended);
    AmendedRestIs(s, g, previous, unavailable, affected, again.value, amended);
    UnregisteredIsUnused(s, g, unavailable);
    return Ok(amended);
  }

  /** No resolution uses an id that is neither registered nor the human approver. */
  lemma UnregisteredIsUnused(s: Setting, g: NormalizedGraph, id: string)
    ensures UniqueIds(s.store) && id !in ById(s.store) && id != HUMAN_APPROVER ==>
      forall v :: !BindsTo(s, g, v, id)
  {
    if UniqueIds(s.store) && id !in ById(s.store) && id != HUMAN_APPROVER {
      forall v | IsBound(s, g, v)
        ensures !BindsTo(s, g, v, id)
      {
        if Human !in g.nodes[v].node.kinds {
          BindingIsRegistered(s, g, g.nodes[v].node);
        }
      }
    }
  }

  ghost predicate NewBinding(s: Setting, g: NormalizedGraph, again: ResolverResult, v: NodeId) {
    (v in again.bindings <==> IsBound(s, g, v)) && (v in again.bindings ==> BindsTo(s, g, v, again.bindings[v]))
  }

  lemma NewBindingAt(s: Setting, g: NormalizedGraph, again: ResolverResult, v: NodeId)
    requires IsResolution(s, g, again) && WellFormed(g)
    ensures NewBinding(s, g, again, v)
  {
    assert v in g.ids <==> v in Elems(g.ids);
    assert BindingAt(s, g, g.ids, again, v);
  }

  lemma AmendedIsFrom(s: Setting, g: NormalizedGraph, p: ResolverResult, unavailable: string, affected: set<NodeId>,
                      again: ResolverResult, r: ResolverResult)
    requires IsResolution(s, g, again) && WellFormed(g)
    requires affected == set v | v in p.bindings && p.bindings[v] == unavailable
    requires r.bindings == (p.bindings - affected) + again.bindings && r.ok == again.ok
    ensures AmendedFrom(s, g, p, unavailable, r)
    ensures unavailable in r.bindings.Values <==> exists v :: BindsTo(s, g, v, unavailable)
  {
    forall v
      ensures BindingAmended(s, g, p, unavailable, r, v)
    {
      NewBindingAt(s, g, again, v);
      AmendedAtNode(s, g, p, unavailable, affected, again, r, v);
    }
    ResolutionVerdict(s, g, again);
    AmendedUses(s, g, p, unavailable, affected, again, r);
  }

  lemma ResolutionVerdict(s: Setting, g: NormalizedGraph, again: ResolverResult)
    requires IsResolution(s, g, again)
    ensures again.ok <==> forall v :: v in g.nodes ==> IsBound(s, g, v)
  {
  }

  lemma AmendedAtNode(s: Setting, g: NormalizedGraph, p: ResolverResult, unavailable: string,
                      affected: set<NodeId>, again: ResolverResult, r: ResolverResult, v: NodeId)
    requires NewBinding(s, g, again, v)
    requires affected == set v | v in p.bindings && p.bindings[v] == unavailable
    requires r.bindings == (p.bindings - affected) + again.bindings
    ensures BindingAmended(s, g, p, unavailable, r, v)
  {
  }

  lemma AmendedUses(s: Setting, g: NormalizedGraph, p: ResolverResult, unavailable: string, affected: set<NodeId>,
                    again: ResolverResult, r: ResolverResult)
    requires IsResolution(s, g, again) && WellFormed(g)
    requires affected == set v | v in p.bindings && p.bindings[v] == unavailable
    requires r.bindings == (p.bindings - affected) + again.bindings
    ensures unavailable in r.bindings.Values <==> exists v :: BindsTo(s, g, v, unavailable)
  {
    if unavailable in r.bindings.Values {
      var v :| v in r.bindings && r.bindings[v] == unavailable;
      NewBindingAt(s, g, again, v);
      assert v in again.bindings;
    }
    if v :| BindsTo(s, g, v, unavailable) {
      NewBindingAt(s, g, again, v);
      assert v in r.bindings && r.bindings[v] == unavailable;
    }
  }

  lemma AmendedBindings(s: Setting, g: NormalizedGraph, p: ResolverResult, r: ResolverResult, affected: set<NodeId>)
    requires IsResolution(s, g, r)
    ensures IsResolution(s, g, p) ==>
      && (p.bindings - affected) + r.bindings == p.bindings
      && (p.manifestBindings - affected) + r.manifestBindings == p.manifestBindings
  {
    if IsResolution(s, g, p) {
      ResolutionIsUnique(s, g, p, r);
      assert (p.bindings - affected) + p.bindings == p.bindings;
      assert (p.manifestBindings - affected) + p.manifestBindings == p.manifestBindings;
    }
  }

  /** Setting and graph determine the bindings. */
  lemma ResolutionIsUnique(s: Setting, g: NormalizedGraph, p: ResolverResult, r: ResolverResult)
    requires IsResolution(s, g, p) && IsResolution(s, g, r)
    ensures p.bindings == r.bindings && p.manifestBindings == r.manifestBindings
  {
    SameBindings(s, g, p, r);
  }

  lemma SameBindings(s: Setting, g: NormalizedGraph, p: ResolverResult, r: ResolverResult)
    requires forall v :: BindingAt(s, g, g.ids, p, v)
    requires forall v :: BindingAt(s, g, g.ids, r, v)
    ensures p.bindings == r.bindings && p.manifestBindings == r.manifestBindings
  {
    forall v
      ensures v in p.bindings <==> v in r.bindings
      ensures v in p.manifestBindings <==> v in r.manifestBindings
      ensures v in p.bindings ==> p.bindings[v] == r.bindings[v]
      ensures v in p.manifestBindings ==> p.manifestBindings[v] == r.manifestBindings[v]
    {
      SameBindingAt(s, g, p, r, v);
    }
  }

  lemma SameBindingAt(s: Setting, g: NormalizedGraph, p: ResolverResult, r: ResolverResult, v: NodeId)
    requires BindingAt(s, g, g.ids, p, v) && BindingAt(s, g, g.ids, r, v)
    ensures v in p.bindings <==> v in r.bindings
    ensures v in p.manifestBindings <==> v in r.manifestBindings
    ensures v in p.bindings ==> p.bindings[v] == r.bindings[v]
    ensures v in p.manifestBindings ==> p.manifestBindings[v] == r.manifestBindings[v]
  {
  }
}
