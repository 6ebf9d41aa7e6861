/** Capability registry: scoring, eligible sets, the first-match policy and the router. */
module Registry {
  import opened Prelude
  import opened Schema

  // ---- Manifest store ----

  /** Manifests in registration order. */
  type Store = seq<Manifest>

  ghost predicate UniqueIds(store: Store) {
    forall i, j :: 0 <= i < j < |store| ==> store[i].capabilityId != store[j].capabilityId
  }

  function Lookup(store: Store, id: string): Option<Manifest> {
    if store == [] then None
    else if store[0].capabilityId == id then Some(store[0])
    else Lookup(store[1..], id)
  }

  /** Registration refuses an id that is taken, which is what keeps ids unique. */
  function Register(store: Store, m: Manifest): Result<Store, RegistryError> {
    if Lookup(store, m.capabilityId).Some? then Err(AlreadyRegistered) else Ok(store + [m])
  }

  lemma {:induction false} LookupFinds(store: Store, id: string)
    ensures Lookup(store, id).Some? ==>
      Lookup(store, id).value in store && Lookup(store, id).value.capabilityId == id
    ensures Lookup(store, id).None? ==> forall m :: m in store ==> m.capabilityId != id
  {
    if store != [] {
      LookupFinds(store[1..], id);
    }
  }

  lemma LookupIsTheOne(store: Store, m: Manifest)
    requires UniqueIds(store) && m in store
    ensures Lookup(store, m.capabilityId) == Some(m)
  {
    LookupFinds(store, m.capabilityId);
    var i :| 0 <= i < |store| && store[i] == m;
    var f := Lookup(store, m.capabilityId).value;
    var j :| 0 <= j < |store| && store[j] == f;
  }

  lemma RegisterKeepsIdsUnique(store: Store, m: Manifest)
    requires UniqueIds(store)
    ensures Register(store, m).Ok? <==> forall k :: k in store ==> k.capabilityId != m.capabilityId
    ensures Register(store, m).Ok? ==> UniqueIds(Register(store, m).value)
    ensures Register(store, m).Ok? ==> store <= Register(store, m).value
    ensures Register(store, m).Ok? ==> forall k :: k in Register(store, m).value <==> k in store || k == m
  {
    LookupFinds(store, m.capabilityId);
  }

  datatype RegistryError = NoEligibleKinds | AlreadyRegistered

  // ---- Ranking ----

  datatype EligibleEntry = EligibleEntry(capabilityId: string, manifest: Manifest, score: real)

  function PositivePart(x: real): real {
    if x > 0.0 then x else 0.0
  }

  /** Cheaper and faster is better; in-tenant kinds get a small bonus. */
  function Score(m: Manifest): real {
    PositivePart(1.0 - m.costUsd)
    + PositivePart(1.0 - m.p50LatencyMs as real / 5000.0)
    + (if m.kind == LocalModel || m.kind == A2aAgent then 0.05 else 0.0)
  }

  /** Cheaper and faster never scores lower within a kind. */
  lemma ScoreIsMonotone(m: Manifest, n: Manifest)
    requires m.kind == n.kind && m.costUsd <= n.costUsd && m.p50LatencyMs <= n.p50LatencyMs
    ensures Score(m) >= Score(n)
  {
    assert m.p50LatencyMs as real / 5000.0 <= n.p50LatencyMs as real / 5000.0;
  }

  /** The in-tenant bonus is meant to be too small to beat a free capability. At equal
      latency a free capability outside the tenant scores higher exactly when the in-tenant
      one costs more than the bonus. */
  lemma FreeBeatsBonus(free: Manifest, inTenant: Manifest)
    requires free.costUsd == 0.0 && free.p50LatencyMs == inTenant.p50LatencyMs && inTenant.costUsd >= 0.0
    requires free.kind != LocalModel && free.kind != A2aAgent
    requires inTenant.kind == LocalModel || inTenant.kind == A2aAgent
    ensures Score(free) > Score(inTenant) <==> inTenant.costUsd > 0.05
  {
  }

  /** Within a kind, up to one dollar and five seconds, a second is worth twenty cents; beyond
      those limits cost and latency stop counting. */
  lemma ScoreTradeOff(m: Manifest, n: Manifest)
    requires m.kind == n.kind
    ensures m.costUsd <= 1.0 && n.costUsd <= 1.0 && m.p50LatencyMs <= 5000 && n.p50LatencyMs <= 5000 ==>
      (Score(m) > Score(n) <==> 5000.0 * (n.costUsd - m.costUsd) > (m.p50LatencyMs - n.p50LatencyMs) as real)
    ensures m.costUsd >= 1.0 && n.costUsd >= 1.0 && m.p50LatencyMs == n.p50LatencyMs ==> Score(m) == Score(n)
    ensures m.costUsd == n.costUsd && m.p50LatencyMs >= 5000 && n.p50LatencyMs >= 5000 ==> Score(m) == Score(n)
  {
    LatencyTerm(m.p50LatencyMs);
    LatencyTerm(n.p50LatencyMs);
  }

  lemma LatencyTerm(ms: nat)
    ensures ms <= 5000 ==> 5000.0 * PositivePart(1.0 - ms as real / 5000.0) == 5000.0 - ms as real
    ensures ms >= 5000 ==> PositivePart(1.0 - ms as real / 5000.0) == 0.0
  {
    var share := ms as real / 5000.0;
    assert share * 5000.0 == ms as real;
  }

  /** An in-tenant kind is worth five cents. */
  lemma InTenantBonus(m: Manifest, n: Manifest)
    requires m.costUsd == n.costUsd && m.p50LatencyMs == n.p50LatencyMs
    requires m.kind in {LocalModel, A2aAgent} && n.kind !in {LocalModel, A2aAgent}
    ensures Score(m) == Score(n) + 0.05
  {
  }

  function EntryOf(m: Manifest): EligibleEntry {
    EligibleEntry(m.capabilityId, m, Score(m))
  }

  /** Higher score first, ties by smaller capability id. */
  predicate RanksBefore(e: EligibleEntry, f: EligibleEntry) {
    e.score > f.score || (e.score == f.score && StrLess(e.capabilityId, f.capabilityId))
  }

  ghost predicate Ranked(s: seq<EligibleEntry>) {
    forall i, j :: 0 <= i < j < |s| ==> RanksBefore(s[i], s[j])
  }

  lemma RanksTransitive(e: EligibleEntry, f: EligibleEntry, g: EligibleEntry)
    requires RanksBefore(e, f) && RanksBefore(f, g)
    ensures RanksBefore(e, g)
  {
    if e.score == g.score {
      StrTransitive(e.capabilityId, f.capabilityId, g.capabilityId);
    }
  }

  function Insert(e: EligibleEntry, s: seq<EligibleEntry>): seq<EligibleEntry> {
    if s == [] || !RanksBefore(s[0], e) then [e] + s else [s[0]] + Insert(e, s[1..])
  }

  function Sorted(s: seq<EligibleEntry>): seq<EligibleEntry> {
    if s == [] then [] else Insert(s[|s| - 1], Sorted(s[..|s| - 1]))
  }

  lemma {:induction false} InsertKeepsRanked(e: EligibleEntry, s: seq<EligibleEntry>)
    requires Ranked(s) && forall f :: f in s ==> f.capabilityId != e.capabilityId
    ensures Ranked(Insert(e, s))
    ensures forall f :: f in Insert(e, s) <==> f == e || f in s
  {
    if s == [] {
    } else if !RanksBefore(s[0], e) {
      StrTotal(e.capabilityId, s[0].capabilityId);
      forall j | 0 <= j < |s|
        ensures RanksBefore(e, s[j])
      {
        if j > 0 {
          RanksTransitive(e, s[0], s[j]);
        }
      }
    } else {
      assert s == [s[0]] + s[1..];
      InsertKeepsRanked(e, s[1..]);
      forall f | f in Insert(e, s[1..])
        ensures RanksBefore(s[0], f)
      {
      }
    }
  }

  lemma {:induction false} SortedIsRanked(s: seq<EligibleEntry>)
    requires forall i, j :: 0 <= i < j < |s| ==> s[i].capabilityId != s[j].capabilityId
    ensures Ranked(Sorted(s))
    ensures forall f :: f in Sorted(s) <==> f in s
  {
    if s != [] {
      var init, last := s[..|s| - 1], s[|s| - 1];
      SortedIsRanked(init);
      assert s == init + [last];
      InsertKeepsRanked(last, Sorted(init));
    }
  }

  /** Two rankings of the same entries are the same sequence. */
  lemma {:induction false} RankingUnique(s: seq<EligibleEntry>, t: seq<EligibleEntry>)
    requires Ranked(s) && Ranked(t) && forall f :: f in s <==> f in t
    ensures s == t
  {
    EmptyTogether(s, t);
    if s != [] {
      HeadsAgree(s, t);
      TailHasRest(s);
      TailHasRest(t);
      RankingUnique(s[1..], t[1..]);
      assert s == [s[0]] + s[1..] && t == [t[0]] + t[1..];
    }
  }

  lemma EmptyTogether(s: seq<EligibleEntry>, t: seq<EligibleEntry>)
    requires forall f :: f in s <==> f in t
    ensures s == [] <==> t == []
  {
    if s != [] { assert s[0] in s; }
    if t != [] { assert t[0] in t; }
  }

  lemma HeadsAgree(s: seq<EligibleEntry>, t: seq<EligibleEntry>)
    requires Ranked(s) && Ranked(t) && s != [] && t != [] && forall f :: f in s <==> f in t
    ensures s[0] == t[0]
  {
    assert s[0] in t && t[0] in s;
    var i :| 0 <= i < |t| && t[i] == s[0];
    var j :| 0 <= j < |s| && s[j] == t[0];
    StrTotal(s[0].capabilityId, t[0].capabilityId);
  }

  lemma TailHasRest(s: seq<EligibleEntry>)
    requires Ranked(s) && s != []
    ensures Ranked(s[1..])
    ensures forall f :: f in s[1..] <==> f in s && f != s[0]
  {
    assert s == [s[0]] + s[1..];
    StrTotal(s[0].capabilityId, s[0].capabilityId);
  }

  // ---- Eligible sets ----

  /** Structural eligibility: right kind, not the separately kept fallback, no new effects. */
  predicate IsEligible(node: NodeSpec, m: Manifest) {
    && m.kind in node.kinds
    && !(node.fallback == Some(m.capabilityId) && |node.kinds| > 1)
    && forall k :: k in m.effects ==> k in node.effects
  }

  function Candidates(node: NodeSpec, store: Store): seq<EligibleEntry> {
    if store == [] then []
    else
      var m := store[|store| - 1];
      Candidates(node, store[..|store| - 1]) + (if IsEligible(node, m) then [EntryOf(m)] else [])
  }

  function EligibleEntries(node: NodeSpec, store: Store): seq<EligibleEntry> {
    Sorted(Candidates(node, store))
  }

  method EligibleSet(node: NodeSpec, store: Store) returns (r: Result<seq<EligibleEntry>, RegistryError>)
    ensures r == if node.kinds == [] then Err(NoEligibleKinds) else Ok(EligibleEntries(node, store))
  {
    if node.kinds == [] {
      return Err(NoEligibleKinds);
    }
    var out: seq<EligibleEntry> := [];
    for i := 0 to |store|
      invariant out == Candidates(node, store[..i])
    {
      assert store[..i + 1][..i] == store[..i];
      var m := store[i];
      if m.kind !in node.kinds {
        continue;
      }
      if node.fallback == Some(m.capabilityId) && |node.kinds| > 1 {
        continue;
      }
      if exists k :: k in m.effects && k !in node.effects {
        continue;
      }
      out := out + [EntryOf(m)];
    }
    assert store[..|store|] == store;
    return Ok(Sorted(out));
  }

  lemma {:induction false} CandidatesAre(node: NodeSpec, store: Store)
    requires UniqueIds(store)
    ensures forall e :: e in Candidates(node, store) <==>
      e.manifest in store && IsEligible(node, e.manifest) && e == EntryOf(e.manifest)
    ensures forall i, j :: 0 <= i < j < |Candidates(node, store)| ==>
      Candidates(node, store)[i].capabilityId != Candidates(node, store)[j].capabilityId
  {
    if store != [] {
      var init, m := store[..|store| - 1], store[|store| - 1];
      CandidatesAre(node, init);
      assert store == init + [m];
      forall e | e in Candidates(node, init)
        ensures e.capabilityId != m.capabilityId
      {
        var i :| 0 <= i < |init| && init[i] == e.manifest;
        assert store[i] == e.manifest;
      }
    }
  }

  /** The eligible set lists exactly the eligible manifests, best first. */
  lemma EligibleEntriesAre(node: NodeSpec, store: Store)
    requires UniqueIds(store)
    ensures Ranked(EligibleEntries(node, store))
    ensures forall e :: e in EligibleEntries(node, store) <==>
      e.manifest in store && IsEligible(node, e.manifest) && e == EntryOf(e.manifest)
  {
    CandidatesAre(node, store);
    SortedIsRanked(Candidates(node, store));
  }

  /** Why a registered manifest is not a candidate: its kind, a new effect, or being the fallback
      of a node that accepts several kinds. */
  lemma WhyNotCandidate(node: NodeSpec, store: Store, m: Manifest)
    requires UniqueIds(store) && m in store
    ensures EligibleEntry(m.capabilityId, m, Score(m)) !in EligibleEntries(node, store) <==>
      || m.kind !in node.kinds
      || (exists k :: k in m.effects && k !in node.effects)
      || (node.fallback == Some(m.capabilityId) && |node.kinds| >= 2)
  {
    EligibleEntriesAre(node, store);
    assert EntryOf(m).manifest == m;
  }

  // ---- Policy ----

  /** What routing asks for, besides the node and the capability. */
  datatype Query = Query(dataLabel: SecurityLabel, purpose: string, region: string, budgetUsd: real)

  datatype PolicyRequest = PolicyRequest(node: NodeSpec, capability: Manifest, query: Query)

  datatype Verdict = Matches | Skips | Raises(message: string)

  datatype Rule = Rule(id: string, allows: bool, reason: string, test: PolicyRequest -> Verdict)

  datatype PolicyDecision = PolicyDecision(allow: bool, reason: string, ruleId: string)

  const DEFAULT_DENY := PolicyDecision(false, "no policy rule matched (default deny)", "default-deny")

  /** The rule that decides a request: the first that does not skip it. */
  function Decisive(rules: seq<Rule>, req: PolicyRequest): nat
    ensures Decisive(rules, req) <= |rules|
    ensures forall i :: 0 <= i < Decisive(rules, req) ==> rules[i].test(req) == Skips
    ensures Decisive(rules, req) < |rules| ==> rules[Decisive(rules, req)].test(req) != Skips
  {
    if rules == [] || rules[0].test(req) != Skips then 0 else 1 + Decisive(rules[1..], req)
  }

  function RuleDecision(rule: Rule, req: PolicyRequest): PolicyDecision {
    match rule.test(req)
    case Raises(message) => PolicyDecision(false, message, rule.id)
    case _ => PolicyDecision(rule.allows, rule.reason, rule.id)
  }

  function Decision(rules: seq<Rule>, req: PolicyRequest): PolicyDecision {
    var k := Decisive(rules, req);
    if k < |rules| then RuleDecision(rules[k], req) else DEFAULT_DENY
  }

  method Decide(rules: seq<Rule>, req: PolicyRequest) returns (d: PolicyDecision)
    ensures d == Decision(rules, req)
  {
    for i := 0 to |rules|
      invariant forall k :: 0 <= k < i ==> rules[k].test(req) == Skips
    {
      match rules[i].test(req) {
        case Matches =>
          assert Decisive(rules, req) == i;
          return PolicyDecision(rules[i].allows, rules[i].reason, rules[i].id);
        case Raises(message) =>
          assert Decisive(rules, req) == i;
          return PolicyDecision(false, message, rules[i].id);
        case Skips =>
      }
    }
    assert Decisive(rules, req) == |rules|;
    return DEFAULT_DENY;
  }

  /** The first rule that says something decides: what it says if it matches, a denial if it
      raises; and nothing is allowed unless a rule that allows matched. */
  lemma FirstMatchDecides(rules: seq<Rule>, req: PolicyRequest, k: nat)
    requires k <= |rules| && forall i :: 0 <= i < k ==> rules[i].test(req) == Skips
    ensures k == |rules| ==>
      Decision(rules, req) == PolicyDecision(false, "no policy rule matched (default deny)", "default-deny")
    ensures k < |rules| && rules[k].test(req) == Matches ==>
      Decision(rules, req) == PolicyDecision(rules[k].allows, rules[k].reason, rules[k].id)
    ensures k < |rules| && rules[k].test(req).Raises? ==>
      Decision(rules, req) == PolicyDecision(false, rules[k].test(req).message, rules[k].id)
  {
    var d := Decisive(rules, req);
    assert d < |rules| ==> rules[d].test(req) != Skips;
  }

  lemma AllowedByMatch(rules: seq<Rule>, req: PolicyRequest)
    ensures Decision(rules, req).allow <==> exists k :: AllowsFirst(rules, req, k)
  {
    var d := Decisive(rules, req);
    FirstMatchDecides(rules, req, d);
    if d < |rules| && rules[d].test(req) == Matches && rules[d].allows {
      assert AllowsFirst(rules, req, d);
    }
    if k :| AllowsFirst(rules, req, k) {
      FirstMatchDecides(rules, req, k);
    }
  }

  /** Rule `k` matches and allows, and all rules before it skip the request. */
  ghost predicate AllowsFirst(rules: seq<Rule>, req: PolicyRequest, k: nat) {
    && k < |rules| && rules[k].test(req) == Matches && rules[k].allows
    && forall i :: 0 <= i < k ==> rules[i].test(req) == Skips
  }

  /** A rule added at the end decides only the requests that were denied by default. */
  lemma AppendedRuleIsLast(rules: seq<Rule>, rule: Rule, req: PolicyRequest)
    ensures Decision(rules + [rule], req) ==
      if Decisive(rules, req) < |rules| then Decision(rules, req)
      else if rule.test(req) == Skips then DEFAULT_DENY else RuleDecision(rule, req)
  {
    var k, all := Decisive(rules, req), rules + [rule];
    assert all[|rules|] == rule;
    assert forall i :: 0 <= i < |rules| ==> all[i] == rules[i];
    assert Decisive(all, req) == if k < |rules| then k else if rule.test(req) == Skips then |all| else k;
  }

  function When(condition: bool): Verdict {
    if condition then Matches else Skips
  }

  function DefaultRules(): seq<Rule> {
    [ Rule("no-restricted-to-public", false, "restricted data must not flow to a public-model adapter",
        (c: PolicyRequest) => When(c.query.dataLabel.classification == Restricted && c.capability.kind == PublicModel)),
      Rule("internal-to-public-needs-public-research", false,
        "internal data can only flow to public-model via a public-research node",
        (c: PolicyRequest) => When(
          c.query.dataLabel.classification == Internal && c.capability.kind == PublicModel
          && c.node.nodeId != "public_research")),
      Rule("kind-mismatch", false, "capability kind not in node's eligible set",
        (c: PolicyRequest) => When(c.capability.kind !in c.node.kinds)),
      Rule("effect-escalation", false, "capability declares effects the node did not declare",
        (c: PolicyRequest) => When(exists k :: k in c.capability.effects && k !in c.node.effects)),
      Rule("residency-mismatch", false, "data residency and run region are incompatible",
        (c: PolicyRequest) => When(
          c.query.dataLabel.residency != LOCAL && c.query.dataLabel.residency != "public"
          && c.query.dataLabel.residency != c.query.region)),
      Rule("budget-exceeded", false, "capability cost exceeds remaining budget",
        (c: PolicyRequest) => When(c.query.budgetUsd < 0.0)),
      Rule("default-allow", true, "no deny rule matched", (c: PolicyRequest) => Matches)
    ]
  }

  /** What the default bundle allows, as one condition. */
  ghost predicate DefaultAllows(c: PolicyRequest) {
    && (c.capability.kind == PublicModel ==>
          && c.query.dataLabel.classification != Restricted
          && (c.query.dataLabel.classification == Internal ==> c.node.nodeId == "public_research"))
    && c.capability.kind in c.node.kinds
    && (forall k :: k in c.capability.effects ==> k in c.node.effects)
    && (c.query.dataLabel.residency == LOCAL || c.query.dataLabel.residency == "public"
        || c.query.dataLabel.residency == c.query.region)
    && c.query.budgetUsd >= 0.0
  }

  /** A policy that allows exactly what the default bundle allows. */
  ghost predicate IsDefaultPolicy(rules: seq<Rule>) {
    forall c :: Decision(rules, c).allow <==> DefaultAllows(c)
  }

  lemma DefaultRulesAllow()
    ensures IsDefaultPolicy(DefaultRules())
  {
    forall c
      ensures Decision(DefaultRules(), c).allow <==> DefaultAllows(c)
    {
      DefaultDecision(c);
    }
  }

  /** Denying rules before a last one that allows everything: allowed iff none of them matches. */
  lemma LastRuleAllows(rules: seq<Rule>, c: PolicyRequest)
    requires rules != [] && rules[|rules| - 1].test(c) == Matches && rules[|rules| - 1].allows
    requires forall i :: 0 <= i < |rules| - 1 ==> !rules[i].allows
    ensures Decision(rules, c).allow <==> forall i :: 0 <= i < |rules| - 1 ==> rules[i].test(c) == Skips
  {
    var k := Decisive(rules, c);
    assert k < |rules|;
    if k < |rules| - 1 {
      assert rules[k].test(c) != Skips && !rules[k].allows;
    }
  }

  lemma DefaultDecision(c: PolicyRequest)
    ensures Decision(DefaultRules(), c).allow <==> DefaultAllows(c)
  {
    var rules := DefaultRules();
    LastRuleAllows(rules, c);
    DefaultTests(c);
    assert (forall i :: 0 <= i < 6 ==> rules[i].test(c) == Skips) <==>
      && rules[0].test(c) == Skips && rules[1].test(c) == Skips && rules[2].test(c) == Skips
      && rules[3].test(c) == Skips && rules[4].test(c) == Skips && rules[5].test(c) == Skips;
  }

  /** When each denying rule of the default bundle lets a request pass. */
  lemma DefaultTests(c: PolicyRequest)
    ensures var rules, data := DefaultRules(), c.query.dataLabel;
      && (rules[0].test(c) == Skips <==> !(data.classification == Restricted && c.capability.kind == PublicModel))
      && (rules[1].test(c) == Skips <==>
            !(data.classification == Internal && c.capability.kind == PublicModel
              && c.node.nodeId != "public_research"))
      && (rules[2].test(c) == Skips <==> c.capability.kind in c.node.kinds)
      && (rules[3].test(c) == Skips <==> forall k :: k in c.capability.effects ==> k in c.node.effects)
      && (rules[4].test(c) == Skips <==>
            data.residency == LOCAL || data.residency == "public" || data.residency == c.query.region)
      && (rules[5].test(c) == Skips <==> c.query.budgetUsd >= 0.0)
  {
  }

  // ---- Router ----

  datatype ManifestRef = NoManifest | Synthesised | Snapshot(manifest: Manifest)

  datatype Choice =
    | Picked(entry: EligibleEntry, decision: PolicyDecision)
    | FellBack(manifest: Manifest, lastReason: Option<string>)
    | Failed(reason: string)
  {
    function CapabilityId(): string {
      match this
      case Picked(entry, _) => entry.capabilityId
      case FellBack(manifest, _) => manifest.capabilityId
      case Failed(_) => ""
    }

    function ManifestId(): ManifestRef {
      match this
      case Picked(entry, _) => Snapshot(entry.manifest)
      case FellBack(manifest, _) => Snapshot(manifest)
      case Failed(_) => NoManifest
    }
  }

  datatype RoutingResult = RoutingResult(
    choice: Choice,
    eligible: seq<EligibleEntry>,
    denied: seq<(string, string)>,
    rejected: map<string, string>
  )

  function Allowed(rules: seq<Rule>, node: NodeSpec, q: Query, e: EligibleEntry): bool {
    Decision(rules, PolicyRequest(node, e.manifest, q)).allow
  }

  /** Index of the first allowed entry, or the length. */
  ghost function FirstAllowed(rules: seq<Rule>, node: NodeSpec, q: Query, entries: seq<EligibleEntry>): nat
    ensures FirstAllowed(rules, node, q, entries) <= |entries|
    ensures forall i :: 0 <= i < FirstAllowed(rules, node, q, entries) ==> !Allowed(rules, node, q, entries[i])
    ensures FirstAllowed(rules, node, q, entries) < |entries| ==>
      Allowed(rules, node, q, entries[FirstAllowed(rules, node, q, entries)])
  {
    if entries == [] || Allowed(rules, node, q, entries[0]) then 0
    else 1 + FirstAllowed(rules, node, q, entries[1..])
  }

  ghost function Denials(rules: seq<Rule>, node: NodeSpec, q: Query, entries: seq<EligibleEntry>)
    : seq<(string, string)>
  {
    seq(|entries|, i requires 0 <= i < |entries| =>
      (entries[i].capabilityId, Decision(rules, PolicyRequest(node, entries[i].manifest, q)).reason))
  }

  ghost function AsMap(pairs: seq<(string, string)>): map<string, string> {
    if pairs == [] then map[]
    else AsMap(pairs[..|pairs| - 1])[pairs[|pairs| - 1].0 := pairs[|pairs| - 1].1]
  }

  lemma DenialsExtend(rules: seq<Rule>, node: NodeSpec, q: Query, entries: seq<EligibleEntry>, i: nat)
    requires i < |entries|
    ensures var denied := Denials(rules, node, q, entries[..i]);
      var id, d := entries[i].capabilityId, Decision(rules, PolicyRequest(node, entries[i].manifest, q));
      && Denials(rules, node, q, entries[..i + 1]) == denied + [(id, d.reason)]
      && AsMap(denied + [(id, d.reason)]) == AsMap(denied)[id := d.reason]
  {
    var denied := Denials(rules, node, q, entries[..i]);
    var id, d := entries[i].capabilityId, Decision(rules, PolicyRequest(node, entries[i].manifest, q));
    var more := denied + [(id, d.reason)];
    assert more[..|more| - 1] == denied;
  }

  /** The answer when policy denied every candidate. */
  function FallbackChoice(store: Store, node: NodeSpec, last: Option<string>): Choice {
    if node.fallback.Some? && node.fallback.value != "" && Lookup(store, node.fallback.value).Some? then
      FellBack(Lookup(store, node.fallback.value).value, last)
    else Failed(if last.Some? then last.value else "no eligible candidates")
  }

  /** The routing decision as a value. */
  ghost function Routing(store: Store, rules: seq<Rule>, node: NodeSpec, q: Query): RoutingResult {
    var entries := EligibleEntries(node, store);
    var k := FirstAllowed(rules, node, q, entries);
    var denied := Denials(rules, node, q, entries[..k]);
    var last := if denied == [] then None else Some(denied[|denied| - 1].1);
    var choice :=
      if k < |entries| then
        Picked(entries[k], Decision(rules, PolicyRequest(node, entries[k].manifest, q)))
      else FallbackChoice(store, node, last);
    RoutingResult(choice, entries, denied, AsMap(denied))
  }

  /** What the loop over the candidates knows after `i` denials. */
  ghost predicate DeniedUpTo(rules: seq<Rule>, node: NodeSpec, q: Query, entries: seq<EligibleEntry>, i: nat,
                             denied: seq<(string, string)>, rejected: map<string, string>) {
    && i <= FirstAllowed(rules, node, q, entries) <= |entries|
    && denied == Denials(rules, node, q, entries[..i]) && rejected == AsMap(denied)
  }

  lemma FirstAllowedHere(rules: seq<Rule>, node: NodeSpec, q: Query, entries: seq<EligibleEntry>, i: nat)
    requires i < |entries| && i <= FirstAllowed(rules, node, q, entries)
    ensures Allowed(rules, node, q, entries[i]) <==> FirstAllowed(rules, node, q, entries) == i
  {
  }

  lemma DenialRecorded(rules: seq<Rule>, node: NodeSpec, q: Query, entries: seq<EligibleEntry>, i: nat,
                       denied: seq<(string, string)>, rejected: map<string, string>)
    requires i < |entries| && DeniedUpTo(rules, node, q, entries, i, denied, rejected)
    ensures var d := Decision(rules, PolicyRequest(node, entries[i].manifest, q));
      if d.allow then FirstAllowed(rules, node, q, entries) == i
      else DeniedUpTo(rules, node, q, entries, i + 1, denied + [(entries[i].capabilityId, d.reason)],
                      rejected[entries[i].capabilityId := d.reason])
  {
    DenialsExtend(rules, node, q, entries, i);
    FirstAllowedHere(rules, node, q, entries, i);
  }

  /** The loop over the candidates, best first: it stops at the first one policy allows. */
  method TryCandidates(rules: seq<Rule>, node: NodeSpec, q: Query, entries: seq<EligibleEntry>)
    returns (k: nat, d: PolicyDecision, denied: seq<(string, string)>, rejected: map<string, string>)
    ensures k == FirstAllowed(rules, node, q, entries) && DeniedUpTo(rules, node, q, entries, k, denied, rejected)
    ensures k < |entries| ==> d == Decision(rules, PolicyRequest(node, entries[k].manifest, q))
  {
    denied, rejected, d := [], map[], DEFAULT_DENY;
    for i := 0 to |entries|
      invariant DeniedUpTo(rules, node, q, entries, i, denied, rejected)
    {
      DenialRecorded(rules, node, q, entries, i, denied, rejected);
      d := Decide(rules, PolicyRequest(node, entries[i].manifest, q));
      if d.allow {
        return i, d, denied, rejected;
      }
      denied := denied + [(entries[i].capabilityId, d.reason)];
      rejected := rejected[entries[i].capabilityId := d.reason];
    }
    return |entries|, d, denied, rejected;
  }

  method FallBack(store: Store, node: NodeSpec, last: Option<string>) returns (c: Choice)
    ensures c == FallbackChoice(store, node, last)
  {
    if node.fallback.Some? && node.fallback.value != "" {
      var fb := Lookup(store, node.fallback.value);
      if fb.Some? {
        return FellBack(fb.value, last);
      }
    }
    return Failed(if last.Some? then last.value else "no eligible candidates");
  }

  method Route(store: Store, rules: seq<Rule>, node: NodeSpec, q: Query)
    returns (r: Result<RoutingResult, RegistryError>)
    ensures r == if node.kinds == [] then Err(NoEligibleKinds) else Ok(Routing(store, rules, node, q))
    ensures UniqueIds(store) && r.Ok? ==> IsAnswer(store, rules, node, q, r.value.choice)
  {
    if UniqueIds(store) {
      RoutingAnswers(store, rules, node, q);
    }
    var es := EligibleSet(node, store);
    if es.Err? {
      return Err(es.error);
    }
    var entries := es.value;
    var k, d, denied, rejected := TryCandidates(rules, node, q, entries);
    if k < |entries| {
      return Ok(RoutingResult(Picked(entries[k], d), entries, denied, rejected));
    }
    var choice := FallBack(store, node, if denied == [] then None else Some(denied[|denied| - 1].1));
    return Ok(RoutingResult(choice, entries, denied, rejected));
  }

  // ---- What routing answers ----

  ghost predicate PolicyAllows(rules: seq<Rule>, node: NodeSpec, q: Query, m: Manifest) {
    Decision(rules, PolicyRequest(node, m, q)).allow
  }

  /** Policy denies every eligible manifest; there may be none. */
  ghost predicate AllDenied(store: Store, rules: seq<Rule>, node: NodeSpec, q: Query) {
    forall m :: m in store && IsEligible(node, m) ==> !PolicyAllows(rules, node, q, m)
  }

  /** The higher score goes first, and the smaller id among equal scores. */
  predicate Outranks(m: Manifest, n: Manifest) {
    Score(m) > Score(n) || (Score(m) == Score(n) && StrLess(m.capabilityId, n.capabilityId))
  }

  /** The eligible manifest that all others go before. */
  ghost predicate IsLastEligible(store: Store, node: NodeSpec, m: Manifest) {
    && m in store && IsEligible(node, m)
    && forall n :: n in store && n != m && IsEligible(node, n) ==> Outranks(n, m)
  }

  ghost predicate IsBest(store: Store, rules: seq<Rule>, node: NodeSpec, q: Query, m: Manifest) {
    && m in store && IsEligible(node, m) && PolicyAllows(rules, node, q, m)
    && forall n :: n in store && n != m && IsEligible(node, n) && PolicyAllows(rules, node, q, n) ==> Outranks(m, n)
  }

  ghost predicate IsDeclaredFallback(store: Store, node: NodeSpec, m: Manifest) {
    m in store && m.capabilityId != "" && node.fallback == Some(m.capabilityId)
  }

  /** The reason of the last denial, if anything was denied. */
  ghost predicate IsLastReason(store: Store, rules: seq<Rule>, node: NodeSpec, q: Query, reason: Option<string>) {
    match reason
    case None => forall m :: m in store ==> !IsEligible(node, m)
    case Some(text) =>
      exists m :: IsLastEligible(store, node, m) && text == Decision(rules, PolicyRequest(node, m, q)).reason
  }

  /** The answer the router owes: the best allowed manifest; if all are denied, the declared
      fallback if it is registered; otherwise a failure with the last denial's reason. */
  ghost predicate IsAnswer(store: Store, rules: seq<Rule>, node: NodeSpec, q: Query, c: Choice) {
    match c
    case Picked(e, d) =>
      && e == EligibleEntry(e.manifest.capabilityId, e.manifest, Score(e.manifest))
      && d == Decision(rules, PolicyRequest(node, e.manifest, q))
      && IsBest(store, rules, node, q, e.manifest)
    case FellBack(m, last) =>
      && AllDenied(store, rules, node, q)
      && IsDeclaredFallback(store, node, m) && IsLastReason(store, rules, node, q, last)
    case Failed(reason) =>
      && AllDenied(store, rules, node, q)
      && (forall m :: !IsDeclaredFallback(store, node, m))
      && if IsLastReason(store, rules, node, q, None) then reason == "no eligible candidates"
         else IsLastReason(store, rules, node, q, Some(reason))
  }

  /** If policy denies every eligible manifest, each of them is listed as denied. */
  lemma AllTried(store: Store, rules: seq<Rule>, node: NodeSpec, q: Query)
    requires UniqueIds(store) && AllDenied(store, rules, node, q)
    ensures Routing(store, rules, node, q).denied == Denials(rules, node, q, EligibleEntries(node, store))
  {
    var entries := EligibleEntries(node, store);
    NoneAllowed(store, rules, node, q, entries);
    assert entries[..|entries|] == entries;
  }

  lemma NoneEligible(store: Store, node: NodeSpec)
    requires UniqueIds(store)
    ensures EligibleEntries(node, store) == [] <==> forall m :: m in store ==> !IsEligible(node, m)
  {
    EligibleEntriesAre(node, store);
    var entries := EligibleEntries(node, store);
    if entries == [] {
      forall m | m in store
        ensures !IsEligible(node, m)
      {
        assert EntryOf(m) !in entries;
      }
    } else {
      assert entries[0] in entries;
    }
  }

  lemma LastReasonIs(store: Store, rules: seq<Rule>, node: NodeSpec, q: Query)
    requires UniqueIds(store) && AllDenied(store, rules, node, q)
    ensures var denied := Routing(store, rules, node, q).denied;
      && (denied == [] <==> IsLastReason(store, rules, node, q, None))
      && (denied != [] ==> IsLastReason(store, rules, node, q, Some(denied[|denied| - 1].1)))
  {
    AllTried(store, rules, node, q);
    NoneEligible(store, node);
    var entries := EligibleEntries(node, store);
    if entries != [] {
      LastOfRanked(store, node, entries[|entries| - 1].manifest);
    }
  }

  lemma LastOfRanked(store: Store, node: NodeSpec, m: Manifest)
    requires UniqueIds(store) && EligibleEntries(node, store) != []
    requires m == EligibleEntries(node, store)[|EligibleEntries(node, store)| - 1].manifest
    ensures IsLastEligible(store, node, m)
  {
    EligibleEntriesAre(node, store);
    var entries := EligibleEntries(node, store);
    var last := entries[|entries| - 1];
    assert last in entries;
    forall n | n in store && n != m && IsEligible(node, n)
      ensures Outranks(n, m)
    {
      assert EntryOf(n) in entries;
      var i :| 0 <= i < |entries| && entries[i] == EntryOf(n);
      assert EntryOf(n).manifest == n;
    }
  }

  /** The router answers as it owes. */
  lemma RoutingAnswers(store: Store, rules: seq<Rule>, node: NodeSpec, q: Query)
    requires UniqueIds(store)
    ensures IsAnswer(store, rules, node, q, Routing(store, rules, node, q).choice)
  {
    var r := Routing(store, rules, node, q);
    FallbackOnlyWhenAllDenied(store, rules, node, q);
    if r.choice.Picked? {
      PickIsBest(store, rules, node, q);
      assert IsBest(store, rules, node, q, r.choice.entry.manifest);
    } else {
      assert AllDenied(store, rules, node, q);
      LastReasonIs(store, rules, node, q);
      FallbackAnswers(store, rules, node, q, if r.denied == [] then None else Some(r.denied[|r.denied| - 1].1));
    }
  }

  lemma FallbackAnswers(store: Store, rules: seq<Rule>, node: NodeSpec, q: Query, last: Option<string>)
    requires UniqueIds(store) && AllDenied(store, rules, node, q) && IsLastReason(store, rules, node, q, last)
    requires last.None? <==> IsLastReason(store, rules, node, q, None)
    ensures IsAnswer(store, rules, node, q, FallbackChoice(store, node, last))
  {
    if node.fallback.Some? {
      LookupFinds(store, node.fallback.value);
    }
  }

  lemma BestIsUnique(store: Store, rules: seq<Rule>, node: NodeSpec, q: Query, m: Manifest, n: Manifest)
    requires IsBest(store, rules, node, q, m) && IsBest(store, rules, node, q, n)
    ensures m == n
  {
    StrTotal(m.capabilityId, n.capabilityId);
  }

  lemma LastIsUnique(store: Store, node: NodeSpec, m: Manifest, n: Manifest)
    requires IsLastEligible(store, node, m) && IsLastEligible(store, node, n)
    ensures m == n
  {
    StrTotal(m.capabilityId, n.capabilityId);
  }

  lemma ReasonIsUnique(store: Store, rules: seq<Rule>, node: NodeSpec, q: Query, a: Option<string>, b: Option<string>)
    requires IsLastReason(store, rules, node, q, a) && IsLastReason(store, rules, node, q, b)
    ensures a == b
  {
    if a.Some? && b.Some? {
      var m :| IsLastEligible(store, node, m) && a.value == Decision(rules, PolicyRequest(node, m, q)).reason;
      var n :| IsLastEligible(store, node, n) && b.value == Decision(rules, PolicyRequest(node, n, q)).reason;
      LastIsUnique(store, node, m, n);
    }
  }

  /** There is one answer, and it is the router's. */
  lemma AnswerIsUnique(store: Store, rules: seq<Rule>, node: NodeSpec, q: Query, c: Choice)
    requires UniqueIds(store)
    ensures IsAnswer(store, rules, node, q, c) <==> c == Routing(store, rules, node, q).choice
  {
    RoutingAnswers(store, rules, node, q);
    var r := Routing(store, rules, node, q).choice;
    if IsAnswer(store, rules, node, q, c) {
      SameAnswer(store, rules, node, q, c, r);
    }
  }

  lemma SameAnswer(store: Store, rules: seq<Rule>, node: NodeSpec, q: Query, c: Choice, d: Choice)
    requires UniqueIds(store) && IsAnswer(store, rules, node, q, c) && IsAnswer(store, rules, node, q, d)
    ensures c == d
  {
    match (c, d)
    case (Picked(e, _), Picked(f, _)) => BestIsUnique(store, rules, node, q, e.manifest, f.manifest);
    case (FellBack(m, a), FellBack(n, b)) =>
      LookupIsTheOne(store, m);
      LookupIsTheOne(store, n);
      ReasonIsUnique(store, rules, node, q, a, b);
    case (Failed(a), Failed(b)) =>
      if !IsLastReason(store, rules, node, q, None) {
        ReasonIsUnique(store, rules, node, q, Some(a), Some(b));
      }
    case _ =>
  }

  // ---- Routing is canonical ----

  lemma LookupCanonical(s: Store, t: Store, id: string)
    requires UniqueIds(s) && UniqueIds(t) && multiset(s) == multiset(t)
    ensures Lookup(s, id) == Lookup(t, id)
  {
    LookupFinds(s, id);
    LookupFinds(t, id);
    assert forall m :: m in s <==> m in multiset(s);
    assert forall m :: m in t <==> m in multiset(t);
    if Lookup(s, id).Some? {
      LookupIsTheOne(t, Lookup(s, id).value);
    }
  }

  /** Registration order does not matter: any permutation of the manifests routes alike. */
  lemma RoutingCanonical(s: Store, t: Store, rules: seq<Rule>, node: NodeSpec, q: Query)
    requires UniqueIds(s) && UniqueIds(t) && multiset(s) == multiset(t)
    ensures Routing(s, rules, node, q) == Routing(t, rules, node, q)
  {
    EntriesCanonical(s, t, node);
    if node.fallback.Some? {
      LookupCanonical(s, t, node.fallback.value);
    }
    SameEntriesRouteAlike(s, t, rules, node, q);
  }

  lemma SameEntriesRouteAlike(s: Store, t: Store, rules: seq<Rule>, node: NodeSpec, q: Query)
    requires EligibleEntries(node, s) == EligibleEntries(node, t)
    requires node.fallback.Some? ==> Lookup(s, node.fallback.value) == Lookup(t, node.fallback.value)
    ensures Routing(s, rules, node, q) == Routing(t, rules, node, q)
  {
  }

  lemma EntriesCanonical(s: Store, t: Store, node: NodeSpec)
    requires UniqueIds(s) && UniqueIds(t) && multiset(s) == multiset(t)
    ensures EligibleEntries(node, s) == EligibleEntries(node, t)
  {
    EligibleEntriesAre(node, s);
    EligibleEntriesAre(node, t);
    assert forall m :: m in s <==> m in multiset(s);
    assert forall m :: m in t <==> m in multiset(t);
    RankingUnique(EligibleEntries(node, s), EligibleEntries(node, t));
  }

  lemma {:induction false} AsMapKeys(pairs: seq<(string, string)>)
    ensures forall id :: id in AsMap(pairs) <==> exists i :: 0 <= i < |pairs| && pairs[i].0 == id
  {
    if pairs != [] {
      AsMapKeys(pairs[..|pairs| - 1]);
    }
  }

  lemma FirstAllowedRanksFirst(rules: seq<Rule>, node: NodeSpec, q: Query, entries: seq<EligibleEntry>,
                               f: EligibleEntry)
    requires Ranked(entries) && f in entries && Allowed(rules, node, q, f)
    ensures var k := FirstAllowed(rules, node, q, entries);
      k < |entries| && (f == entries[k] || RanksBefore(entries[k], f))
  {
    var i :| 0 <= i < |entries| && entries[i] == f;
    assert FirstAllowed(rules, node, q, entries) <= i;
  }

  /** Outside the fallback the router picks the allowed eligible manifest that ranks
      before every other allowed one. */
  lemma PickIsBest(store: Store, rules: seq<Rule>, node: NodeSpec, q: Query)
    requires UniqueIds(store) && Routing(store, rules, node, q).choice.Picked?
    ensures var e := Routing(store, rules, node, q).choice.entry;
      && e == EntryOf(e.manifest) && e.manifest in store && IsEligible(node, e.manifest)
      && Allowed(rules, node, q, e)
      && forall m :: m in store && m != e.manifest && IsEligible(node, m) && Allowed(rules, node, q, EntryOf(m))
           ==> RanksBefore(e, EntryOf(m))
  {
    EligibleEntriesAre(node, store);
    var entries := EligibleEntries(node, store);
    var e := entries[FirstAllowed(rules, node, q, entries)];
    assert e in entries;
    forall m | m in store && m != e.manifest && IsEligible(node, m) && Allowed(rules, node, q, EntryOf(m))
      ensures RanksBefore(e, EntryOf(m))
    {
      FirstAllowedRanksFirst(rules, node, q, entries, EntryOf(m));
      assert EntryOf(m).manifest == m;
    }
  }

  ghost predicate RankedAbove(store: Store, node: NodeSpec, e: EligibleEntry, m: Manifest) {
    m in store && IsEligible(node, m) && RanksBefore(EntryOf(m), e)
  }

  lemma EarlierRanksAbove(entries: seq<EligibleEntry>, i: nat, k: nat)
    requires Ranked(entries) && i < |entries| && k < |entries|
    ensures i < k <==> RanksBefore(entries[i], entries[k])
  {
    StrTotal(entries[i].capabilityId, entries[k].capabilityId);
  }

  lemma DeniedIds(rules: seq<Rule>, node: NodeSpec, q: Query, entries: seq<EligibleEntry>, k: nat, id: string)
    requires k <= |entries|
    ensures id in AsMap(Denials(rules, node, q, entries[..k])) <==>
      exists i :: 0 <= i < k && entries[i].capabilityId == id
  {
    var denied := Denials(rules, node, q, entries[..k]);
    assert |denied| == k;
    assert forall i :: 0 <= i < k ==> denied[i].0 == entries[i].capabilityId;
    AsMapKeys(denied);
  }

  /** The rejected ids are exactly those of the eligible manifests ranked above the pick. */
  lemma RejectedRankAbove(store: Store, rules: seq<Rule>, node: NodeSpec, q: Query, id: string)
    requires UniqueIds(store) && Routing(store, rules, node, q).choice.Picked?
    ensures id in Routing(store, rules, node, q).rejected <==>
      exists m :: RankedAbove(store, node, Routing(store, rules, node, q).choice.entry, m) && m.capabilityId == id
  {
    EligibleEntriesAre(node, store);
    var entries := EligibleEntries(node, store);
    var k := FirstAllowed(rules, node, q, entries);
    DeniedIds(rules, node, q, entries, k, id);
    if i :| 0 <= i < k && entries[i].capabilityId == id {
      assert entries[i] in entries;
      EarlierRanksAbove(entries, i, k);
      assert RankedAbove(store, node, entries[k], entries[i].manifest);
    }
    if m :| RankedAbove(store, node, entries[k], m) && m.capabilityId == id {
      assert EntryOf(m) in entries;
      var i :| 0 <= i < |entries| && entries[i] == EntryOf(m);
      EarlierRanksAbove(entries, i, k);
    }
  }

  lemma {:induction false} AsMapValue(pairs: seq<(string, string)>, id: string)
    requires id in AsMap(pairs)
    ensures exists i :: 0 <= i < |pairs| && pairs[i] == (id, AsMap(pairs)[id])
  {
    var last := pairs[|pairs| - 1];
    if last.0 == id {
      assert pairs[|pairs| - 1] == (id, AsMap(pairs)[id]);
    } else {
      AsMapValue(pairs[..|pairs| - 1], id);
    }
  }

  /** A rejected manifest was eligible, and is listed with the reason policy denied it for. */
  lemma RejectedWithReason(store: Store, rules: seq<Rule>, node: NodeSpec, q: Query, m: Manifest)
    requires UniqueIds(store) && m in store
    ensures var r := Routing(store, rules, node, q);
      && (m.capabilityId in r.rejected ==>
            && IsEligible(node, m) && !PolicyAllows(rules, node, q, m)
            && r.rejected[m.capabilityId] == Decision(rules, PolicyRequest(node, m, q)).reason)
      && (!r.choice.Picked? ==> (m.capabilityId in r.rejected <==> IsEligible(node, m)))
  {
    var r := Routing(store, rules, node, q);
    var entries := EligibleEntries(node, store);
    var k := FirstAllowed(rules, node, q, entries);
    EligibleEntriesAre(node, store);
    DeniedIds(rules, node, q, entries, k, m.capabilityId);
    if m.capabilityId in r.rejected {
      AsMapValue(r.denied, m.capabilityId);
      var i :| 0 <= i < k && r.denied[i] == (m.capabilityId, r.rejected[m.capabilityId]);
      assert entries[i] in entries;
      LookupIsTheOne(store, m);
      LookupIsTheOne(store, entries[i].manifest);
    }
    if !r.choice.Picked? && IsEligible(node, m) {
      assert EntryOf(m) in entries;
    }
  }

  /** The fallback is used only when policy denies every eligible manifest. */
  lemma FallbackOnlyWhenAllDenied(store: Store, rules: seq<Rule>, node: NodeSpec, q: Query)
    requires UniqueIds(store)
    ensures !Routing(store, rules, node, q).choice.Picked? <==>
      forall m :: m in store && IsEligible(node, m) ==> !Allowed(rules, node, q, EntryOf(m))
  {
    NoneAllowed(store, rules, node, q, EligibleEntries(node, store));
  }

  lemma NoneAllowed(store: Store, rules: seq<Rule>, node: NodeSpec, q: Query, entries: seq<EligibleEntry>)
    requires UniqueIds(store) && entries == EligibleEntries(node, store)
    ensures FirstAllowed(rules, node, q, entries) == |entries| <==>
      forall m :: m in store && IsEligible(node, m) ==> !Allowed(rules, node, q, EntryOf(m))
  {
    EligibleEntriesAre(node, store);
    var k := FirstAllowed(rules, node, q, entries);
    if k == |entries| {
      forall m | m in store && IsEligible(node, m)
        ensures !Allowed(rules, node, q, EntryOf(m))
      {
        assert EntryOf(m) in entries;
      }
    } else {
      assert entries[k] in entries;
    }
  }
}
