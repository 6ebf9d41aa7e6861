/** Break-glass requests: two distinct approvers, a bounded window, revocation and sweep.
    A run is any interleaving of service calls; every call is one atomic step at the
    database's current instant. */
module BreakGlass {
  import opened Prelude
  import opened Schema

  const HARD_MAX_WINDOW_SECONDS: int := 14400
  const DEFAULT_WINDOW_SECONDS: int := 900

  datatype BgState = Requested | FirstApproved | Active | Expired | Revoked {
    function Rank(): nat {
      match this
      case Requested => 0
      case FirstApproved => 1
      case Active => 2
      case Expired => 3
      case Revoked => 3
    }
  }

  /** The parts of an effect payload and of its resource scope that the ceiling inspects.
      Strings that name no classification tier are `None`. */
  datatype Effect = Effect(
    disableEgressPep: bool,
    labelOverride: Option<Classification>,
    egressView: string,
    currentClassification: Option<Classification>
  )

  datatype BgRow = BgRow(
    tenant: string,
    effect: Effect,
    requestedBy: string,
    window: int,
    state: BgState,
    firstApprover: Option<string>,
    secondApprover: Option<string>,
    activatedAt: Option<real>,
    expiresAt: Option<real>
  )

  type Table = map<string, BgRow>

  // ---- Pure checks of the service ----

  function IntMin(a: int, b: int): int { if a <= b then a else b }

  function IntMax(a: int, b: int): int { if a >= b then a else b }

  function ClampWindow(requested: Option<int>, tenantMax: Option<int>): int {
    if requested.None? && tenantMax.None? then DEFAULT_WINDOW_SECONDS
    else
      var candidate := if requested.Some? then requested.value else tenantMax.value;
      var cap := if tenantMax.Some? then tenantMax.value else HARD_MAX_WINDOW_SECONDS;
      IntMax(1, IntMin(IntMin(candidate, cap), HARD_MAX_WINDOW_SECONDS))
  }

  /** The window respects the hard cap and every limit given; without any, the default. */
  predicate WithinLimits(requested: Option<int>, tenantMax: Option<int>, w: int) {
    && w <= HARD_MAX_WINDOW_SECONDS
    && (requested.Some? ==> w <= requested.value)
    && (tenantMax.Some? ==> w <= tenantMax.value)
    && (requested.None? && tenantMax.None? ==> w <= DEFAULT_WINDOW_SECONDS)
  }

  /** The clamped window is the longest one within the limits, but never below one second. */
  lemma ClampIsLongestAllowed(requested: Option<int>, tenantMax: Option<int>, w: int)
    ensures w <= ClampWindow(requested, tenantMax) <==> w <= 1 || WithinLimits(requested, tenantMax, w)
  {
  }

  /** Never more than four hours; a quarter of an hour when nobody says anything. */
  lemma ClampIsBounded(requested: Option<int>, tenantMax: Option<int>)
    ensures 1 <= ClampWindow(requested, tenantMax) <= 14400
    ensures ClampWindow(None, None) == 900
  {
  }

  /** Whether the effect stays under the ceiling. */
  predicate UnderCeiling(e: Effect) {
    if e.disableEgressPep then false
    else if e.labelOverride.Some? && e.currentClassification.Some?
            && e.labelOverride.value.Rank() < e.currentClassification.value.Rank() then false
    else if e.egressView == "egress.public" && e.currentClassification == Some(Restricted) then false
    else true
  }

  /** The second tier is less sensitive than the first, spelled out. */
  predicate Lowers(from: Classification, to: Classification) {
    match from
    case Public => false
    case Partner => to == Public
    case Internal => to == Public || to == Partner
    case Restricted => to != Restricted
  }

  /** The ceiling forbids exactly: switching egress enforcement off, moving a label to a less
      sensitive tier, and opening public egress on RESTRICTED data. */
  lemma CeilingForbids(e: Effect)
    ensures !UnderCeiling(e) <==>
      || e.disableEgressPep
      || (e.labelOverride.Some? && e.currentClassification.Some?
          && Lowers(e.currentClassification.value, e.labelOverride.value))
      || (e.egressView == "egress.public" && e.currentClassification == Some(Restricted))
  {
  }

  /** An effect allowed on a resource is allowed on every less sensitive one, and what is
      allowed on RESTRICTED data neither lowers its label nor opens public egress. */
  lemma CeilingIsMonotone(e: Effect, lower: Classification)
    requires UnderCeiling(e) && e.currentClassification.Some?
    requires lower.Rank() <= e.currentClassification.value.Rank()
    ensures UnderCeiling(e.(currentClassification := Some(lower)))
    ensures e.currentClassification == Some(Restricted) ==>
      !e.disableEgressPep && e.egressView != "egress.public"
      && (e.labelOverride.Some? ==> e.labelOverride == Some(Restricted))
  {
    assert forall c: Classification :: c.Rank() == 3 ==> c == Restricted;
  }

  // ---- Steps ----

  datatype Step =
    | Request(id: string, tenant: string, purpose: string, effect: Effect, requestedBy: string,
              window: Option<int>, tenantMax: Option<int>)
    | ApproveBy(id: string, approver: string, tenant: string, now: real)
    | RevokeBy(id: string, revoker: string, tenant: string)
    | Sweep(now: real)

  datatype Reply = Applied(state: BgState) | Refused(reason: string)

  function DoRequest(t: Table, s: Step): (Table, Reply)
    requires s.Request?
  {
    if s.tenant == "" || s.purpose == "" || s.requestedBy == "" then (t, Refused("missing field"))
    else if !UnderCeiling(s.effect) then (t, Refused("effect ceiling"))
    else if s.id in t then (t, Refused("duplicate id"))
    else
      (t[s.id := BgRow(s.tenant, s.effect, s.requestedBy, ClampWindow(s.window, s.tenantMax),
                       Requested, None, None, None, None)],
       Applied(Requested))
  }

  function DoApprove(t: Table, id: string, approver: string, tenant: string, now: real): (Table, Reply) {
    if id !in t then (t, Refused("not_found"))
    else
      var row := t[id];
      if row.tenant != tenant then (t, Refused("cross_tenant"))
      else if row.state != Requested && row.state != FirstApproved then (t, Refused("not_approvable"))
      else if row.requestedBy == approver then (t, Refused("applicant_cannot_approve"))
      else if row.firstApprover.Some? && row.firstApprover.value != "" && row.firstApprover.value == approver then
        (t, Refused("already_approved_by_you"))
      else if row.state == Requested then
        (t[id := row.(state := FirstApproved, firstApprover := Some(approver))], Applied(FirstApproved))
      else
        (t[id := row.(state := Active, secondApprover := Some(approver),
                      activatedAt := Some(now), expiresAt := Some(now + row.window as real))],
         Applied(Active))
  }

  function DoRevoke(t: Table, id: string, tenant: string): (Table, Reply) {
    if id !in t then (t, Refused("not_found"))
    else if t[id].tenant != tenant then (t, Refused("cross_tenant"))
    else if t[id].state == Expired || t[id].state == Revoked then (t, Refused("already_terminal"))
    else (t[id := t[id].(state := Revoked)], Applied(Revoked))
  }

  predicate Overdue(row: BgRow, now: real) {
    row.state == Active && row.expiresAt.Some? && row.expiresAt.value < now
  }

  function DoSweep(t: Table, now: real): Table {
    map id | id in t :: if Overdue(t[id], now) then t[id].(state := Expired) else t[id]
  }

  function Apply(t: Table, s: Step): Table {
    match s
    case Request(_, _, _, _, _, _, _) => DoRequest(t, s).0
    case ApproveBy(id, approver, tenant, now) => DoApprove(t, id, approver, tenant, now).0
    case RevokeBy(id, _, tenant) => DoRevoke(t, id, tenant).0
    case Sweep(now) => DoSweep(t, now)
  }

  function Run(steps: seq<Step>): Table {
    if steps == [] then map[] else Apply(Run(steps[..|steps| - 1]), steps[|steps| - 1])
  }

  // ---- Whole-run safety ----

  /** What a row of any reachable table satisfies. The two approvers can only coincide when
      the identity is empty, which the store takes for "no first approver". */
  ghost predicate RowSafe(row: BgRow) {
    && row.requestedBy != ""
    && 1 <= row.window <= HARD_MAX_WINDOW_SECONDS
    && UnderCeiling(row.effect)
    && (row.state.Rank() >= 1 && row.state != Revoked ==>
          row.firstApprover.Some? && row.firstApprover.value != row.requestedBy)
    && (row.state == Active || row.state == Expired ==>
          && row.secondApprover.Some? && row.secondApprover.value != row.requestedBy
          && (row.secondApprover == row.firstApprover ==> row.firstApprover.value == "")
          && row.activatedAt.Some? && row.expiresAt == Some(row.activatedAt.value + row.window as real))
    && (row.state == Requested ==> row.firstApprover.None?)
  }

  ghost predicate Safe(t: Table) {
    forall id :: id in t ==> RowSafe(t[id])
  }

  /** How one step may change one row: not at all, or to a higher rank with everything
      agreed at the time of the request unchanged. */
  ghost predicate RowAdvances(t: Table, u: Table, id: string) {
    id in t ==>
      && id in u
      && (u[id] == t[id] || u[id].state.Rank() > t[id].state.Rank())
      && u[id].tenant == t[id].tenant && u[id].effect == t[id].effect
      && u[id].requestedBy == t[id].requestedBy && u[id].window == t[id].window
  }

  lemma RequestKeepsSafe(t: Table, s: Step)
    requires Safe(t) && s.Request?
    ensures Safe(DoRequest(t, s).0)
    ensures forall id :: RowAdvances(t, DoRequest(t, s).0, id)
  {
    ClampIsBounded(s.window, s.tenantMax);
  }

  lemma ApproveKeepsSafe(t: Table, id: string, approver: string, tenant: string, now: real)
    requires Safe(t)
    ensures Safe(DoApprove(t, id, approver, tenant, now).0)
    ensures forall k :: RowAdvances(t, DoApprove(t, id, approver, tenant, now).0, k)
  {
    var u := DoApprove(t, id, approver, tenant, now).0;
    if u != t {
      assert RowSafe(t[id]);
      assert RowSafe(u[id]);
    }
  }

  lemma RevokeKeepsSafe(t: Table, id: string, tenant: string)
    requires Safe(t)
    ensures Safe(DoRevoke(t, id, tenant).0)
    ensures forall k :: RowAdvances(t, DoRevoke(t, id, tenant).0, k)
  {
    var u := DoRevoke(t, id, tenant).0;
    if u != t {
      assert RowSafe(t[id]);
      assert RowSafe(u[id]);
    }
  }

  lemma SweepKeepsSafe(t: Table, now: real)
    requires Safe(t)
    ensures Safe(DoSweep(t, now))
    ensures forall k :: RowAdvances(t, DoSweep(t, now), k)
  {
    forall k | k in t
      ensures RowSafe(DoSweep(t, now)[k])
    {
      assert RowSafe(t[k]);
    }
  }

  lemma StepKeepsSafe(t: Table, s: Step)
    requires Safe(t)
    ensures Safe(Apply(t, s))
    ensures forall id :: RowAdvances(t, Apply(t, s), id)
  {
    match s
    case Request(_, _, _, _, _, _, _) => RequestKeepsSafe(t, s);
    case ApproveBy(id, approver, tenant, now) => ApproveKeepsSafe(t, id, approver, tenant, now);
    case RevokeBy(id, _, tenant) => RevokeKeepsSafe(t, id, tenant);
    case Sweep(now) => SweepKeepsSafe(t, now);
  }

  lemma {:induction false} RunIsSafe(steps: seq<Step>)
    ensures Safe(Run(steps))
  {
    if steps != [] {
      RunIsSafe(steps[..|steps| - 1]);
      StepKeepsSafe(Run(steps[..|steps| - 1]), steps[|steps| - 1]);
    }
  }

  /** Every active or expired request was approved by two people other than the applicant,
      distinct from each other unless both gave an empty identity, and runs for exactly its
      bounded window. */
  lemma ActiveWasApprovedTwice(steps: seq<Step>, id: string)
    requires id in Run(steps) && (Run(steps)[id].state == Active || Run(steps)[id].state == Expired)
    ensures var row := Run(steps)[id];
      && row.firstApprover.Some? && row.secondApprover.Some?
      && row.requestedBy !in {row.firstApprover.value, row.secondApprover.value}
      && (row.firstApprover == row.secondApprover ==> row.firstApprover.value == "")
      && row.activatedAt.Some? && row.expiresAt == Some(row.activatedAt.value + row.window as real)
      && 1 <= row.window <= HARD_MAX_WINDOW_SECONDS
      && UnderCeiling(row.effect)
  {
    RunIsSafe(steps);
  }

  /** The exception is reachable: an empty approver identity may approve twice. */
  lemma EmptyIdentityApprovesTwice(t: Table, id: string, now: real)
    requires id in t && t[id].state == Requested && t[id].firstApprover.None? && t[id].requestedBy != ""
    ensures var u := DoApprove(DoApprove(t, id, "", t[id].tenant, now).0, id, "", t[id].tenant, now).0;
      u[id].state == Active && u[id].firstApprover == u[id].secondApprover == Some("")
  {
  }

  /** Steps of the run that changed row `id`. */
  ghost function Changes(steps: seq<Step>, id: string): nat {
    if steps == [] then 0
    else
      var before, after := Run(steps[..|steps| - 1]), Run(steps);
      Changes(steps[..|steps| - 1], id)
      + (if id in before && id in after && before[id] != after[id] then 1 else 0)
  }

  /** Each change raises the rank, so a request changes at most three times. */
  lemma {:induction false} AtMostThreeChanges(steps: seq<Step>, id: string)
    ensures id in Run(steps) ==> Changes(steps, id) <= Run(steps)[id].state.Rank() <= 3
    ensures id !in Run(steps) ==> Changes(steps, id) == 0
  {
    if steps != [] {
      var init := steps[..|steps| - 1];
      AtMostThreeChanges(init, id);
      RunIsSafe(init);
      StepKeepsSafe(Run(init), steps[|steps| - 1]);
      assert RowAdvances(Run(init), Run(steps), id);
    }
  }

  /** An applied call, and only an applied call, changes its row. */
  lemma AppliedMeansChanged(t: Table, id: string, who: string, tenant: string, now: real)
    ensures DoApprove(t, id, who, tenant, now).1.Applied? <==> DoApprove(t, id, who, tenant, now).0 != t
    ensures DoRevoke(t, id, tenant).1.Applied? <==> DoRevoke(t, id, tenant).0 != t
  {
    var u := DoApprove(t, id, who, tenant, now).0;
    if DoApprove(t, id, who, tenant, now).1.Applied? {
      assert u[id].state != t[id].state;
    }
    var v := DoRevoke(t, id, tenant).0;
    if DoRevoke(t, id, tenant).1.Applied? {
      assert v[id].state != t[id].state;
    }
  }

  /** Terminal requests never change again, whatever follows. */
  lemma {:induction false} TerminalStaysTerminal(steps: seq<Step>, k: nat, id: string)
    requires k <= |steps| && id in Run(steps[..k]) && Run(steps[..k])[id].state.Rank() == 3
    ensures id in Run(steps) && Run(steps)[id] == Run(steps[..k])[id]
  {
    if k == |steps| {
      assert steps[..k] == steps;
    } else {
      var init := steps[..|steps| - 1];
      assert init[..k] == steps[..k];
      TerminalStaysTerminal(init, k, id);
      RunIsSafe(init);
      StepKeepsSafe(Run(init), steps[|steps| - 1]);
      assert RowAdvances(Run(init), Run(steps), id);
    }
  }

  /** After a sweep nothing active is overdue; what was overdue is expired, the rest is untouched. */
  lemma SweepLeavesNothingOverdue(steps: seq<Step>, now: real)
    ensures var t, u := Run(steps), DoSweep(Run(steps), now);
      && u.Keys == t.Keys
      && forall id :: id in u ==>
           && (u[id].state == Active ==> u[id].expiresAt.Some? && u[id].expiresAt.value >= now)
           && (if t[id].state == Active && t[id].expiresAt.Some? && t[id].expiresAt.value < now
               then u[id] == t[id].(state := Expired) else u[id] == t[id])
  {
    RunIsSafe(steps);
  }

  // ---- Whose request a row is ----

  predicate Acceptable(s: Step)
    requires s.Request?
  {
    s.tenant != "" && s.purpose != "" && s.requestedBy != "" && UnderCeiling(s.effect)
  }

  /** Call `i` is the request that made row `id`. */
  ghost predicate RequestedAt(steps: seq<Step>, i: nat, id: string) {
    && i < |steps| && steps[i].Request? && steps[i].id == id
    && Acceptable(steps[i]) && id !in Run(steps[..i])
  }

  /** The row has the tenant, the effect and the applicant of the request, and the window it was
      allowed. */
  predicate HoldsRequest(t: Table, id: string, s: Step)
    requires s.Request?
  {
    && id in t && t[id].tenant == s.tenant && t[id].effect == s.effect && t[id].requestedBy == s.requestedBy
    && t[id].window == ClampWindow(s.window, s.tenantMax)
  }

  /** An acceptable request under a free id makes a row nobody has approved. */
  lemma RequestMakesRow(t: Table, s: Step)
    requires s.Request? && Acceptable(s) && s.id !in t
    ensures var u := Apply(t, s);
      && u.Keys == t.Keys + {s.id} && (forall k :: k in t ==> u[k] == t[k])
      && HoldsRequest(u, s.id, s)
      && u[s.id].state == Requested && u[s.id].firstApprover == u[s.id].secondApprover == None
      && u[s.id].activatedAt == u[s.id].expiresAt == None
  {
  }

  lemma StepKeepsRequest(t: Table, s: Step, id: string, request: Step)
    requires Safe(t) && request.Request? && HoldsRequest(t, id, request)
    ensures HoldsRequest(Apply(t, s), id, request)
  {
    StepKeepsSafe(t, s);
    assert RowAdvances(t, Apply(t, s), id);
  }

  /** On every run a row stays as its request asked. */
  lemma {:induction false} RowIsAsRequested(steps: seq<Step>, i: nat, id: string)
    requires RequestedAt(steps, i, id)
    ensures HoldsRequest(Run(steps), id, steps[i])
  {
    var init, last := steps[..|steps| - 1], steps[|steps| - 1];
    var t := Run(init);
    if i < |init| {
      assert init[..i] == steps[..i];
      RowIsAsRequested(init, i, id);
      RunIsSafe(init);
      StepKeepsRequest(t, last, id, steps[i]);
    } else {
      RequestMakesRow(t, last);
    }
    assert HoldsRequest(Apply(t, last), id, steps[i]);
  }

  lemma {:induction false} RowHasRequest(steps: seq<Step>, id: string) returns (i: nat)
    requires id in Run(steps)
    ensures RequestedAt(steps, i, id)
  {
    var init := steps[..|steps| - 1];
    if id in Run(init) {
      i := RowHasRequest(init, id);
      assert init[..i] == steps[..i];
    } else {
      i := |init|;
    }
  }

  // ---- Replies ----

  /** When an approval is refused; an applied one fills the next approver, and the second one
      opens the window. */
  lemma ApprovalReplies(t: Table, id: string, approver: string, tenant: string, now: real)
    ensures var (u, r) := DoApprove(t, id, approver, tenant, now);
      if id !in t then r == Refused("not_found") && u == t
      else if tenant != t[id].tenant then r == Refused("cross_tenant") && u == t
      else if t[id].state in {Active, Expired, Revoked} then r == Refused("not_approvable") && u == t
      else if approver == t[id].requestedBy then r == Refused("applicant_cannot_approve") && u == t
      else if approver != "" && t[id].firstApprover == Some(approver) then
        r == Refused("already_approved_by_you") && u == t
      else
        && u.Keys == t.Keys && (forall k :: k in t && k != id ==> u[k] == t[k])
        && r == Applied(u[id].state)
        && if t[id].state == Requested then u[id] == t[id].(state := FirstApproved, firstApprover := Some(approver))
           else
             && u[id].state == Active && u[id].secondApprover == Some(approver)
             && u[id].firstApprover == t[id].firstApprover
             && u[id].activatedAt == Some(now) && u[id].expiresAt == Some(now + t[id].window as real)
  {
  }

  lemma RevocationReplies(t: Table, id: string, tenant: string)
    ensures var (u, r) := DoRevoke(t, id, tenant);
      if id !in t then r == Refused("not_found") && u == t
      else if tenant != t[id].tenant then r == Refused("cross_tenant") && u == t
      else if t[id].state in {Expired, Revoked} then r == Refused("already_terminal") && u == t
      else r == Applied(Revoked) && u == t[id := t[id].(state := Revoked)]
  {
  }

  /** No call in the name of another tenant changes a request; only the sweep does without one. */
  lemma OtherTenantsChangeNothing(t: Table, s: Step, id: string)
    requires id in t && Apply(t, s) != t && id in Apply(t, s) && Apply(t, s)[id] != t[id]
    ensures match s
      case Request(_, _, _, _, _, _, _) => false
      case ApproveBy(k, approver, tenant, _) => k == id && tenant == t[id].tenant && approver != t[id].requestedBy
      case RevokeBy(k, _, tenant) => k == id && tenant == t[id].tenant
      case Sweep(now) => t[id].state == Active && t[id].expiresAt.Some? && t[id].expiresAt.value < now
  {
  }

  // ---- The service ----

  class BreakGlassService {
    var rows: Table

    ghost predicate Valid()
      reads this
    {
      Safe(rows)
    }

    constructor ()
      ensures Valid() && rows == map[]
    {
      rows := map[];
    }

    method RequestAccess(s: Step) returns (r: Reply)
      requires Valid() && s.Request?
      modifies this
      ensures Valid() && (rows, r) == DoRequest(old(rows), s)
      ensures r == Applied(Requested) <==> Acceptable(s) && s.id !in old(rows)
      ensures r.Refused? ==> rows == old(rows)
    {
      StepKeepsSafe(rows, s);
      if s.tenant == "" || s.purpose == "" || s.requestedBy == "" {
        return Refused("missing field");
      }
      if !UnderCeiling(s.effect) {
        return Refused("effect ceiling");
      }
      var window := ClampWindow(s.window, s.tenantMax);
      if s.id in rows {
        return Refused("duplicate id");
      }
      rows := rows[s.id := BgRow(s.tenant, s.effect, s.requestedBy, window, Requested, None, None, None, None)];
      return Applied(Requested);
    }

    method Approve(id: string, approver: string, tenant: string, now: real) returns (r: Reply)
      requires Valid()
      modifies this
      ensures Valid() && (rows, r) == DoApprove(old(rows), id, approver, tenant, now)
    {
      StepKeepsSafe(rows, ApproveBy(id, approver, tenant, now));
      if id !in rows {
        return Refused("not_found");
      }
      var row := rows[id];
      if row.tenant != tenant {
        return Refused("cross_tenant");
      }
      if row.state !in {Requested, FirstApproved} {
        return Refused("not_approvable");
      }
      if row.requestedBy == approver {
        return Refused("applicant_cannot_approve");
      }
      if row.firstApprover.GetOr("") != "" && row.firstApprover.value == approver {
        return Refused("already_approved_by_you");
      }
      if row.state == Requested {
        rows := rows[id := row.(state := FirstApproved, firstApprover := Some(approver))];
        return Applied(FirstApproved);
      }
      rows := rows[id := row.(state := Active, secondApprover := Some(approver),
                              activatedAt := Some(now), expiresAt := Some(now + row.window as real))];
      return Applied(Active);
    }

    method Revoke(id: string, tenant: string) returns (r: Reply)
      requires Valid()
      modifies this
      ensures Valid() && (rows, r) == DoRevoke(old(rows), id, tenant)
    {
      StepKeepsSafe(rows, RevokeBy(id, "", tenant));
      if id !in rows {
        return Refused("not_found");
      }
      if rows[id].tenant != tenant {
        return Refused("cross_tenant");
      }
      if rows[id].state == Expired || rows[id].state == Revoked {
        return Refused("already_terminal");
      }
      rows := rows[id := rows[id].(state := Revoked)];
      return Applied(Revoked);
    }

    /** Returns exactly the requests it expired. */
    method SweepExpired(now: real) returns (ids: set<string>)
      requires Valid()
      modifies this
      ensures Valid() && rows == DoSweep(old(rows), now)
      ensures forall id :: id in ids <==> id in old(rows) && Overdue(old(rows)[id], now)
    {
      StepKeepsSafe(rows, Sweep(now));
      ids := set id | id in rows && Overdue(rows[id], now);
      rows := map id | id in rows :: if id in ids then rows[id].(state := Expired) else rows[id];
    }
  }
}
