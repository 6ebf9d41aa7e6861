/** The gates of a deletion call, decided from the history of calls: whose resource it is, which
    holds were placed and released, and what the last retention policy said. */
module DeletionGates {
  import opened Prelude
  import opened Deletion

  // ---- Retention ----

  /** What the last policy call for the tenant's resources of a kind said. */
  function LastPolicy(steps: seq<Step>, tenant: string, kind: ResourceKind): Option<bool> {
    if steps == [] then None
    else
      var s := steps[|steps| - 1];
      if s.DoPolicy? && s.tenant == tenant && s.kind == kind then Some(s.autoDelete)
      else LastPolicy(steps[..|steps| - 1], tenant, kind)
  }

  lemma {:induction false} PolicyFollowsCalls(steps: seq<Step>, tenant: string, kind: ResourceKind)
    ensures var policies := Run(steps).autoDelete;
      LastPolicy(steps, tenant, kind) ==
        if (tenant, kind) in policies then Some(policies[(tenant, kind)]) else None
  {
    if steps != [] {
      PolicyFollowsCalls(steps[..|steps| - 1], tenant, kind);
      StepAndPolicy(Run(steps[..|steps| - 1]), steps[|steps| - 1], tenant, kind);
    }
  }

  lemma StepAndPolicy(w: World, s: Step, tenant: string, kind: ResourceKind)
    ensures var before, after := w.autoDelete, Apply(w, s).autoDelete;
      if s.DoPolicy? && s.tenant == tenant && s.kind == kind then
        (tenant, kind) in after && after[(tenant, kind)] == s.autoDelete
      else
        && ((tenant, kind) in after <==> (tenant, kind) in before)
        && ((tenant, kind) in before ==> after[(tenant, kind)] == before[(tenant, kind)])
  {
  }

  // ---- Legal holds ----

  /** Call `i` places the hold; an id that is taken is not placed again. */
  ghost predicate PlacesAt(steps: seq<Step>, i: nat, hold: string) {
    i < |steps| && PlacesHold(steps[i], hold) && NotPlacedBefore(steps, i, hold)
  }

  ghost predicate PlacesHold(s: Step, hold: string) {
    s.DoHold? && s.hold == hold
  }

  ghost predicate NotPlacedBefore(steps: seq<Step>, i: nat, hold: string)
    requires i <= |steps|
  {
    forall j: nat :: j < i ==> !PlacesHold(steps[j], hold)
  }

  /** The hold's own tenant released it after call `i`. */
  ghost predicate ReleasedSince(steps: seq<Step>, i: nat, hold: string, tenant: string) {
    exists j: nat :: i < j < |steps| && steps[j] == DoRelease(hold, tenant)
  }

  /** A hold of the tenant that lists the resource was placed and never released. */
  ghost predicate HeldByCalls(steps: seq<Step>, tenant: string, kind: ResourceKind, resource: string) {
    exists hold, i: nat :: HoldsAt(steps, i, hold, tenant, kind, resource)
  }

  ghost predicate HoldsAt(steps: seq<Step>, i: nat, hold: string, tenant: string, kind: ResourceKind,
                          resource: string) {
    && PlacesAt(steps, i, hold)
    && steps[i].value.tenant == tenant && (kind, resource) in steps[i].value.resources
    && !steps[i].value.released && !ReleasedSince(steps, i, hold, tenant)
  }

  lemma StepAndHold(w: World, s: Step, hold: string)
    ensures var v := Apply(w, s);
      && (hold in v.holds <==> hold in w.holds || PlacesHold(s, hold))
      && (hold !in w.holds && PlacesHold(s, hold) ==> v.holds[hold] == s.value)
      && (hold in w.holds ==>
            var h := w.holds[hold];
            v.holds[hold] == h.(released := h.released || s == DoRelease(hold, h.tenant)))
  {
  }

  lemma ReleasedInPrefix(steps: seq<Step>, i: nat, hold: string, tenant: string)
    requires i < |steps| - 1
    ensures ReleasedSince(steps, i, hold, tenant) <==>
      ReleasedSince(steps[..|steps| - 1], i, hold, tenant) || steps[|steps| - 1] == DoRelease(hold, tenant)
  {
    var init, n := steps[..|steps| - 1], |steps| - 1;
    if j: nat :| i < j < |init| && init[j] == DoRelease(hold, tenant) {
      assert steps[j] == DoRelease(hold, tenant);
    }
    if j: nat :| i < j < |steps| && steps[j] == DoRelease(hold, tenant) && j != n {
      assert init[j] == DoRelease(hold, tenant);
    }
  }

  lemma {:induction false} NotPlacedIsAbsent(steps: seq<Step>, hold: string)
    ensures hold in Run(steps).holds <==> !NotPlacedBefore(steps, |steps|, hold)
  {
    if steps != [] {
      var init, n := steps[..|steps| - 1], |steps| - 1;
      NotPlacedIsAbsent(init, hold);
      StepAndHold(Run(init), steps[n], hold);
      assert forall j: nat :: j < n ==> (PlacesHold(steps[j], hold) <==> PlacesHold(init[j], hold));
    }
  }

  /** A hold stays as it was placed, until its own tenant releases it for good. */
  lemma {:induction false} HoldFollowsCalls(steps: seq<Step>, i: nat, hold: string)
    requires PlacesAt(steps, i, hold)
    ensures hold in Run(steps).holds
    ensures var h := steps[i].value;
      Run(steps).holds[hold] == h.(released := h.released || ReleasedSince(steps, i, hold, h.tenant))
  {
    var init, n := steps[..|steps| - 1], |steps| - 1;
    StepAndHold(Run(init), steps[n], hold);
    if i == n {
      NotPlacedIsAbsent(init, hold);
      assert forall j: nat :: j < n ==> (PlacesHold(steps[j], hold) <==> PlacesHold(init[j], hold));
    } else {
      assert forall j: nat :: j < i ==> (PlacesHold(steps[j], hold) <==> PlacesHold(init[j], hold));
      HoldFollowsCalls(init, i, hold);
      ReleasedInPrefix(steps, i, hold, steps[i].value.tenant);
    }
  }

  lemma {:induction false} HoldHasCall(steps: seq<Step>, hold: string) returns (i: nat)
    requires hold in Run(steps).holds
    ensures PlacesAt(steps, i, hold)
  {
    var init, n := steps[..|steps| - 1], |steps| - 1;
    StepAndHold(Run(init), steps[n], hold);
    if hold in Run(init).holds {
      i := HoldHasCall(init, hold);
      assert forall j: nat :: j < i ==> (PlacesHold(steps[j], hold) <==> PlacesHold(init[j], hold));
    } else {
      i := n;
      NotPlacedIsAbsent(init, hold);
      assert forall j: nat :: j < n ==> (PlacesHold(steps[j], hold) <==> PlacesHold(init[j], hold));
    }
  }

  /** A resource is held if and only if some hold that lists it was placed and never released. */
  lemma HeldFollowsCalls(steps: seq<Step>, tenant: string, kind: ResourceKind, resource: string)
    ensures IsHeld(Run(steps), tenant, kind, resource) <==> HeldByCalls(steps, tenant, kind, resource)
  {
    var holds := Run(steps).holds;
    if hold :| hold in holds && Covers(holds[hold], tenant, kind, resource) {
      var i := HoldHasCall(steps, hold);
      HoldFollowsCalls(steps, i, hold);
      assert HoldsAt(steps, i, hold, tenant, kind, resource);
    }
    if hold, i: nat :| HoldsAt(steps, i, hold, tenant, kind, resource) {
      HoldFollowsCalls(steps, i, hold);
      assert Covers(holds[hold], tenant, kind, resource);
    }
  }

  // ---- The call ----

  /** The caller's own tenant is known and another one. */
  predicate IsForeign(tenant: string, identityTenant: Option<string>) {
    identityTenant.Some? && identityTenant.value != tenant
  }

  /** The last policy keeps the resources and the call does not force the deletion. */
  predicate IsRetained(steps: seq<Step>, tenant: string, kind: ResourceKind, force: bool) {
    LastPolicy(steps, tenant, kind) == Some(false) && !force
  }

  /** On every run: a foreign caller is refused first, then a held resource, then a retained
      one; `force`, an opt-in policy or no policy pass the last gate, and nothing else does. */
  lemma GatesFollowCalls(steps: seq<Step>, tenant: string, kind: ResourceKind, resource: string,
                         identityTenant: Option<string>, force: bool)
    ensures var verdict := DeleteVerdict(Run(steps), tenant, kind, resource, identityTenant, force);
      var foreign, held := IsForeign(tenant, identityTenant), HeldByCalls(steps, tenant, kind, resource);
      && (verdict == Some(CrossTenant) <==> foreign)
      && (verdict == Some(Blocked) <==> !foreign && held)
      && (verdict == Some(Retained) <==> !foreign && !held && IsRetained(steps, tenant, kind, force))
      && (verdict == None <==> !foreign && !held && !IsRetained(steps, tenant, kind, force))
  {
    HeldFollowsCalls(steps, tenant, kind, resource);
    PolicyFollowsCalls(steps, tenant, kind);
  }

  /** The reply to a deletion call, decided by the calls before it. */
  ghost predicate GatesAnswer(steps: seq<Step>, tenant: string, kind: ResourceKind, resource: string,
                              identityTenant: Option<string>, force: bool, r: Result<string, Denial>) {
    if IsForeign(tenant, identityTenant) then r == Err(CrossTenant)
    else if HeldByCalls(steps, tenant, kind, resource) then r == Err(Blocked)
    else if IsRetained(steps, tenant, kind, force) then r == Err(Retained)
    else r.Ok? || r == Err(IdTaken)
  }

  lemma AnswerByGates(steps: seq<Step>, tenant: string, kind: ResourceKind, resource: string,
                      identityTenant: Option<string>, force: bool)
    ensures var verdict := DeleteVerdict(Run(steps), tenant, kind, resource, identityTenant, force);
      forall r :: (if verdict.Some? then r == Err(verdict.value) else r.Ok? || r == Err(IdTaken)) <==>
        GatesAnswer(steps, tenant, kind, resource, identityTenant, force, r)
  {
    GatesFollowCalls(steps, tenant, kind, resource, identityTenant, force);
  }

  /** A refused call changes nothing. A call that passes leaves exactly the jobs there were, and
      a pending one with three attempts if the resource had none and the id is free. */
  lemma DeleteCall(steps: seq<Step>, id: string, tenant: string, kind: ResourceKind, resource: string,
                   identityTenant: Option<string>, force: bool)
    ensures var w, v := Run(steps), Run(steps + [DoDelete(id, tenant, kind, resource, identityTenant, force)]);
      var refused := IsForeign(tenant, identityTenant) || HeldByCalls(steps, tenant, kind, resource)
                     || IsRetained(steps, tenant, kind, force);
      if refused || HasJob(w, (tenant, kind, resource)) || id in w.jobs then v == w
      else v == w.(jobs := w.jobs[id := Job(tenant, kind, resource, Pending, 0, 3, None)])
  {
    RunExtends(EMPTY, steps, DoDelete(id, tenant, kind, resource, identityTenant, force));
    GatesFollowCalls(steps, tenant, kind, resource, identityTenant, force);
  }

  // ---- Where a job comes from ----

  /** The call asks for job `id` on the resource with the given limit of attempts. */
  predicate Asks(s: Step, id: string, resource: (string, ResourceKind, string), max: int) {
    || (s.DoDelete? && s.id == id && (s.tenant, s.kind, s.resource) == resource && max == 3)
    || (s.DoCreate? && s.id == id && (s.tenant, s.kind, s.resource) == resource && max == s.max)
  }

  lemma StepAndOrigin(w: World, s: Step, id: string)
    requires id in Apply(w, s).jobs
    ensures var job := Apply(w, s).jobs[id];
      if id in w.jobs then job.Resource() == w.jobs[id].Resource() && job.maxAttempts == w.jobs[id].maxAttempts
      else Asks(s, id, job.Resource(), job.maxAttempts)
  {
  }

  /** On every run a job is on the resource, and has the limit, that some call asked for. */
  lemma {:induction false} JobHasOrigin(steps: seq<Step>, id: string) returns (i: nat)
    requires id in Run(steps).jobs
    ensures i < |steps| && Asks(steps[i], id, Run(steps).jobs[id].Resource(), Run(steps).jobs[id].maxAttempts)
  {
    var init := steps[..|steps| - 1];
    StepAndOrigin(Run(init), steps[|steps| - 1], id);
    if id in Run(init).jobs {
      i := JobHasOrigin(init, id);
    } else {
      i := |steps| - 1;
    }
  }
}
