/** Which decisions wake a waiting process: those applied through its own handle, and no
    decision that another process applies. */
module ApprovalWakes {
  import opened Prelude
  import opened Approvals

  ghost predicate WokenThroughStore(w: World, p: nat, key: Key) {
    p in w.caches && key in w.caches[p] && w.caches[p][key].woken.Some? && w.caches[p][key].woken.value.Persistent?
  }

  /** The decision goes to the store because the handle has a row and the process a tenant. */
  predicate GoesToStore(w: World, p: nat, key: Key, tenant: string) {
    && key in CacheOf(w, p) && CacheOf(w, p)[key].approvalId.Some?
    && CacheOf(w, p)[key].approvalId.value != "" && tenant != ""
  }

  /** The step is a decision that process `p` applies through its handle for the gate. */
  predicate Applies(w: World, s: Step, p: nat, key: Key) {
    && s.DoDecideInProcess? && s.process == p && s.key == key && GoesToStore(w, p, key, s.tenant)
    && DecideVerdict(w, CacheOf(w, p)[key].approvalId.value, s.decision, s.tenant).None?
  }

  /** The step replaces the handle: a new wait, a restart, or a decision on the legacy path. */
  predicate Replaces(w: World, s: Step, p: nat, key: Key) {
    || (s.DoWait? && s.process == p && s.key == key)
    || (s.DoRestart? && s.process == p)
    || (s.DoDecideInProcess? && s.process == p && s.key == key && key in CacheOf(w, p)
        && !GoesToStore(w, p, key, s.tenant))
  }

  /** Every other step leaves the handle as it is. */
  lemma OtherStepsKeepHandle(w: World, s: Step, p: nat, key: Key)
    requires !Applies(w, s, p, key) && !Replaces(w, s, p, key)
    ensures key in CacheOf(Apply(w, s), p) <==> key in CacheOf(w, p)
    ensures key in CacheOf(w, p) ==> CacheOf(Apply(w, s), p)[key] == CacheOf(w, p)[key]
  {
  }

  lemma ReplacedIsNotWoken(w: World, s: Step, p: nat, key: Key)
    requires Replaces(w, s, p, key)
    ensures !WokenThroughStore(Apply(w, s), p, key)
  {
    if s.DoRestart? {
      ReloadedAreAsleep(w, s.tenant, s.order);
    }
  }

  lemma AppliedWakes(w: World, s: Step, p: nat, key: Key)
    requires Applies(w, s, p, key)
    ensures WokenThroughStore(Apply(w, s), p, key)
  {
  }

  /** A new wait installs a sleeping handle. It waits on a row of its gate if the process has a
      tenant and the call found or inserted one, and on none otherwise. */
  lemma WaitInstalls(w: World, p: nat, key: Key, tenant: string, found: Option<string>, freshId: string,
                     legacyId: string)
    ensures var v := Apply(w, DoWait(p, key, tenant, found, freshId, legacyId));
      && key in CacheOf(v, p) && CacheOf(v, p)[key].woken.None?
      && var id := CacheOf(v, p)[key].approvalId;
         && (id.Some? <==> tenant != "" && ((found.Some? && IsRowOf(w, found.value, key)) || freshId !in w.rows))
         && (id.Some? ==> IsRowOf(v, id.value, key))
  {
  }

  /** A decision that does not go to the store wakes the handle whatever it says; only the word
      "approve" approves. */
  lemma LegacyDecisionWakes(w: World, p: nat, key: Key, tenant: string, decision: string, who: string,
                            rationale: string, legacyId: string)
    requires key in CacheOf(w, p) && !GoesToStore(w, p, key, tenant)
    ensures var v := Apply(w, DoDecideInProcess(p, key, tenant, decision, who, rationale, legacyId));
      && key in CacheOf(v, p) && CacheOf(v, p)[key].approvalId == CacheOf(w, p)[key].approvalId
      && CacheOf(v, p)[key].woken == Some(Legacy(if decision == "approve" then Approve else Reject, who, rationale))
  {
  }

  /** Only decisions made in the name of its tenant extend the log of a row. */
  lemma OnlyItsTenantDecides(w: World, s: Step, id: string)
    requires id in w.rows && LogOf(Apply(w, s), id) != LogOf(w, id)
    ensures (s.DoDecide? && s.id == id && s.tenant == w.rows[id].tenant)
         || (s.DoDecideInProcess? && s.tenant == w.rows[id].tenant && s.key in CacheOf(w, s.process)
             && CacheOf(w, s.process)[s.key].approvalId == Some(id))
  {
    match s
    case DoCreate(key, tenant, required, found, freshId) =>
    case DoDecide(k, decision, who, tenant, rationale) =>
      StoreExtendsOneLog(w, k, decision, who, tenant, rationale, id);
    case DoWait(p, key, tenant, found, freshId, legacyId) =>
      WaitKeepsLogs(w, p, key, tenant, found, freshId, legacyId, id);
    case DoRestart(p, tenant, order) =>
    case DoDecideInProcess(p, key, tenant, decision, who, rationale, legacyId) =>
      if GoesToStore(w, p, key, tenant) {
        StoreExtendsOneLog(w, CacheOf(w, p)[key].approvalId.value, decision, who, tenant, rationale, id);
      }
  }

  lemma StoreExtendsOneLog(w: World, k: string, decision: string, who: string, tenant: string, rationale: string,
                           id: string)
    requires id in w.rows
    ensures var v := RecordDecision(w, k, decision, who, tenant, rationale).0;
      LogOf(v, id) != LogOf(w, id) ==> k == id && tenant == w.rows[id].tenant
  {
  }

  lemma WaitKeepsLogs(w: World, p: nat, key: Key, tenant: string, found: Option<string>, freshId: string,
                      legacyId: string, id: string)
    requires id in w.rows
    ensures LogOf(StartWaiting(w, p, key, tenant, found, freshId, legacyId), id) == LogOf(w, id)
  {
  }

  ghost predicate AppliesAt(steps: seq<Step>, i: nat, p: nat, key: Key)
    requires i < |steps|
  {
    Applies(Run(EMPTY, steps[..i]), steps[i], p, key)
  }

  ghost predicate ReplacesAt(steps: seq<Step>, i: nat, p: nat, key: Key)
    requires i < |steps|
  {
    Replaces(Run(EMPTY, steps[..i]), steps[i], p, key)
  }

  ghost predicate KeptSince(steps: seq<Step>, i: nat, p: nat, key: Key) {
    forall j: nat :: i < j < |steps| ==> !ReplacesAt(steps, j, p, key)
  }

  /** Process `p` applied a decision on the gate since its handle was installed. */
  ghost predicate AppliedSince(steps: seq<Step>, p: nat, key: Key) {
    exists i: nat :: i < |steps| && AppliesAt(steps, i, p, key) && KeptSince(steps, i, p, key)
  }

  lemma SameInPrefix(steps: seq<Step>, i: nat, p: nat, key: Key)
    requires i < |steps| - 1
    ensures AppliesAt(steps, i, p, key) <==> AppliesAt(steps[..|steps| - 1], i, p, key)
    ensures ReplacesAt(steps, i, p, key) <==> ReplacesAt(steps[..|steps| - 1], i, p, key)
  {
    assert steps[..|steps| - 1][..i] == steps[..i];
  }

  lemma KeptSinceStep(steps: seq<Step>, i: nat, p: nat, key: Key)
    requires i < |steps| - 1
    ensures KeptSince(steps, i, p, key) <==>
      KeptSince(steps[..|steps| - 1], i, p, key) && !ReplacesAt(steps, |steps| - 1, p, key)
  {
    var init, n := steps[..|steps| - 1], |steps| - 1;
    if KeptSince(steps, i, p, key) {
      forall j: nat | i < j < |init|
        ensures !ReplacesAt(init, j, p, key)
      {
        SameInPrefix(steps, j, p, key);
      }
    }
    if KeptSince(init, i, p, key) && !ReplacesAt(steps, n, p, key) {
      forall j: nat | i < j < |steps|
        ensures !ReplacesAt(steps, j, p, key)
      {
        if j < n {
          SameInPrefix(steps, j, p, key);
        }
      }
    }
  }

  lemma AppliedSinceStep(steps: seq<Step>, p: nat, key: Key)
    requires steps != []
    ensures var init, n := steps[..|steps| - 1], |steps| - 1;
      AppliedSince(steps, p, key) <==>
        AppliesAt(steps, n, p, key) || (AppliedSince(init, p, key) && !ReplacesAt(steps, n, p, key))
  {
    var init, n := steps[..|steps| - 1], |steps| - 1;
    if AppliesAt(steps, n, p, key) {
      assert KeptSince(steps, n, p, key);
    }
    forall i: nat | i < n
      ensures AppliesAt(steps, i, p, key) && KeptSince(steps, i, p, key) <==>
        AppliesAt(init, i, p, key) && KeptSince(init, i, p, key) && !ReplacesAt(steps, n, p, key)
    {
      SameInPrefix(steps, i, p, key);
      KeptSinceStep(steps, i, p, key);
    }
    if AppliedSince(init, p, key) && !ReplacesAt(steps, n, p, key) {
      var i: nat :| i < |init| && AppliesAt(init, i, p, key) && KeptSince(init, i, p, key);
      assert AppliesAt(steps, i, p, key) && KeptSince(steps, i, p, key);
    }
  }

  /** On every interleaving a handle is woken through the store if and only if a decision was
      applied in its own process since it was installed. */
  lemma {:induction false} WokenIffAppliedHere(steps: seq<Step>, p: nat, key: Key)
    ensures WokenThroughStore(Run(EMPTY, steps), p, key) <==> AppliedSince(steps, p, key)
  {
    if steps != [] {
      var init, s := steps[..|steps| - 1], steps[|steps| - 1];
      var w := Run(EMPTY, init);
      WokenIffAppliedHere(init, p, key);
      AppliedSinceStep(steps, p, key);
      assert AppliesAt(steps, |init|, p, key) <==> Applies(w, s, p, key);
      assert ReplacesAt(steps, |init|, p, key) <==> Replaces(w, s, p, key);
      if Applies(w, s, p, key) {
        AppliedWakes(w, s, p, key);
      } else if Replaces(w, s, p, key) {
        ReplacedIsNotWoken(w, s, p, key);
      } else {
        OtherStepsKeepHandle(w, s, p, key);
      }
    }
  }

  // ---- A decision of another process ----

  /** The handle sleeps on a row that no longer takes decisions. */
  ghost predicate Stranded(w: World, p: nat, key: Key, id: string) {
    && key in CacheOf(w, p) && CacheOf(w, p)[key] == Bucket(Some(id), None)
    && id in w.rows && !Open(w.rows[id].state)
  }

  /** Once another process has closed the row, only replacing the handle ends the sleep. */
  lemma StrandedStays(w: World, s: Step, p: nat, key: Key, id: string)
    requires Inv(w) && Stranded(w, p, key, id) && !Replaces(w, s, p, key)
    ensures Stranded(Apply(w, s), p, key, id)
  {
    StepKeepsInv(w, s);
    assert RowEvolves(w, Apply(w, s), id);
    OtherStepsKeepHandle(w, s, p, key);
  }

  function Waits(process: nat, found: Option<string>): Step {
    DoWait(process, ("run", "node"), "tenant", found, "row", "legacy")
  }

  lemma RunExtends(steps: seq<Step>, s: Step)
    ensures Run(EMPTY, steps + [s]) == Apply(Run(EMPTY, steps), s)
  {
    assert (steps + [s])[..|steps|] == steps;
  }

  /** Two processes wait on the same row; the decision is applied in one of them, and the
      other is stranded. */
  lemma OtherProcessIsNotWoken()
    ensures var decide := DoDecideInProcess(1, ("run", "node"), "tenant", "approve", "x", "", "legacy");
      var w := Run(EMPTY, [Waits(0, None)] + [Waits(1, Some("row"))] + [decide]);
      && WokenThroughStore(w, 1, ("run", "node"))
      && Stranded(w, 0, ("run", "node"), "row")
  {
    var decide := DoDecideInProcess(1, ("run", "node"), "tenant", "approve", "x", "", "legacy");
    RunExtends([], Waits(0, None));
    assert [] + [Waits(0, None)] == [Waits(0, None)];
    RunExtends([Waits(0, None)], Waits(1, Some("row")));
    RunExtends([Waits(0, None)] + [Waits(1, Some("row"))], decide);
  }
}
