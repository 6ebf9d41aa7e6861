/** Rows and decisions per gate. Creating a gate looks for its row first, but locking no row
    locks nothing: two calls can both miss the row that the other is inserting. */
module ApprovalGates {
  import opened Prelude
  import opened Approvals

  ghost predicate HasRow(w: World, key: Key) {
    exists id :: IsRowOf(w, id, key)
  }

  ghost predicate OneRow(w: World, key: Key) {
    forall id, k :: IsRowOf(w, id, key) && IsRowOf(w, k, key) ==> id == k
  }

  function FreshRow(w: World, id: string, key: Key): Option<(string, Key)> {
    if id in w.rows then None else Some((id, key))
  }

  /** The row a step inserts, and its gate. */
  function Inserted(w: World, s: Step): Option<(string, Key)> {
    match s
    case DoCreate(key, _, _, found, freshId) =>
      if found.Some? && IsRowOf(w, found.value, key) then None else FreshRow(w, freshId, key)
    case DoDecide(_, _, _, _, _) => None
    case DoWait(_, key, tenant, found, freshId, legacyId) =>
      if tenant == "" then FreshRow(w, legacyId, key)
      else if found.Some? && IsRowOf(w, found.value, key) then None
      else if freshId !in w.rows then Some((freshId, key))
      else FreshRow(w, legacyId, key)
    case DoRestart(_, _, _) => None
    case DoDecideInProcess(p, key, tenant, _, _, _, legacyId) =>
      if key !in CacheOf(w, p) then None
      else
        var id := CacheOf(w, p)[key].approvalId;
        if id.Some? && id.value != "" && tenant != "" then None else FreshRow(w, legacyId, key)
  }

  lemma StepRows(w: World, s: Step, id: string, key: Key)
    ensures IsRowOf(Apply(w, s), id, key) <==> IsRowOf(w, id, key) || Inserted(w, s) == Some((id, key))
    ensures Inserted(w, s) == Some((id, key)) ==> id !in w.rows
  {
  }

  // ---- Where a row comes from ----

  /** Tenant of the row a step inserts; the legacy path leaves the column empty. */
  function OriginTenant(s: Step, id: string): string {
    if s.DoCreate? then s.tenant
    else if s.DoWait? && s.tenant != "" && id == s.freshId then s.tenant
    else ""
  }

  /** Approvers it asks for: what a creation call said, and one in every other case. */
  function OriginRequired(s: Step): int {
    if s.DoCreate? then s.required else 1
  }

  lemma InsertedRow(w: World, s: Step, id: string, key: Key)
    requires Inserted(w, s) == Some((id, key))
    ensures IsNewRow(Apply(w, s), id, key, OriginTenant(s, id), OriginRequired(s))
  {
  }

  ghost predicate InsertsAt(steps: seq<Step>, i: nat, id: string, key: Key) {
    i < |steps| && Inserted(Run(EMPTY, steps[..i]), steps[i]) == Some((id, key))
  }

  /** On every run a row has the gate, the tenant and the count that the step which inserted it
      gave it. */
  lemma RowKeepsOrigin(steps: seq<Step>, i: nat, id: string, key: Key)
    requires InsertsAt(steps, i, id, key)
    ensures var w := Run(EMPTY, steps);
      && IsRowOf(w, id, key)
      && w.rows[id].tenant == OriginTenant(steps[i], id) && w.rows[id].required == OriginRequired(steps[i])
  {
    var before, after := Run(EMPTY, steps[..i]), Run(EMPTY, steps[..i + 1]);
    assert steps[..i + 1][..i] == steps[..i];
    assert after == Apply(before, steps[i]);
    InsertedRow(before, steps[i], id, key);
    TerminalRowsNeverChange(steps, i + 1);
    assert RowEvolves(after, Run(EMPTY, steps), id);
  }

  ghost predicate HasOrigin(steps: seq<Step>, id: string, key: Key) {
    exists i: nat :: InsertsAt(steps, i, id, key)
  }

  lemma OriginInPrefix(steps: seq<Step>, id: string, key: Key)
    requires steps != []
    ensures var init := steps[..|steps| - 1];
      HasOrigin(steps, id, key) <==>
        HasOrigin(init, id, key) || Inserted(Run(EMPTY, init), steps[|init|]) == Some((id, key))
  {
    var init := steps[..|steps| - 1];
    forall i: nat | i < |init|
      ensures InsertsAt(init, i, id, key) <==> InsertsAt(steps, i, id, key)
    {
      assert init[..i] == steps[..i];
    }
    assert InsertsAt(steps, |init|, id, key) <==> Inserted(Run(EMPTY, init), steps[|init|]) == Some((id, key));
    if i: nat :| InsertsAt(init, i, id, key) {
      assert InsertsAt(steps, i, id, key);
    }
  }

  /** And every row was inserted by some step. */
  lemma {:induction false} RowHasOrigin(steps: seq<Step>, id: string, key: Key)
    ensures IsRowOf(Run(EMPTY, steps), id, key) <==> HasOrigin(steps, id, key)
  {
    if steps != [] {
      var init := steps[..|steps| - 1];
      RowHasOrigin(init, id, key);
      OriginInPrefix(steps, id, key);
      StepRows(Run(EMPTY, init), steps[|init|], id, key);
    }
  }

  /** The step inserts a row for a gate that has one. */
  ghost predicate Misses(w: World, s: Step, key: Key) {
    Inserted(w, s).Some? && Inserted(w, s).value.1 == key && HasRow(w, key)
  }

  ghost predicate MissedAt(steps: seq<Step>, key: Key, i: nat)
    requires i < |steps|
  {
    Misses(Run(EMPTY, steps[..i]), steps[i], key)
  }

  ghost predicate NoneMissed(steps: seq<Step>, key: Key) {
    forall i: nat :: i < |steps| ==> !MissedAt(steps, key, i)
  }

  lemma StepKeepsOneRow(w: World, s: Step, key: Key)
    ensures OneRow(Apply(w, s), key) <==> OneRow(w, key) && !Misses(w, s, key)
  {
    var v := Apply(w, s);
    forall id
      ensures IsRowOf(v, id, key) <==> IsRowOf(w, id, key) || Inserted(w, s) == Some((id, key))
      ensures Inserted(w, s) == Some((id, key)) ==> id !in w.rows
    {
      StepRows(w, s, id, key);
    }
    if Misses(w, s, key) {
      var id :| IsRowOf(w, id, key);
      var k := Inserted(w, s).value.0;
      assert IsRowOf(v, id, key) && IsRowOf(v, k, key) && id != k;
    }
  }

  lemma MissedInPrefix(steps: seq<Step>, key: Key)
    requires steps != []
    ensures var init := steps[..|steps| - 1];
      NoneMissed(steps, key) <==> NoneMissed(init, key) && !Misses(Run(EMPTY, init), steps[|steps| - 1], key)
  {
    var init := steps[..|steps| - 1];
    forall i: nat | i < |init|
      ensures MissedAt(init, key, i) <==> MissedAt(steps, key, i)
    {
      assert init[..i] == steps[..i];
    }
    assert MissedAt(steps, key, |init|) <==> Misses(Run(EMPTY, init), steps[|steps| - 1], key);
  }

  /** A gate has at most one row if and only if no call of the history inserted a row for it
      while it had one. */
  lemma {:induction false} OneRowIffNoneMissed(steps: seq<Step>, key: Key)
    ensures OneRow(Run(EMPTY, steps), key) <==> NoneMissed(steps, key)
  {
    if steps != [] {
      var init := steps[..|steps| - 1];
      OneRowIffNoneMissed(init, key);
      MissedInPrefix(steps, key);
      StepKeepsOneRow(Run(EMPTY, init), steps[|steps| - 1], key);
    }
  }

  /** The decision applied to a gate, through whichever of its rows. */
  ghost predicate DecidedAs(w: World, key: Key, d: DecisionRow) {
    exists id :: IsRowOf(w, id, key) && d in LogOf(w, id)
  }

  /** A gate of one approver takes at most one decision as long as no call missed its row, and
      every handle woken through a row of the gate carries that decision. */
  lemma OneDecisionPerGate(steps: seq<Step>, key: Key)
    requires NoneMissed(steps, key)
    requires forall id :: IsRowOf(Run(EMPTY, steps), id, key) ==> Run(EMPTY, steps).rows[id].required == 1
    ensures var w := Run(EMPTY, steps);
      && (forall c, d :: DecidedAs(w, key, c) && DecidedAs(w, key, d) ==> c == d)
      && forall p, handle, id :: IsRowOf(w, id, key) && WokenFor(w, p, handle, id) ==>
           WokenByTheDecision(w, w.caches[p][handle].woken.value, id)
  {
    var w := Run(EMPTY, steps);
    OneRowIffNoneMissed(steps, key);
    RunKeepsInv(steps);
    forall c, d | DecidedAs(w, key, c) && DecidedAs(w, key, d)
      ensures c == d
    {
      SameDecision(w, key, c, d);
    }
    forall p, handle, id | IsRowOf(w, id, key) && WokenFor(w, p, handle, id)
      ensures WokenByTheDecision(w, w.caches[p][handle].woken.value, id)
    {
      WakeOfOneApprover(w, p, handle, id);
    }
  }

  lemma SameDecision(w: World, key: Key, c: DecisionRow, d: DecisionRow)
    requires RowsAgree(w) && OneRow(w, key) && DecidedAs(w, key, c) && DecidedAs(w, key, d)
    requires forall id :: IsRowOf(w, id, key) ==> w.rows[id].required == 1
    ensures c == d
  {
    var id :| IsRowOf(w, id, key) && c in LogOf(w, id);
    var k :| IsRowOf(w, k, key) && d in LogOf(w, k);
    assert id == k && RowAgrees(w.rows[id], w.log[id]);
    RowOfOneApprover(w.rows[id], w.log[id]);
  }

  // ---- Two racing creations ----

  function Created(row: string): Step {
    DoCreate(("run", "node"), "tenant", 1, None, row)
  }

  lemma RunExtends(steps: seq<Step>, s: Step)
    ensures Run(EMPTY, steps + [s]) == Apply(Run(EMPTY, steps), s)
  {
    assert (steps + [s])[..|steps|] == steps;
  }

  ghost predicate RowIs(w: World, id: string, key: Key, state: ApprovalState) {
    IsRowOf(w, id, key) && w.rows[id].state == state
  }

  /** Two calls that miss each other leave one gate with two pending rows, which then take
      opposite decisions. */
  lemma RacingCreationsDecideTwice()
    ensures var key := ("run", "node");
      var raced := [Created("a")] + [Created("b")];
      var approve, reject := DoDecide("a", "approve", "x", "tenant", ""), DoDecide("b", "reject", "y", "tenant", "");
      var decided := raced + [approve] + [reject];
      && RowIs(Run(EMPTY, raced), "a", key, Pending) && RowIs(Run(EMPTY, raced), "b", key, Pending)
      && RowIs(Run(EMPTY, decided), "a", key, ApprovedState) && RowIs(Run(EMPTY, decided), "b", key, RejectedState)
  {
    var raced := [Created("a")] + [Created("b")];
    var approve, reject := DoDecide("a", "approve", "x", "tenant", ""), DoDecide("b", "reject", "y", "tenant", "");
    RunExtends([], Created("a"));
    assert [] + [Created("a")] == [Created("a")];
    RunExtends([Created("a")], Created("b"));
    RunExtends(raced, approve);
    RunExtends(raced + [approve], reject);
  }
}
