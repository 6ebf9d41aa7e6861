/** The lifecycle manager: deletion gates and the calls of one process, none of which overlap. */
module Lifecycle {
  import opened Prelude
  import opened Deletion
  import opened DeletionGates

  // ---- Gates ----

  /** A hold blocks exactly the resources it lists; one that lists none, meant to freeze the
      whole tenant, changes no verdict. */
  lemma TenantWideHoldBlocksNothing(w: World, hold: string, tenant: string, kind: ResourceKind, resource: string,
                                    identityTenant: Option<string>, force: bool, owner: string)
    ensures DeleteVerdict(Apply(w, DoHold(hold, Hold(owner, false, {}))), tenant, kind, resource, identityTenant, force)
         == DeleteVerdict(w, tenant, kind, resource, identityTenant, force)
  {
    if hold !in w.holds {
      EmptyHoldCoversNothing(w, hold, Hold(owner, false, {}), tenant, kind, resource);
    }
  }

  lemma EmptyHoldCoversNothing(w: World, hold: string, h: Hold, tenant: string, kind: ResourceKind, resource: string)
    requires hold !in w.holds && h.resources == {}
    ensures IsHeld(w.(holds := w.holds[hold := h]), tenant, kind, resource) <==> IsHeld(w, tenant, kind, resource)
  {
    var holds := w.holds[hold := h];
    if k :| k in holds && Covers(holds[k], tenant, kind, resource) {
      assert k in w.holds && Covers(w.holds[k], tenant, kind, resource);
    }
    if k :| k in w.holds && Covers(w.holds[k], tenant, kind, resource) {
      assert k in holds && Covers(holds[k], tenant, kind, resource);
    }
  }

  lemma ListedHoldBlocks(w: World, hold: string, h: Hold, kind: ResourceKind, resource: string,
                         identityTenant: Option<string>, force: bool)
    requires hold in w.holds && w.holds[hold] == h && !h.released && (kind, resource) in h.resources
    requires identityTenant.None? || identityTenant.value == h.tenant
    ensures DeleteVerdict(w, h.tenant, kind, resource, identityTenant, force) == Some(Blocked)
  {
    assert Covers(w.holds[hold], h.tenant, kind, resource);
  }

  // ---- Calls that nothing overlaps ----

  function ExecuteAlone(w: World, id: string, o: Outcome): World {
    FinishRun(MarkRunning(BeginExecute(w, 0, id), 0), 0, o)
  }

  function ExecuteSteps(id: string, o: Outcome): seq<Step> {
    [DoExecute(0, id)] + [DoMark(0)] + [DoFinish(0, o)]
  }

  /** A retry up to the read of the execution inside it. */
  function ReopenAlone(w: World, id: string): World {
    ReopenJob(BeginRetry(w, 0, id), 0)
  }

  function RetrySteps(id: string, o: Outcome): seq<Step> {
    [DoRetry(0, id)] + [DoReopen(0)] + [DoRead(0)] + [DoMark(0)] + [DoFinish(0, o)]
  }

  function RetryAlone(w: World, id: string, o: Outcome): World {
    FinishRun(MarkRunning(ReadAgain(ReopenAlone(w, id), 0), 0), 0, o)
  }

  /** No call is in progress and none ever overlapped another. */
  ghost predicate Sequential(steps: seq<Step>) {
    Run(steps).live == map[] && forall id :: OverlapsOf(steps, id) == 0
  }

  lemma StepAlone(steps: seq<Step>, s: Step)
    requires Run(steps).live == map[] || !(s.DoExecute? || s.DoRetry?)
    ensures Run(steps + [s]) == Apply(Run(steps), s)
    ensures forall id :: OverlapsOf(steps + [s], id) == OverlapsOf(steps, id)
  {
    RunExtends(EMPTY, steps, s);
    assert (steps + [s])[..|steps|] == steps;
  }

  /** The steps of one execution, and of the second half of a retry. */
  lemma ExecutionSteps(steps: seq<Step>, o: Outcome)
    ensures Run(steps + [DoMark(0)] + [DoFinish(0, o)]) == FinishRun(MarkRunning(Run(steps), 0), 0, o)
    ensures forall id :: OverlapsOf(steps + [DoMark(0)] + [DoFinish(0, o)], id) == OverlapsOf(steps, id)
  {
    StepAlone(steps, DoMark(0));
    StepAlone(steps + [DoMark(0)], DoFinish(0, o));
  }

  lemma ExecuteIsRun(steps: seq<Step>, id: string, o: Outcome)
    requires Sequential(steps)
    ensures Run(steps + ExecuteSteps(id, o)) == ExecuteAlone(Run(steps), id, o)
    ensures Sequential(steps + ExecuteSteps(id, o))
  {
    var one := steps + [DoExecute(0, id)];
    StepAlone(steps, DoExecute(0, id));
    ExecutionSteps(one, o);
    assert steps + ExecuteSteps(id, o) == one + [DoMark(0)] + [DoFinish(0, o)];
    EndsQuiet(Run(steps), id, o);
  }

  /** The whole effect of an execution on an open job. */
  lemma OpenJobExecuted(w: World, id: string, o: Outcome)
    requires w.live == map[] && IsOpen(w, id)
    ensures var job := w.jobs[id];
      ExecuteAlone(w, id, o) == w.(
        jobs := w.jobs[id := Settled(job.(state := Running), job.attempt, o)], runs := w.runs + [AdapterRun(id, o)])
  {
    var seen := BeginExecute(w, 0, id);
    assert seen.live == map[0 := Seen(id, w.jobs[id].attempt)];
    var started := MarkRunning(seen, 0);
    assert started.live == map[0 := Started(id, w.jobs[id].attempt)];
    assert started.jobs == w.jobs[id := w.jobs[id].(state := Running)];
    assert started.live - {0} == map[];
  }

  lemma EndsQuiet(w: World, id: string, o: Outcome)
    requires w.live == map[]
    ensures ExecuteAlone(w, id, o).live == map[] && RetryAlone(w, id, o).live == map[]
  {
    ReadEnds(BeginExecute(w, 0, id), id, o);
    if RetryVerdict(w, id).None? {
      RetryExecutes(w, id, o);
      ReadEnds(BeginExecute(WithState(w, id, Pending), 0, id), id, o);
    } else {
      assert ReopenAlone(w, id) == w;
    }
  }

  /** An execution that read its job, or found it closed, ends. */
  lemma ReadEnds(w: World, id: string, o: Outcome)
    requires w.live == map[] || (id in w.jobs && w.live == map[0 := Seen(id, w.jobs[id].attempt)])
    ensures FinishRun(MarkRunning(w, 0), 0, o).live == map[]
  {
    if w.live != map[] {
      assert MarkRunning(w, 0).live == map[0 := Started(id, w.jobs[id].attempt)];
    }
  }

  lemma RetryIsRun(steps: seq<Step>, id: string, o: Outcome)
    requires Sequential(steps)
    ensures Run(steps + RetrySteps(id, o)) == RetryAlone(Run(steps), id, o)
    ensures Sequential(steps + RetrySteps(id, o))
  {
    var one := steps + [DoRetry(0, id)];
    var two := one + [DoReopen(0)];
    var three := two + [DoRead(0)];
    StepAlone(steps, DoRetry(0, id));
    StepAlone(one, DoReopen(0));
    StepAlone(two, DoRead(0));
    ExecutionSteps(three, o);
    assert steps + RetrySteps(id, o) == three + [DoMark(0)] + [DoFinish(0, o)];
    EndsQuiet(Run(steps), id, o);
  }

  /** Resetting the job and executing it is what the retry's own transactions do. */
  lemma RetryExecutes(w: World, id: string, o: Outcome)
    requires w.live == map[] && RetryVerdict(w, id).None?
    ensures RetryAlone(w, id, o) == ExecuteAlone(WithState(w, id, Pending), id, o)
  {
    var v := WithState(w, id, Pending);
    assert ReadAgain(ReopenAlone(w, id), 0) == BeginExecute(v, 0, id);
  }

  // ---- What the calls leave behind ----

  /** What one execution makes of the jobs: nothing unless the job is open, otherwise the outcome
      of the one adapter run on that job. */
  ghost predicate ExecutedAs(before: map<string, Job>, after: map<string, Job>, id: string, o: Outcome) {
    if id !in before || before[id].state in {Deleted, Failed, Held} then after == before
    else
      && after.Keys == before.Keys
      && (forall k :: k in before && k != id ==> after[k] == before[k])
      && after[id].Resource() == before[id].Resource() && after[id].maxAttempts == before[id].maxAttempts
      && match o
         case Finished(e) =>
           && after[id].evidence == Some(e) && after[id].attempt == before[id].attempt
           && after[id].state == if e.copiesKept == 0 then Deleted else Partial
         case Raised =>
           && after[id].evidence == Some(Evidence(0, 1)) && after[id].attempt == before[id].attempt + 1
           && after[id].state == if after[id].attempt >= before[id].maxAttempts then Failed else Partial
         case Died =>
           after[id].evidence == before[id].evidence && after[id].attempt == before[id].attempt
           && after[id].state == Running
  }

  lemma ExecutionOutcome(w: World, id: string, o: Outcome)
    requires w.live == map[]
    ensures ExecutedAs(w.jobs, ExecuteAlone(w, id, o).jobs, id, o)
    ensures ExecuteAlone(w, id, o).runs == if IsOpen(w, id) then w.runs + [AdapterRun(id, o)] else w.runs
  {
    if IsOpen(w, id) {
      OpenJobExecuted(w, id, o);
    }
  }

  /** A retry is refused for a reason, or executes the job from pending. */
  lemma RetryOutcome(w: World, id: string, o: Outcome)
    requires w.live == map[]
    ensures var refused := RetryVerdict(w, id);
      && (refused == Some(UnknownJob) <==> id !in w.jobs)
      && (refused == Some(AlreadyDeleted) <==> id in w.jobs && w.jobs[id].state == Deleted)
      && (refused == Some(IsOnHold) <==> id in w.jobs && w.jobs[id].state == Held)
      && (refused == Some(BudgetExhausted) <==>
            id in w.jobs && w.jobs[id].state == Failed && w.jobs[id].attempt >= w.jobs[id].maxAttempts)
      && (refused.Some? ==> RetryAlone(w, id, o) == w)
      && (refused.None? ==>
            ExecutedAs(w.jobs[id := w.jobs[id].(state := Pending)], RetryAlone(w, id, o).jobs, id, o))
  {
    if RetryVerdict(w, id).None? {
      RetryExecutes(w, id, o);
      ExecutionOutcome(WithState(w, id, Pending), id, o);
    } else {
      assert ReopenAlone(w, id) == w;
    }
  }

  /** The store's deletion tables and holds, driven by one process. `steps` is the history of
      its transactions, so every property of runs without overlapping calls holds of it. */
  class LifecycleManager {
    var jobs: map<string, Job>
    var holds: map<string, Hold>
    var autoDelete: map<(string, ResourceKind), bool>
    ghost var runs: seq<AdapterRun>
    ghost var steps: seq<Step>

    ghost function View(): World
      reads this
    {
      World(jobs, holds, autoDelete, runs, map[])
    }

    ghost predicate Valid()
      reads this
    {
      View() == Run(steps) && Sequential(steps)
    }

    constructor ()
      ensures Valid() && steps == []
    {
      jobs, holds, autoDelete, runs, steps := map[], map[], map[], [], [];
    }

    /** The idempotent insert: the job the resource has, or a new pending one. */
    method CreateDeletionJob(id: string, tenant: string, kind: ResourceKind, resource: string)
      returns (r: Result<string, Denial>)
      modifies this`jobs
      ensures View() == CreateJob(old(View()), id, tenant, kind, resource, 3)
      ensures r.Err? <==> id in old(jobs) && !HasJob(old(View()), (tenant, kind, resource))
      ensures r.Err? ==> r == Err(IdTaken)
      ensures r.Ok? ==> r.value in jobs && jobs[r.value].Resource() == (tenant, kind, resource)
      ensures r.Ok? && jobs != old(jobs) ==>
        r.value == id && jobs == old(jobs)[id := Job(tenant, kind, resource, Pending, 0, 3, None)]
    {
      if k :| k in jobs && jobs[k].Resource() == (tenant, kind, resource) {
        assert HasJob(View(), (tenant, kind, resource));
        return Ok(k);
      }
      if id in jobs {
        return Err(IdTaken);
      }
      jobs := jobs[id := Job(tenant, kind, resource, Pending, 0, DEFAULT_MAX_ATTEMPTS, None)];
      return Ok(id);
    }

    /** Gates first, then the idempotent insert; returns the job of the resource. */
    method Delete(id: string, tenant: string, kind: ResourceKind, resource: string,
                  identityTenant: Option<string>, force: bool)
      returns (r: Result<string, Denial>)
      requires Valid()
      modifies this
      ensures Valid()
      ensures steps == old(steps) + [DoDelete(id, tenant, kind, resource, identityTenant, force)]
      ensures DeleteVerdict(old(View()), tenant, kind, resource, identityTenant, force).Some? ==>
        r == Err(DeleteVerdict(old(View()), tenant, kind, resource, identityTenant, force).value)
      ensures DeleteVerdict(old(View()), tenant, kind, resource, identityTenant, force).None? ==>
        (r.Err? <==> id in old(jobs) && !HasJob(old(View()), (tenant, kind, resource)))
      ensures r.Ok? ==> r.value in jobs && jobs[r.value].Resource() == (tenant, kind, resource)
      ensures GatesAnswer(old(steps), tenant, kind, resource, identityTenant, force, r)
      ensures r.Err? ==> jobs == old(jobs)
      ensures r.Ok? && jobs != old(jobs) ==>
        r.value == id && jobs == old(jobs)[id := Job(tenant, kind, resource, Pending, 0, 3, None)]
    {
      StepAlone(steps, DoDelete(id, tenant, kind, resource, identityTenant, force));
      AnswerByGates(steps, tenant, kind, resource, identityTenant, force);
      steps := steps + [DoDelete(id, tenant, kind, resource, identityTenant, force)];
      if identityTenant.Some? && identityTenant.value != tenant {
        return Err(CrossTenant);
      }
      if exists k :: k in holds && Covers(holds[k], tenant, kind, resource) {
        return Err(Blocked);
      }
      if (tenant, kind) in autoDelete && !autoDelete[(tenant, kind)] && !force {
        return Err(Retained);
      }
      r := CreateDeletionJob(id, tenant, kind, resource);
    }

    /** The failure path: one more attempt, and the job fails when that was the last one. */
    method HandleAdapterFailure(id: string, row: Job, attemptBefore: int)
      requires id in jobs && row.maxAttempts == jobs[id].maxAttempts
      modifies this`jobs
      ensures jobs == old(jobs)[id := Settled(old(jobs)[id], attemptBefore, Raised)]
    {
      var attemptAfter := attemptBefore + 1;
      var final := if attemptAfter >= row.maxAttempts then Failed else Partial;
      jobs := jobs[id := jobs[id].(state := final, attempt := jobs[id].attempt + 1, evidence := Some(Evidence(0, 1)))];
    }

    method RecordOutcome(id: string, row: Job, attemptBefore: int, o: Outcome)
      requires id in jobs && row.maxAttempts == jobs[id].maxAttempts
      modifies this`jobs
      ensures jobs == old(jobs)[id := Settled(old(jobs)[id], attemptBefore, o)]
    {
      match o {
        case Finished(evidence) =>
          var final := if evidence.copiesKept == 0 then Deleted else Partial;
          jobs := jobs[id := jobs[id].(state := final, evidence := Some(evidence))];
        case Raised =>
          HandleAdapterFailure(id, row, attemptBefore);
        case Died =>
      }
    }

    /** The transactions of one execution; `o` is what the adapter does. */
    method ExecuteJob(id: string, o: Outcome) returns (known: bool)
      modifies this`jobs, this`runs
      ensures View() == ExecuteAlone(old(View()), id, o)
      ensures known <==> id in old(jobs)
    {
      ghost var w := View();
      if id !in jobs {
        return false;
      }
      var row := jobs[id];
      if row.state in {Deleted, Failed, Held} {
        return true;
      }
      var attemptBefore := row.attempt;
      jobs := jobs[id := row.(state := Running)];
      runs := runs + [AdapterRun(id, o)];
      RecordOutcome(id, row, attemptBefore, o);
      assert jobs == w.jobs[id := Settled(row.(state := Running), attemptBefore, o)];
      OpenJobExecuted(w, id, o);
      return true;
    }

    method ExecuteDeletion(id: string, o: Outcome) returns (known: bool)
      requires Valid()
      modifies this
      ensures Valid() && steps == old(steps) + ExecuteSteps(id, o)
      ensures known <==> id in old(jobs)
      ensures ExecutedAs(old(jobs), jobs, id, o)
    {
      ExecutionOutcome(View(), id, o);
      ExecuteIsRun(steps, id, o);
      known := ExecuteJob(id, o);
      steps := steps + ExecuteSteps(id, o);
    }

    method RetryDeletion(id: string, o: Outcome) returns (refused: Option<RetryRefusal>)
      requires Valid()
      modifies this
      ensures Valid() && steps == old(steps) + RetrySteps(id, o)
      ensures refused == RetryVerdict(old(View()), id)
      ensures refused == None ==> id in old(jobs)
      ensures if refused == None then ExecutedAs(old(jobs)[id := old(jobs)[id].(state := Pending)], jobs, id, o)
              else jobs == old(jobs)
    {
      ghost var w := View();
      RetryOutcome(w, id, o);
      RetryIsRun(steps, id, o);
      steps := steps + RetrySteps(id, o);
      if id !in jobs {
        return Some(UnknownJob);
      }
      var job := jobs[id];
      if job.state == Deleted {
        return Some(AlreadyDeleted);
      }
      if job.state == Held {
        return Some(IsOnHold);
      }
      if job.attempt >= job.maxAttempts && job.state == Failed {
        return Some(BudgetExhausted);
      }
      RetryExecutes(w, id, o);
      jobs := jobs[id := job.(state := Pending)];
      var known := ExecuteJob(id, o);
      return None;
    }
  }
}
