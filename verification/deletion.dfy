/** Deletion jobs: gates, execution, bounded retry and the evidence they leave. An execution
    or retry is several transactions, so calls of any number of processes interleave between
    them; adapters answer arbitrarily and processes may die anywhere. */
module Deletion {
  import opened Prelude

  datatype ResourceKind = Artifact | Receipt | Event | Webhook | Cache | Backup

  datatype JobState = Pending | Running | Deleted | Partial | Failed | Held

  datatype Evidence = Evidence(copiesDeleted: nat, copiesKept: nat)

  datatype Job = Job(
    tenant: string,
    kind: ResourceKind,
    resource: string,
    state: JobState,
    attempt: int,
    maxAttempts: int,
    evidence: Option<Evidence>
  ) {
    function Resource(): (string, ResourceKind, string) { (tenant, kind, resource) }

    /** Failing runs a job can take; at least one, whatever limit was stored. */
    function Budget(): int { if maxAttempts >= 1 then maxAttempts else 1 }
  }

  const DEFAULT_MAX_ATTEMPTS := 3

  datatype Hold = Hold(tenant: string, released: bool, resources: set<(ResourceKind, string)>)

  /** What one adapter call does: returns evidence, raises, or the process dies in it. */
  datatype Outcome = Finished(evidence: Evidence) | Raised | Died

  datatype AdapterRun = AdapterRun(jobId: string, outcome: Outcome)

  /** How far a call in progress has come: a retry that passed its check, a retry that set
      the job back to pending, an execution that read an open job, and one whose adapter is
      at work. Both executions remember the attempt count they read. */
  datatype Token =
    | Checked(jobId: string)
    | Reopened(jobId: string)
    | Seen(jobId: string, attemptBefore: int)
    | Started(jobId: string, attemptBefore: int)

  /** `live` holds the calls in progress, `runs` the adapter runs that came to an end. */
  datatype World = World(
    jobs: map<string, Job>,
    holds: map<string, Hold>,
    autoDelete: map<(string, ResourceKind), bool>,
    runs: seq<AdapterRun>,
    live: map<nat, Token>
  )

  const EMPTY := World(map[], map[], map[], [], map[])

  // ---- Creating a job ----

  predicate Covers(h: Hold, tenant: string, kind: ResourceKind, resource: string) {
    h.tenant == tenant && !h.released && (kind, resource) in h.resources
  }

  predicate IsHeld(w: World, tenant: string, kind: ResourceKind, resource: string) {
    exists k :: k in w.holds && Covers(w.holds[k], tenant, kind, resource)
  }

  datatype Denial = CrossTenant | Blocked | Retained | IdTaken

  function DeleteVerdict(w: World, tenant: string, kind: ResourceKind, resource: string,
                         identityTenant: Option<string>, force: bool): Option<Denial>
  {
    if identityTenant.Some? && identityTenant.value != tenant then Some(CrossTenant)
    else if IsHeld(w, tenant, kind, resource) then Some(Blocked)
    else if (tenant, kind) in w.autoDelete && !w.autoDelete[(tenant, kind)] && !force then Some(Retained)
    else None
  }

  predicate HasJob(w: World, resource: (string, ResourceKind, string)) {
    exists id :: id in w.jobs && w.jobs[id].Resource() == resource
  }

  /** Inserts a pending job unless the resource, or the id, already has one. */
  function CreateJob(w: World, id: string, tenant: string, kind: ResourceKind, resource: string, max: int): World {
    if HasJob(w, (tenant, kind, resource)) || id in w.jobs then w
    else w.(jobs := w.jobs[id := Job(tenant, kind, resource, Pending, 0, max, None)])
  }

  // ---- Executing and retrying a job, one transaction at a time ----

  predicate Closed(s: JobState) {
    s == Deleted || s == Failed || s == Held
  }

  predicate IsOpen(w: World, id: string) {
    id in w.jobs && !Closed(w.jobs[id].state)
  }

  function WithState(w: World, id: string, state: JobState): World
    requires id in w.jobs
  {
    w.(jobs := w.jobs[id := w.jobs[id].(state := state)])
  }

  function Advanced(w: World, tok: nat, next: Token): World {
    w.(live := w.live[tok := next])
  }

  function Dropped(w: World, tok: nat): World {
    w.(live := w.live - {tok})
  }

  /** An execution reads its job; on an open one it goes on. */
  function BeginExecute(w: World, tok: nat, id: string): World {
    if tok in w.live || !IsOpen(w, id) then w
    else Advanced(w, tok, Seen(id, w.jobs[id].attempt))
  }

  function MarkRunning(w: World, tok: nat): World {
    if tok in w.live && w.live[tok].Seen? && w.live[tok].jobId in w.jobs then
      var t := w.live[tok];
      Advanced(WithState(w, t.jobId, Running), tok, Started(t.jobId, t.attemptBefore))
    else w
  }

  /** The row after the adapter answered, with the attempt count the execution had read. */
  function Settled(job: Job, attemptBefore: int, o: Outcome): Job {
    match o
    case Finished(e) => job.(state := if e.copiesKept == 0 then Deleted else Partial, evidence := Some(e))
    case Raised =>
      var terminal := attemptBefore + 1 >= job.maxAttempts;
      job.(state := if terminal then Failed else Partial,
           attempt := job.attempt + 1,
           evidence := Some(Evidence(0, 1)))
    case Died => job
  }

  function FinishRun(w: World, tok: nat, o: Outcome): World {
    if tok in w.live && w.live[tok].Started? && w.live[tok].jobId in w.jobs then
      var t := w.live[tok];
      Dropped(w.(jobs := w.jobs[t.jobId := Settled(w.jobs[t.jobId], t.attemptBefore, o)],
                 runs := w.runs + [AdapterRun(t.jobId, o)]), tok)
    else w
  }

  datatype RetryRefusal = UnknownJob | AlreadyDeleted | IsOnHold | BudgetExhausted

  function RetryVerdict(w: World, id: string): Option<RetryRefusal> {
    if id !in w.jobs then Some(UnknownJob)
    else
      var job := w.jobs[id];
      if job.state == Deleted then Some(AlreadyDeleted)
      else if job.state == Held then Some(IsOnHold)
      else if job.attempt >= job.maxAttempts && job.state == Failed then Some(BudgetExhausted)
      else None
  }

  function BeginRetry(w: World, tok: nat, id: string): World {
    if tok in w.live || RetryVerdict(w, id).Some? then w else Advanced(w, tok, Checked(id))
  }

  /** The retry resets the state, whatever it has become since the check. */
  function ReopenJob(w: World, tok: nat): World {
    if tok in w.live && w.live[tok].Checked? && w.live[tok].jobId in w.jobs then
      Advanced(WithState(w, w.live[tok].jobId, Pending), tok, Reopened(w.live[tok].jobId))
    else w
  }

  /** The execution inside the retry reads the job again. */
  function ReadAgain(w: World, tok: nat): World {
    if tok in w.live && w.live[tok].Reopened? then
      var id := w.live[tok].jobId;
      if IsOpen(w, id) then Advanced(w, tok, Seen(id, w.jobs[id].attempt)) else Dropped(w, tok)
    else w
  }

  /** The process of a call dies while no adapter is at work. */
  function Abandon(w: World, tok: nat): World {
    if tok in w.live && !w.live[tok].Started? then Dropped(w, tok) else w
  }

  /** `DoCreate` stands alone because the gates and the insert are separate transactions:
      a job may be created although a hold was placed after its gates were passed. */
  datatype Step =
    | DoDelete(id: string, tenant: string, kind: ResourceKind, resource: string,
               identityTenant: Option<string>, force: bool)
    | DoCreate(id: string, tenant: string, kind: ResourceKind, resource: string, max: int)
    | DoExecute(token: nat, id: string)
    | DoMark(token: nat)
    | DoFinish(token: nat, outcome: Outcome)
    | DoRetry(token: nat, id: string)
    | DoReopen(token: nat)
    | DoRead(token: nat)
    | DoAbandon(token: nat)
    | DoHold(hold: string, value: Hold)
    | DoRelease(hold: string, tenant: string)
    | DoPolicy(tenant: string, kind: ResourceKind, autoDelete: bool)

  function Apply(w: World, s: Step): World {
    match s
    case DoDelete(id, tenant, kind, resource, identityTenant, force) =>
      if DeleteVerdict(w, tenant, kind, resource, identityTenant, force).Some? then w
      else CreateJob(w, id, tenant, kind, resource, DEFAULT_MAX_ATTEMPTS)
    case DoCreate(id, tenant, kind, resource, max) => CreateJob(w, id, tenant, kind, resource, max)
    case DoExecute(tok, id) => BeginExecute(w, tok, id)
    case DoMark(tok) => MarkRunning(w, tok)
    case DoFinish(tok, o) => FinishRun(w, tok, o)
    case DoRetry(tok, id) => BeginRetry(w, tok, id)
    case DoReopen(tok) => ReopenJob(w, tok)
    case DoRead(tok) => ReadAgain(w, tok)
    case DoAbandon(tok) => Abandon(w, tok)
    case DoHold(hold, value) => if hold in w.holds then w else w.(holds := w.holds[hold := value])
    case DoRelease(hold, tenant) =>
      if hold !in w.holds || w.holds[hold].tenant != tenant || w.holds[hold].released then w
      else w.(holds := w.holds[hold := w.holds[hold].(released := true)])
    case DoPolicy(tenant, kind, auto) => w.(autoDelete := w.autoDelete[(tenant, kind) := auto])
  }

  function RunFrom(w: World, steps: seq<Step>): World {
    if steps == [] then w else Apply(RunFrom(w, steps[..|steps| - 1]), steps[|steps| - 1])
  }

  function Run(steps: seq<Step>): World {
    RunFrom(EMPTY, steps)
  }

  lemma RunExtends(w: World, steps: seq<Step>, s: Step)
    ensures RunFrom(w, steps + [s]) == Apply(RunFrom(w, steps), s)
  {
    assert (steps + [s])[..|steps|] == steps;
  }

  lemma {:induction false} RunSplits(w: World, a: seq<Step>, b: seq<Step>)
    ensures RunFrom(w, a + b) == RunFrom(RunFrom(w, a), b)
  {
    if b == [] {
      assert a + b == a;
    } else {
      assert (a + b)[..|a + b| - 1] == a + b[..|b| - 1];
      RunSplits(w, a, b[..|b| - 1]);
    }
  }

  // ---- What every interleaving keeps ----

  /** Adapter runs of a job that raised. */
  ghost function RaisedRuns(runs: seq<AdapterRun>, id: string): nat {
    if runs == [] then 0
    else
      var r := runs[|runs| - 1];
      RaisedRuns(runs[..|runs| - 1], id) + (if r == AdapterRun(id, Raised) then 1 else 0)
  }

  /** A job whose adapter raised `raised` times, however its calls interleaved. */
  ghost predicate Consistent(job: Job, raised: nat) {
    && job.attempt == raised
    && (job.state == Failed ==> job.attempt >= job.Budget())
    && (job.state == Deleted ==> job.evidence.Some? && job.evidence.value.copiesKept == 0)
    && job.state != Held
  }

  ghost predicate JobOk(w: World, id: string) {
    id in w.jobs ==> Consistent(w.jobs[id], RaisedRuns(w.runs, id))
  }

  ghost predicate TokenOk(w: World, tok: nat) {
    tok in w.live ==>
      && w.live[tok].jobId in w.jobs
      && (w.live[tok].Seen? || w.live[tok].Started? ==>
            w.live[tok].attemptBefore <= w.jobs[w.live[tok].jobId].attempt)
  }

  ghost predicate SameResource(w: World, id: string, k: string) {
    id in w.jobs && k in w.jobs && w.jobs[id].Resource() == w.jobs[k].Resource()
  }

  ghost predicate RunsKnown(w: World) {
    forall i :: 0 <= i < |w.runs| ==> w.runs[i].jobId in w.jobs
  }

  ghost predicate Sound(w: World) {
    && (forall id :: JobOk(w, id))
    && (forall tok :: TokenOk(w, tok))
    && (forall id, k :: SameResource(w, id, k) ==> id == k)
    && RunsKnown(w)
  }

  lemma {:induction false} NoRunsYet(runs: seq<AdapterRun>, id: string)
    requires forall i :: 0 <= i < |runs| ==> runs[i].jobId != id
    ensures RaisedRuns(runs, id) == 0
  {
    if runs != [] {
      NoRunsYet(runs[..|runs| - 1], id);
    }
  }

  lemma RunAppended(runs: seq<AdapterRun>, r: AdapterRun, id: string)
    ensures RaisedRuns(runs + [r], id) == RaisedRuns(runs, id) + (if r == AdapterRun(id, Raised) then 1 else 0)
  {
    assert (runs + [r])[..|runs|] == runs;
  }

  lemma CreateKeepsSound(w: World, id: string, tenant: string, kind: ResourceKind, resource: string, max: int)
    requires Sound(w)
    ensures Sound(CreateJob(w, id, tenant, kind, resource, max))
  {
    if !(HasJob(w, (tenant, kind, resource)) || id in w.jobs) {
      NoRunsYet(w.runs, id);
      var v := CreateJob(w, id, tenant, kind, resource, max);
      forall j, k | SameResource(v, j, k)
        ensures j == k
      {
        if j != id && k != id {
          assert SameResource(w, j, k);
        }
      }
      forall k
        ensures JobOk(v, k)
      {
        assert JobOk(w, k);
      }
      forall tok
        ensures TokenOk(v, tok)
      {
        assert TokenOk(w, tok);
      }
    }
  }

  /** Job `id` was replaced by one for the same resource with at least as many attempts. */
  ghost predicate Replaced(w: World, v: World, id: string) {
    && id in w.jobs && v.jobs.Keys == w.jobs.Keys
    && v.jobs[id].Resource() == w.jobs[id].Resource() && v.jobs[id].attempt >= w.jobs[id].attempt
    && v.jobs[id].maxAttempts == w.jobs[id].maxAttempts
    && forall k :: k in w.jobs && k != id ==> v.jobs[k] == w.jobs[k]
  }

  lemma ReplacedKeepsResources(w: World, v: World, id: string)
    requires Replaced(w, v, id) && forall j, k :: SameResource(w, j, k) ==> j == k
    ensures forall j, k :: SameResource(v, j, k) ==> j == k
  {
    forall j, k | SameResource(v, j, k)
      ensures j == k
    {
      assert SameResource(w, j, k);
    }
  }

  /** A call changed the state of one job and moved on or ended. */
  lemma StateChangeKeepsSound(w: World, v: World, tok: nat, id: string)
    requires Sound(w) && Replaced(w, v, id) && v.runs == w.runs
    requires v.jobs[id].attempt == w.jobs[id].attempt && v.jobs[id].evidence == w.jobs[id].evidence
    requires v.jobs[id].state in {w.jobs[id].state, Pending, Running}
    requires TokenOk(v, tok) && forall k :: k != tok ==> SameToken(w, v, k)
    ensures Sound(v)
  {
    ReplacedKeepsResources(w, v, id);
    forall k
      ensures JobOk(v, k)
    {
      assert JobOk(w, k);
    }
    forall k
      ensures TokenOk(v, k)
    {
      assert TokenOk(w, k);
      if k != tok {
        assert SameToken(w, v, k);
      }
    }
  }

  ghost predicate SameToken(w: World, v: World, k: nat) {
    (k in v.live <==> k in w.live) && (k in w.live ==> v.live[k] == w.live[k])
  }

  /** The adapter answers: on the row, whatever else happened to it since it was read. */
  lemma SettledIsConsistent(job: Job, raised: nat, attemptBefore: int, o: Outcome)
    requires Consistent(job, raised) && attemptBefore <= job.attempt
    ensures Consistent(Settled(job, attemptBefore, o), raised + (if o == Raised then 1 else 0))
  {
  }

  lemma FinishKeepsSound(w: World, tok: nat, o: Outcome)
    requires Sound(w)
    ensures Sound(FinishRun(w, tok, o))
  {
    assert TokenOk(w, tok);
    if tok in w.live && w.live[tok].Started? {
      var t, v := w.live[tok], FinishRun(w, tok, o);
      assert JobOk(w, t.jobId);
      SettledIsConsistent(w.jobs[t.jobId], RaisedRuns(w.runs, t.jobId), t.attemptBefore, o);
      ReplacedKeepsResources(w, v, t.jobId);
      forall k
        ensures JobOk(v, k)
      {
        assert JobOk(w, k);
        RunAppended(w.runs, AdapterRun(t.jobId, o), k);
      }
      forall k
        ensures TokenOk(v, k)
      {
        assert TokenOk(w, k);
      }
    }
  }

  lemma SameJobsKeepSound(w: World, v: World)
    requires Sound(w) && v.jobs == w.jobs && v.runs == w.runs && forall tok :: TokenOk(v, tok)
    ensures Sound(v)
  {
    forall k
      ensures JobOk(v, k)
    {
      assert JobOk(w, k);
    }
    forall j, k | SameResource(v, j, k)
      ensures j == k
    {
      assert SameResource(w, j, k);
    }
  }

  lemma StepKeepsSound(w: World, s: Step)
    requires Sound(w)
    ensures Sound(Apply(w, s))
  {
    match s
    case DoDelete(id, tenant, kind, resource, _, _) =>
      CreateKeepsSound(w, id, tenant, kind, resource, DEFAULT_MAX_ATTEMPTS);
    case DoCreate(id, tenant, kind, resource, max) => CreateKeepsSound(w, id, tenant, kind, resource, max);
    case DoFinish(tok, o) => FinishKeepsSound(w, tok, o);
    case DoMark(tok) => MarkKeepsSound(w, tok);
    case DoReopen(tok) => ReopenKeepsSound(w, tok);
    case _ =>
      forall tok
        ensures TokenOk(Apply(w, s), tok)
      {
        assert TokenOk(w, tok);
        QuietStepKeepsToken(w, s, tok);
      }
      QuietStepKeepsJobs(w, s);
      SameJobsKeepSound(w, Apply(w, s));
  }

  lemma MarkKeepsSound(w: World, tok: nat)
    requires Sound(w)
    ensures Sound(MarkRunning(w, tok))
  {
    assert TokenOk(w, tok);
    if MarkRunning(w, tok) != w {
      StateChangeKeepsSound(w, MarkRunning(w, tok), tok, w.live[tok].jobId);
    }
  }

  lemma ReopenKeepsSound(w: World, tok: nat)
    requires Sound(w)
    ensures Sound(ReopenJob(w, tok))
  {
    assert TokenOk(w, tok);
    if ReopenJob(w, tok) != w {
      StateChangeKeepsSound(w, ReopenJob(w, tok), tok, w.live[tok].jobId);
    }
  }

  /** Steps that leave the jobs and the ended runs alone. */
  predicate IsQuiet(s: Step) {
    s.DoExecute? || s.DoRetry? || s.DoRead? || s.DoAbandon? || s.DoHold? || s.DoRelease? || s.DoPolicy?
  }

  lemma QuietStepKeepsJobs(w: World, s: Step)
    requires IsQuiet(s)
    ensures Apply(w, s).jobs == w.jobs && Apply(w, s).runs == w.runs
  {
  }

  lemma QuietStepKeepsToken(w: World, s: Step, tok: nat)
    requires IsQuiet(s) && TokenOk(w, tok)
    ensures TokenOk(Apply(w, s), tok)
  {
    QuietStepKeepsJobs(w, s);
  }

  lemma {:induction false} RunIsSound(steps: seq<Step>)
    ensures Sound(Run(steps))
  {
    if steps == [] {
      assert forall id :: JobOk(EMPTY, id);
    } else {
      RunIsSound(steps[..|steps| - 1]);
      StepKeepsSound(Run(steps[..|steps| - 1]), steps[|steps| - 1]);
    }
  }

  /** There is one job per resource, on every interleaving. */
  lemma OneJobPerResource(steps: seq<Step>, id: string, k: string)
    requires id in Run(steps).jobs && k in Run(steps).jobs
    requires Run(steps).jobs[id].Resource() == Run(steps).jobs[k].Resource()
    ensures id == k
  {
    RunIsSound(steps);
    assert SameResource(Run(steps), id, k);
  }

  // ---- Overlapping calls ----

  /** The calls in progress for a job. */
  function LiveOf(live: map<nat, Token>, id: string): set<nat> {
    set tok | tok in live && live[tok].jobId == id
  }

  lemma LiveAdded(live: map<nat, Token>, tok: nat, t: Token)
    requires tok !in live
    ensures LiveOf(live[tok := t], t.jobId) == LiveOf(live, t.jobId) + {tok}
    ensures |LiveOf(live[tok := t], t.jobId)| == |LiveOf(live, t.jobId)| + 1
    ensures forall id :: id != t.jobId ==> LiveOf(live[tok := t], id) == LiveOf(live, id)
  {
    assert LiveOf(live[tok := t], t.jobId) == LiveOf(live, t.jobId) + {tok};
  }

  lemma LiveMoved(live: map<nat, Token>, tok: nat, t: Token)
    requires tok in live && live[tok].jobId == t.jobId
    ensures forall id :: LiveOf(live[tok := t], id) == LiveOf(live, id)
  {
  }

  lemma LiveDropped(live: map<nat, Token>, tok: nat)
    requires tok in live
    ensures LiveOf(live - {tok}, live[tok].jobId) == LiveOf(live, live[tok].jobId) - {tok}
    ensures |LiveOf(live - {tok}, live[tok].jobId)| == |LiveOf(live, live[tok].jobId)| - 1
    ensures forall id :: id != live[tok].jobId ==> LiveOf(live - {tok}, id) == LiveOf(live, id)
  {
    assert LiveOf(live - {tok}, live[tok].jobId) == LiveOf(live, live[tok].jobId) - {tok};
  }

  /** The step begins an execution or a retry of the job. */
  predicate Begins(w: World, s: Step, id: string) {
    (s.DoExecute? || s.DoRetry?) && s.id == id && s.token !in w.live && s.token in Apply(w, s).live
  }

  /** It does so while another call of the job is in progress. */
  predicate Overlaps(w: World, s: Step, id: string) {
    Begins(w, s, id) && LiveOf(w.live, id) != {}
  }

  /** Overlapping calls of a job so far. */
  ghost function OverlapsOf(steps: seq<Step>, id: string): nat {
    if steps == [] then 0
    else
      var init := steps[..|steps| - 1];
      OverlapsOf(init, id) + (if Overlaps(Run(init), steps[|steps| - 1], id) then 1 else 0)
  }

  lemma OverlapsExtend(steps: seq<Step>, s: Step, id: string)
    ensures OverlapsOf(steps + [s], id) == OverlapsOf(steps, id) + if Overlaps(Run(steps), s, id) then 1 else 0
  {
    assert (steps + [s])[..|steps|] == steps;
  }

  /** Only a begin can overlap. */
  lemma GoingOnOverlapsNothing(steps: seq<Step>, s: Step, id: string)
    requires !s.DoExecute? && !s.DoRetry?
    ensures OverlapsOf(steps + [s], id) == OverlapsOf(steps, id)
  {
    OverlapsExtend(steps, s, id);
  }

  /** A job with `n` calls in progress after `o` overlapping ones: every call in progress may
      still cost an attempt, and each overlap allows one attempt too many. */
  ghost predicate Charged(job: Job, n: nat, o: nat) {
    && n <= 1 + o
    && job.attempt + n <= job.Budget() + o
    && (job.state != Failed && n == 0 ==> job.attempt < job.Budget() + o)
    && (o == 0 ==> (job.state == Deleted <==> job.evidence.Some? && job.evidence.value.copiesKept == 0))
    && (o == 0 && n > 0 ==> !Closed(job.state))
  }

  /** A call that will not fail the job leaves room for one attempt more. */
  ghost predicate Slack(job: Job, t: Token, n: nat, o: nat) {
    (t.Seen? || t.Started?) && t.attemptBefore + 1 < job.maxAttempts ==> job.attempt + n < job.Budget() + o
  }

  ghost predicate Bounded(w: World, id: string, o: nat) {
    id in w.jobs ==>
      && Charged(w.jobs[id], |LiveOf(w.live, id)|, o)
      && forall tok :: tok in LiveOf(w.live, id) ==> Slack(w.jobs[id], w.live[tok], |LiveOf(w.live, id)|, o)
  }

  lemma BeginKeepsBounded(w: World, s: Step, id: string, o: nat)
    requires Sound(w) && Bounded(w, id, o) && Begins(w, s, id)
    ensures Bounded(Apply(w, s), id, o + if Overlaps(w, s, id) then 1 else 0)
  {
    var v := Apply(w, s);
    assert JobOk(w, id);
    LiveAdded(w.live, s.token, v.live[s.token]);
    var n, job := |LiveOf(w.live, id)|, w.jobs[id];
    assert v.jobs == w.jobs && job.state != Failed;
    assert n == 0 <==> LiveOf(w.live, id) == {};
    forall tok | tok in LiveOf(v.live, id)
      ensures Slack(job, v.live[tok], n + 1, o + if Overlaps(w, s, id) then 1 else 0)
    {
      if tok != s.token {
        assert tok in LiveOf(w.live, id) && Slack(job, w.live[tok], n, o) && v.live[tok] == w.live[tok];
      }
    }
  }

  /** A call of the job moved on, changing at most the state. */
  lemma MoveKeepsBounded(w: World, v: World, tok: nat, id: string, o: nat)
    requires Bounded(w, id, o) && id in w.jobs && id in v.jobs && tok in LiveOf(w.live, id)
    requires tok in v.live && v.live == w.live[tok := v.live[tok]] && v.live[tok].jobId == id
    requires v.jobs[id].state in {Pending, Running, w.jobs[id].state}
    requires v.jobs[id] == w.jobs[id].(state := v.jobs[id].state)
    requires Slack(v.jobs[id], v.live[tok], |LiveOf(w.live, id)|, o)
    ensures Bounded(v, id, o)
  {
    LiveMoved(w.live, tok, v.live[tok]);
    forall k | k in LiveOf(v.live, id)
      ensures Slack(v.jobs[id], v.live[k], |LiveOf(v.live, id)|, o)
    {
      assert k in LiveOf(w.live, id) && Slack(w.jobs[id], w.live[k], |LiveOf(w.live, id)|, o);
    }
  }

  /** A call of the job ended, with or without an answer of its adapter. */
  lemma EndKeepsBounded(w: World, v: World, tok: nat, o: nat, answer: Option<Outcome>)
    requires Sound(w) && tok in w.live && v.live == w.live - {tok}
    requires var id := w.live[tok].jobId;
      && Bounded(w, id, o) && id in w.jobs && id in v.jobs
      && match answer
         case None => v.jobs[id] == w.jobs[id]
         case Some(a) =>
           w.live[tok].Started? && v.jobs[id] == Settled(w.jobs[id], w.live[tok].attemptBefore, a)
    ensures Bounded(v, w.live[tok].jobId, o)
  {
    var id := w.live[tok].jobId;
    var n, job := |LiveOf(w.live, id)|, w.jobs[id];
    LiveDropped(w.live, tok);
    assert JobOk(w, id) && TokenOk(w, tok);
    assert tok in LiveOf(w.live, id) && Slack(job, w.live[tok], n, o);
    forall k | k in LiveOf(v.live, id)
      ensures Slack(v.jobs[id], v.live[k], n - 1, o)
    {
      assert k in LiveOf(w.live, id) && Slack(job, w.live[k], n, o) && v.live[k] == w.live[k];
    }
  }

  /** Nothing happened to the job or its calls. */
  lemma UntouchedKeepsBounded(w: World, v: World, id: string, o: nat)
    requires Bounded(w, id, o) && id in w.jobs && id in v.jobs && v.jobs[id] == w.jobs[id]
    requires LiveOf(v.live, id) == LiveOf(w.live, id)
    requires forall tok :: tok in LiveOf(w.live, id) ==> v.live[tok] == w.live[tok]
    ensures Bounded(v, id, o)
  {
    forall tok | tok in LiveOf(v.live, id)
      ensures Slack(v.jobs[id], v.live[tok], |LiveOf(v.live, id)|, o)
    {
      assert Slack(w.jobs[id], w.live[tok], |LiveOf(w.live, id)|, o);
    }
  }

  /** The call a step belongs to, if it goes on with one. */
  predicate GoesOn(w: World, s: Step) {
    (s.DoMark? || s.DoFinish? || s.DoReopen? || s.DoRead? || s.DoAbandon?) && s.token in w.live
  }

  /** A step that goes on with a call of another job touches neither the job nor its calls. */
  lemma OthersCallFrame(w: World, s: Step, id: string)
    requires GoesOn(w, s) && id in w.jobs && w.live[s.token].jobId != id
    ensures var v := Apply(w, s);
      && id in v.jobs && v.jobs[id] == w.jobs[id]
      && (forall tok :: tok != s.token ==> SameToken(w, v, tok))
      && (s.token in v.live ==> v.live[s.token].jobId == w.live[s.token].jobId)
  {
  }

  lemma OthersCallKeepsBounded(w: World, s: Step, id: string, o: nat)
    requires Bounded(w, id, o) && id in w.jobs && GoesOn(w, s) && w.live[s.token].jobId != id
    ensures Bounded(Apply(w, s), id, o)
  {
    var v := Apply(w, s);
    OthersCallFrame(w, s, id);
    forall tok
      ensures tok in LiveOf(v.live, id) <==> tok in LiveOf(w.live, id)
      ensures tok in LiveOf(w.live, id) ==> v.live[tok] == w.live[tok]
    {
      if tok != s.token {
        assert SameToken(w, v, tok);
      }
    }
    assert LiveOf(v.live, id) == LiveOf(w.live, id);
    UntouchedKeepsBounded(w, v, id, o);
  }

  lemma OwnCallKeepsBounded(w: World, s: Step, o: nat)
    requires Sound(w) && GoesOn(w, s) && Bounded(w, w.live[s.token].jobId, o)
    ensures Bounded(Apply(w, s), w.live[s.token].jobId, o)
  {
    var v, t := Apply(w, s), w.live[s.token];
    assert TokenOk(w, s.token);
    assert s.token in LiveOf(w.live, t.jobId) && Slack(w.jobs[t.jobId], t, |LiveOf(w.live, t.jobId)|, o);
    if v == w {
    } else if s.token in v.live {
      MoveKeepsBounded(w, v, s.token, t.jobId, o);
    } else {
      EndKeepsBounded(w, v, s.token, o, if s.DoFinish? then Some(s.outcome) else None);
    }
  }

  lemma NewJobIsBounded(w: World, v: World, id: string, o: nat)
    requires Sound(w) && id !in w.jobs && v.live == w.live
    requires id in v.jobs ==> v.jobs[id].state == Pending && v.jobs[id].attempt == 0 && v.jobs[id].evidence == None
    ensures Bounded(v, id, o)
  {
    forall tok
      ensures tok !in LiveOf(w.live, id)
    {
      assert TokenOk(w, tok);
    }
    assert LiveOf(v.live, id) == {};
  }

  lemma StepKeepsBounded(w: World, s: Step, id: string, o: nat)
    requires Sound(w) && Bounded(w, id, o)
    ensures Bounded(Apply(w, s), id, o + if Overlaps(w, s, id) then 1 else 0)
  {
    if Begins(w, s, id) {
      BeginKeepsBounded(w, s, id, o);
    } else if GoesOn(w, s) {
      assert TokenOk(w, s.token);
      if w.live[s.token].jobId == id {
        OwnCallKeepsBounded(w, s, o);
      } else if id in w.jobs {
        OthersCallKeepsBounded(w, s, id, o);
      }
    } else {
      OtherStepKeepsBounded(w, s, id, o);
    }
  }

  /** A step that neither begins a call of the job nor goes on with one. */
  lemma OtherStepKeepsBounded(w: World, s: Step, id: string, o: nat)
    requires Sound(w) && Bounded(w, id, o) && !Begins(w, s, id) && !GoesOn(w, s)
    ensures Bounded(Apply(w, s), id, o)
  {
    var v := Apply(w, s);
    if id !in w.jobs {
      if s.DoDelete? || s.DoCreate? {
        NewJobIsBounded(w, v, id, o);
      }
    } else {
      OtherStepFrame(w, s, id);
      forall tok
        ensures tok in LiveOf(v.live, id) <==> tok in LiveOf(w.live, id)
        ensures tok in LiveOf(w.live, id) ==> v.live[tok] == w.live[tok]
      {
        assert OthersToken(w, v, tok, id);
      }
      assert LiveOf(v.live, id) == LiveOf(w.live, id);
      UntouchedKeepsBounded(w, v, id, o);
    }
  }

  /** The call is as it was, or it is a new one of another job. */
  ghost predicate OthersToken(w: World, v: World, tok: nat, id: string) {
    SameToken(w, v, tok) || (tok !in w.live && tok in v.live && v.live[tok].jobId != id)
  }

  lemma OtherStepFrame(w: World, s: Step, id: string)
    requires id in w.jobs && !Begins(w, s, id) && !GoesOn(w, s)
    ensures var v := Apply(w, s);
      && id in v.jobs && v.jobs[id] == w.jobs[id]
      && forall tok :: OthersToken(w, v, tok, id)
  {
  }

  lemma {:induction false} RunIsBounded(steps: seq<Step>, id: string)
    ensures Bounded(Run(steps), id, OverlapsOf(steps, id))
  {
    if steps != [] {
      var init := steps[..|steps| - 1];
      RunIsBounded(init, id);
      RunIsSound(init);
      StepKeepsBounded(Run(init), steps[|steps| - 1], id, OverlapsOf(init, id));
    }
  }

  // ---- Retry budget and evidence ----

  /** On every interleaving the attempts of a job are its raised adapter runs and exceed the
      budget by at most the number of overlapping calls; a failed job has used up its budget
      and a deleted one keeps no copy. */
  lemma OvershootIsBounded(steps: seq<Step>, id: string)
    ensures id in Run(steps).jobs ==>
      var job := Run(steps).jobs[id];
      && job.attempt == RaisedRuns(Run(steps).runs, id) <= job.Budget() + OverlapsOf(steps, id)
      && (job.state == Failed ==> job.attempt >= job.Budget())
      && (job.state == Deleted ==> job.evidence.Some? && job.evidence.value.copiesKept == 0)
      && job.state != Held
  {
    RunIsSound(steps);
    RunIsBounded(steps, id);
    assert JobOk(Run(steps), id);
  }

  /** What a job promises as long as its calls do not overlap. */
  ghost predicate Accounted(w: World, id: string) {
    id in w.jobs ==>
      var job := w.jobs[id];
      && job.attempt == RaisedRuns(w.runs, id) <= job.Budget()
      && (job.state == Failed <==> job.attempt == job.Budget())
      && (job.state == Deleted <==> job.evidence.Some? && job.evidence.value.copiesKept == 0)
      && job.state != Held
      && (job.state == Failed ==> RetryVerdict(w, id) == Some(BudgetExhausted))
  }

  /** Without overlapping calls the attempts never exceed the budget and reach it exactly when
      the job failed, a job is deleted exactly when its evidence keeps no copy, and a failed
      job is never retried. */
  lemma BudgetAndEvidence(steps: seq<Step>, id: string)
    ensures OverlapsOf(steps, id) == 0 ==> Accounted(Run(steps), id)
  {
    RunIsSound(steps);
    RunIsBounded(steps, id);
    assert JobOk(Run(steps), id);
  }

  /** Adapter runs of one job, in order. */
  ghost function RunsOf(runs: seq<AdapterRun>, id: string): seq<AdapterRun> {
    if runs == [] then []
    else
      var r := runs[|runs| - 1];
      RunsOf(runs[..|runs| - 1], id) + (if r.jobId == id then [r] else [])
  }

  /** A closed job on which no call is in progress. */
  lemma StepOnClosed(w: World, s: Step, id: string)
    requires Sound(w) && id in w.jobs && Closed(w.jobs[id].state) && LiveOf(w.live, id) == {}
    ensures var v := Apply(w, s);
      id in v.jobs && v.jobs[id] == w.jobs[id] && RunsOf(v.runs, id) == RunsOf(w.runs, id)
  {
    if GoesOn(w, s) {
      assert s.token !in LiveOf(w.live, id);
      OthersCallOnClosed(w, s, id);
    }
  }

  lemma OthersCallOnClosed(w: World, s: Step, id: string)
    requires id in w.jobs && GoesOn(w, s) && w.live[s.token].jobId != id
    ensures var v := Apply(w, s);
      id in v.jobs && v.jobs[id] == w.jobs[id] && RunsOf(v.runs, id) == RunsOf(w.runs, id)
  {
    var v := Apply(w, s);
    if v.runs != w.runs {
      assert v.runs[..|v.runs| - 1] == w.runs;
    }
  }

  lemma OverlapsGrow(steps: seq<Step>, id: string)
    requires steps != []
    ensures OverlapsOf(steps[..|steps| - 1], id) <= OverlapsOf(steps, id)
  {
  }

  /** Without overlapping calls nothing changes a job once it is deleted or failed, and its
      adapter never runs again. */
  lemma {:induction false} ClosedJobsRest(steps: seq<Step>, k: nat, id: string)
    requires k <= |steps| && id in Run(steps[..k]).jobs && Closed(Run(steps[..k]).jobs[id].state)
    requires OverlapsOf(steps, id) == 0
    ensures id in Run(steps).jobs && Run(steps).jobs[id] == Run(steps[..k]).jobs[id]
    ensures RunsOf(Run(steps).runs, id) == RunsOf(Run(steps[..k]).runs, id)
  {
    if k == |steps| {
      assert steps[..k] == steps;
    } else {
      var init := steps[..|steps| - 1];
      assert init[..k] == steps[..k];
      OverlapsGrow(steps, id);
      ClosedJobsRest(init, k, id);
      RunIsSound(init);
      RunIsBounded(init, id);
      StepOnClosed(Run(init), steps[|steps| - 1], id);
    }
  }
}
