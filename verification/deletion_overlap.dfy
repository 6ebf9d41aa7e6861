/** What overlapping calls of one deletion job can break: the exact condition under which a
    new call is safe, and runs that attain the bound on the overshoot. */
module DeletionOverlap {
  import opened Prelude
  import opened Deletion

  // ---- Going on with a call ----

  ghost function Rank(t: Token): nat {
    match t
    case Checked(_) => 0
    case Reopened(_) => 1
    case Seen(_, _) => 2
    case Started(_, _) => 3
  }

  ghost function NextStep(t: Token, tok: nat): Step {
    match t
    case Checked(_) => DoReopen(tok)
    case Reopened(_) => DoRead(tok)
    case Seen(_, _) => DoMark(tok)
    case Started(_, _) => DoFinish(tok, Died)
  }

  /** No execution and no retry of the job begins. */
  ghost predicate NoBegins(steps: seq<Step>, id: string) {
    forall i :: 0 <= i < |steps| && (steps[i].DoExecute? || steps[i].DoRetry?) ==> steps[i].id != id
  }

  /** An open job, with `tok` as far as rank `k` and every other call as in `w`. */
  ghost predicate Reached(w: World, v: World, id: string, tok: nat, k: nat) {
    && IsOpen(v, id) && v.live.Keys == w.live.Keys && tok in v.live
    && v.live[tok].jobId == id && Rank(v.live[tok]) == k
    && forall p :: p in w.live && p != tok ==> v.live[p] == w.live[p]
  }

  lemma OneMore(w: World, id: string, tok: nat)
    requires tok in w.live && w.live[tok].jobId == id && IsOpen(w, id) && Rank(w.live[tok]) < 3
    ensures Reached(w, Apply(w, NextStep(w.live[tok], tok)), id, tok, Rank(w.live[tok]) + 1)
  {
  }

  /** As long as the job is open, every call on it can be brought to any later phase. */
  lemma {:induction false} Drive(w: World, id: string, tok: nat, k: nat) returns (more: seq<Step>)
    requires tok in w.live && w.live[tok].jobId == id && IsOpen(w, id)
    requires Rank(w.live[tok]) <= k <= 3
    ensures NoBegins(more, id) && Reached(w, RunFrom(w, more), id, tok, k)
    decreases k - Rank(w.live[tok])
  {
    if Rank(w.live[tok]) == k {
      more := [];
    } else {
      var s := NextStep(w.live[tok], tok);
      OneMore(w, id, tok);
      var rest := Drive(Apply(w, s), id, tok, k);
      more := [s] + rest;
      RunSplits(w, [s], rest);
      assert RunFrom(w, [s]) == Apply(RunFrom(w, [s][..0]), s);
    }
  }

  // ---- A begin is safe exactly when no other call is in progress ----

  /** After `more`, whatever was closed on the way rests, and the job is accounted for. */
  ghost predicate StaysSound(steps: seq<Step>, more: seq<Step>, id: string) {
    && Accounted(Run(steps + more), id)
    && forall k :: 0 <= k <= |more| ==> Rests(Run(steps + more[..k]), Run(steps + more), id)
  }

  ghost predicate Rests(w: World, v: World, id: string) {
    id in w.jobs && Closed(w.jobs[id].state) ==> id in v.jobs && v.jobs[id] == w.jobs[id]
  }

  /** With two calls in progress on an open job one of them can delete the resource while the
      other still holds an open row, and then takes the job back to running. */
  lemma TwoCallsBreak(w: World, id: string, a: nat, b: nat) returns (more: seq<Step>, k: nat)
    requires Sound(w) && IsOpen(w, id) && a != b
    requires a in w.live && b in w.live && w.live[a].jobId == w.live[b].jobId == id
    requires Rank(w.live[b]) <= 2
    ensures NoBegins(more, id) && k <= |more|
    ensures !Rests(RunFrom(w, more[..k]), RunFrom(w, more), id) && !Accounted(RunFrom(w, more), id)
  {
    var head := BothArrive(w, id, a, b);
    var done, mark := DoFinish(a, Finished(Evidence(1, 0))), DoMark(b);
    RunExtends(w, head, done);
    RunExtends(w, head + [done], mark);
    more, k := head + [done] + [mark], |head| + 1;
    assert more[..k] == head + [done];
    DeleteThenMark(RunFrom(w, head), id, a, b);
  }

  /** One call is brought to its adapter, the other to the point where it has read the row. */
  lemma BothArrive(w: World, id: string, a: nat, b: nat) returns (head: seq<Step>)
    requires IsOpen(w, id) && a != b && a in w.live && b in w.live
    requires w.live[a].jobId == w.live[b].jobId == id && Rank(w.live[b]) <= 2
    ensures NoBegins(head, id)
    ensures var v := RunFrom(w, head);
      && IsOpen(v, id) && a in v.live && b in v.live
      && v.live[a].Started? && v.live[b].Seen? && v.live[a].jobId == v.live[b].jobId == id
  {
    var first := Drive(w, id, a, 3);
    var w1 := RunFrom(w, first);
    var second := Drive(w1, id, b, 2);
    RunSplits(w, first, second);
    head := first + second;
  }

  /** The two last steps, on a world in which both calls got that far. */
  lemma DeleteThenMark(w: World, id: string, a: nat, b: nat)
    requires IsOpen(w, id) && a != b && a in w.live && b in w.live
    requires w.live[a].Started? && w.live[b].Seen? && w.live[a].jobId == w.live[b].jobId == id
    ensures var deleted := FinishRun(w, a, Finished(Evidence(1, 0)));
      !Rests(deleted, MarkRunning(deleted, b), id) && !Accounted(MarkRunning(deleted, b), id)
  {
    var deleted := FinishRun(w, a, Finished(Evidence(1, 0)));
    assert deleted.jobs[id].state == Deleted && deleted.jobs[id].evidence == Some(Evidence(1, 0));
    assert b in deleted.live && deleted.live[b] == w.live[b];
    assert MarkRunning(deleted, b).jobs[id] == deleted.jobs[id].(state := Running);
  }

  /** After a run without overlapping calls, beginning one more is safe, whatever the calls in
      progress do from then on, if and only if no other call of the job is in progress. */
  lemma BeginIsSafeIffAlone(steps: seq<Step>, s: Step, id: string)
    requires OverlapsOf(steps, id) == 0 && Begins(Run(steps), s, id)
    ensures (forall more :: NoBegins(more, id) ==> StaysSound(steps + [s], more, id)) <==>
      LiveOf(Run(steps).live, id) == {}
  {
    var w := Run(steps);
    RunExtends(EMPTY, steps, s);
    assert (steps + [s])[..|steps|] == steps;
    if LiveOf(w.live, id) == {} {
      forall more | NoBegins(more, id)
        ensures StaysSound(steps + [s], more, id)
      {
        AloneStaysSound(steps + [s], more, id);
      }
    } else {
      var a :| a in LiveOf(w.live, id);
      RunIsSound(steps);
      RunIsSound(steps + [s]);
      assert JobOk(w, id);
      OverlapBreaks(steps + [s], id, a, s.token);
    }
  }

  lemma OverlapBreaks(steps: seq<Step>, id: string, a: nat, b: nat)
    requires Sound(Run(steps)) && IsOpen(Run(steps), id) && a != b
    requires a in Run(steps).live && b in Run(steps).live
    requires Run(steps).live[a].jobId == Run(steps).live[b].jobId == id && Rank(Run(steps).live[b]) <= 2
    ensures exists more :: NoBegins(more, id) && !StaysSound(steps, more, id)
  {
    var more, k := TwoCallsBreak(Run(steps), id, a, b);
    RunSplits(EMPTY, steps, more);
    RunSplits(EMPTY, steps, more[..k]);
  }

  lemma {:induction false} NoBeginsNoOverlaps(steps: seq<Step>, more: seq<Step>, id: string)
    requires NoBegins(more, id)
    ensures OverlapsOf(steps + more, id) == OverlapsOf(steps, id)
  {
    if more == [] {
      assert steps + more == steps;
    } else {
      var init := more[..|more| - 1];
      assert (steps + more)[..|steps + more| - 1] == steps + init;
      NoBeginsNoOverlaps(steps, init, id);
    }
  }

  lemma AloneStaysSound(steps: seq<Step>, more: seq<Step>, id: string)
    requires OverlapsOf(steps, id) == 0 && NoBegins(more, id)
    ensures StaysSound(steps, more, id)
  {
    AccountedAfter(steps, more, id);
    NoBeginsNoOverlaps(steps, more, id);
    var whole := steps + more;
    forall k | 0 <= k <= |more|
      ensures Rests(Run(steps + more[..k]), Run(whole), id)
    {
      RestsFrom(whole, steps + more[..k], id);
    }
  }

  /** What is closed after a prefix of a run without overlaps rests. */
  lemma RestsFrom(whole: seq<Step>, prefix: seq<Step>, id: string)
    requires OverlapsOf(whole, id) == 0 && prefix <= whole
    ensures Rests(Run(prefix), Run(whole), id)
  {
    assert whole[..|prefix|] == prefix;
    if id in Run(prefix).jobs && Closed(Run(prefix).jobs[id].state) {
      ClosedJobsRest(whole, |prefix|, id);
    }
  }

  lemma AccountedAfter(steps: seq<Step>, more: seq<Step>, id: string)
    requires OverlapsOf(steps, id) == 0 && NoBegins(more, id)
    ensures Accounted(Run(steps + more), id)
  {
    NoBeginsNoOverlaps(steps, more, id);
    BudgetAndEvidence(steps + more, id);
  }

  // ---- The bound on the overshoot is attained ----

  const JOB := "job"

  /** One job with a budget of one attempt, and `n` executions that all read it open. */
  function Opening(n: nat): seq<Step> {
    if n == 0 then [DoCreate(JOB, "tenant", Artifact, "resource", 1)]
    else Opening(n - 1) + [DoExecute(n - 1, JOB)] + [DoMark(n - 1)]
  }

  function StartedUpTo(n: nat): map<nat, Token>
    ensures forall tok :: tok in StartedUpTo(n) ==> tok < n && StartedUpTo(n)[tok] == Started(JOB, 0)
    ensures n > 0 ==> 0 in StartedUpTo(n)
  {
    if n == 0 then map[] else StartedUpTo(n - 1)[n - 1 := Started(JOB, 0)]
  }

  function FailingJob(n: nat, k: nat): Job {
    Job("tenant", Artifact, "resource",
        if k > 0 then Failed else if n > 0 then Running else Pending,
        k, 1, if k > 0 then Some(Evidence(0, 1)) else None)
  }

  /** The world in which `n` executions started, `k` of them failed, and `runs` ended. */
  function FailingWorld(n: nat, k: nat, runs: seq<AdapterRun>): World
    requires k <= n
  {
    World(map[JOB := FailingJob(n, k)], map[], map[], runs, StartedUpTo(n - k))
  }

  lemma OneMoreStarts(n: nat)
    ensures var w := FailingWorld(n, 0, []);
      && Begins(w, DoExecute(n, JOB), JOB) && (Overlaps(w, DoExecute(n, JOB), JOB) <==> n > 0)
      && MarkRunning(BeginExecute(w, n, JOB), n) == FailingWorld(n + 1, 0, [])
  {
    var w := FailingWorld(n, 0, []);
    if n > 0 {
      assert 0 in LiveOf(w.live, JOB);
    } else {
      assert LiveOf(w.live, JOB) == {};
    }
    var v := BeginExecute(w, n, JOB);
    assert v == w.(live := w.live[n := Seen(JOB, 0)]);
    assert MarkRunning(v, n).jobs == map[JOB := FailingJob(n + 1, 0)];
    assert MarkRunning(v, n).live == StartedUpTo(n + 1);
  }

  lemma OneMoreFails(n: nat, k: nat, runs: seq<AdapterRun>)
    requires k < n
    ensures FinishRun(FailingWorld(n, k, runs), n - k - 1, Raised)
         == FailingWorld(n, k + 1, runs + [AdapterRun(JOB, Raised)])
  {
    var w, tok := FailingWorld(n, k, runs), n - k - 1;
    var v := FinishRun(w, tok, Raised);
    assert w.live[tok] == Started(JOB, 0) && w.live - {tok} == StartedUpTo(tok);
    assert v.jobs == map[JOB := FailingJob(n, k + 1)];
  }

  lemma FirstCreated()
    ensures Run(Opening(0)) == FailingWorld(0, 0, []) && OverlapsOf(Opening(0), JOB) == 0
  {
    var create := DoCreate(JOB, "tenant", Artifact, "resource", 1);
    RunExtends(EMPTY, [], create);
    OverlapsExtend([], create, JOB);
    assert [] + [create] == Opening(0);
  }

  lemma {:induction false} AfterOpening(n: nat)
    ensures Run(Opening(n)) == FailingWorld(n, 0, [])
    ensures OverlapsOf(Opening(n), JOB) == if n == 0 then 0 else n - 1
  {
    if n == 0 {
      FirstCreated();
    } else {
      AfterOpening(n - 1);
      OpeningExtends(Opening(n - 1), n - 1);
    }
  }

  lemma OpeningExtends(before: seq<Step>, n: nat)
    requires Run(before) == FailingWorld(n, 0, [])
    ensures var more := before + [DoExecute(n, JOB)] + [DoMark(n)];
      && Run(more) == FailingWorld(n + 1, 0, [])
      && OverlapsOf(more, JOB) == OverlapsOf(before, JOB) + if n > 0 then 1 else 0
  {
    var begin, mark := DoExecute(n, JOB), DoMark(n);
    RunExtends(EMPTY, before, begin);
    RunExtends(EMPTY, before + [begin], mark);
    OneMoreStarts(n);
    OverlapsExtend(before, begin, JOB);
    GoingOnOverlapsNothing(before + [begin], mark, JOB);
  }

  function FailedRuns(k: nat): seq<AdapterRun> {
    if k == 0 then [] else FailedRuns(k - 1) + [AdapterRun(JOB, Raised)]
  }

  /** A run in which `n` executions start and then `k` of them fail, the latest ones first. */
  lemma {:induction false} FailingRun(n: nat, k: nat) returns (steps: seq<Step>)
    requires k <= n
    ensures FailingReached(steps, n, k)
  {
    if k == 0 {
      AfterOpening(n);
      steps := Opening(n);
    } else {
      var before := FailingRun(n, k - 1);
      FailingTurn(before, n, k - 1, n - k);
      steps := before + [DoFinish(n - k, Raised)];
    }
  }

  ghost predicate FailingReached(steps: seq<Step>, n: nat, k: nat)
    requires k <= n
  {
    Run(steps) == FailingWorld(n, k, FailedRuns(k)) && OverlapsOf(steps, JOB) == if n == 0 then 0 else n - 1
  }

  lemma FailingTurn(before: seq<Step>, n: nat, k: nat, tok: nat)
    requires k < n && tok == n - k - 1 && FailingReached(before, n, k)
    ensures FailingReached(before + [DoFinish(tok, Raised)], n, k + 1)
  {
    FinishExtends(before, tok, Raised);
    OneMoreFails(n, k, FailedRuns(k));
  }

  lemma FinishExtends(before: seq<Step>, tok: nat, o: Outcome)
    ensures Run(before + [DoFinish(tok, o)]) == FinishRun(Run(before), tok, o)
    ensures OverlapsOf(before + [DoFinish(tok, o)], JOB) == OverlapsOf(before, JOB)
  {
    RunExtends(EMPTY, before, DoFinish(tok, o));
    GoingOnOverlapsNothing(before, DoFinish(tok, o), JOB);
  }

  /** For every number of overlapping calls some run exceeds the budget by exactly that many
      attempts. */
  lemma OvershootIsAttained(overlaps: nat)
    ensures exists steps :: OverlapsOf(steps, JOB) == overlaps && OvershotBy(Run(steps), JOB, overlaps)
  {
    AfterOpening(overlaps + 1);
    var steps := FailingRun(overlaps + 1, overlaps + 1);
    assert OverlapsOf(steps, JOB) == overlaps && OvershotBy(Run(steps), JOB, overlaps);
  }

  ghost predicate OvershotBy(w: World, id: string, k: nat) {
    id in w.jobs && w.jobs[id].attempt == w.jobs[id].Budget() + k
  }

  /** A slower failing execution turns a deleted job into a failed one that claims a kept copy. */
  lemma DeletedJobReturns()
    ensures var deleted := Opening(2) + [DoFinish(0, Finished(Evidence(1, 0)))];
      var returned := deleted + [DoFinish(1, Raised)];
      && JobIs(Run(deleted), JOB, Deleted, Evidence(1, 0))
      && JobIs(Run(returned), JOB, Failed, Evidence(0, 1))
  {
    AfterOpening(2);
    var success, failure := DoFinish(0, Finished(Evidence(1, 0))), DoFinish(1, Raised);
    RunExtends(EMPTY, Opening(2), success);
    RunExtends(EMPTY, Opening(2) + [success], failure);
  }

  ghost predicate JobIs(w: World, id: string, state: JobState, e: Evidence) {
    id in w.jobs && w.jobs[id].state == state && w.jobs[id].evidence == Some(e)
  }
}
