/** The built-in deletion adapters. What the services around them answer is arbitrary; the
    branches that turn those answers into evidence, or into an exception, are the adapters'. */
module DeletionAdapters {
  import opened Prelude
  import opened Deletion

  /** A call that succeeds, that reports failure, or that raises. */
  datatype Reply = Yes | No | Throws

  datatype Lookup = Found | Missing | LookupThrows

  /** The services an adapter may call. A service that is not wired is `None`. `redactions`
      are the redactions of the events that refer to a receipt; `None` means the scan for
      them raises. */
  datatype Services = Services(
    artifactStore: Option<Reply>,
    artifactRows: Option<Reply>,
    receiptLookup: Lookup,
    receiptDelete: Reply,
    redactions: Option<seq<Reply>>,
    eventRedact: Reply,
    webhookDelete: Option<Reply>
  )

  function Throwing(replies: seq<Reply>): nat {
    if replies == [] then 0
    else Throwing(replies[..|replies| - 1]) + (if replies[|replies| - 1] == Throws then 1 else 0)
  }

  /** In-process store first, then the database row. */
  method DeleteArtifact(s: Services) returns (o: Outcome)
    ensures o == AdapterAnswer(Artifact, s)
  {
    var deleted, kept: nat := 0, 0;
    match s.artifactStore {
      case None => kept := kept + 1;
      case Some(Yes) => deleted := deleted + 1;
      case Some(No) => kept := kept + 1;
      case Some(Throws) => kept := kept + 1;
    }
    if s.artifactRows == Some(Throws) {
      kept := kept + 1;
    }
    return Finished(Evidence(deleted, kept));
  }

  /** The lookup is outside every handler. Events that refer to the receipt are redacted
      whether or not the receipt was deleted. */
  method DeleteReceipt(s: Services) returns (o: Outcome)
    ensures o == AdapterAnswer(Receipt, s)
  {
    if s.receiptLookup == LookupThrows {
      return Raised;
    }
    var deleted, kept: nat := 0, 0;
    if s.receiptLookup == Missing {
      kept := kept + 1;
    } else {
      match s.receiptDelete {
        case Yes => deleted := deleted + 1;
        case No => kept := kept + 1;
        case Throws => kept := kept + 1;
      }
    }
    if s.redactions.Some? {
      var replies := s.redactions.value;
      ghost var before := kept;
      for i := 0 to |replies|
        invariant kept == before + Throwing(replies[..i])
      {
        assert replies[..i + 1][..i] == replies[..i];
        if replies[i] == Throws {
          kept := kept + 1;
        }
      }
      assert replies[..|replies|] == replies;
    } else {
      kept := kept + 1;
    }
    return Finished(Evidence(deleted, kept));
  }

  method DeleteEventPayload(s: Services) returns (o: Outcome)
    ensures o == AdapterAnswer(Event, s)
  {
    if s.eventRedact == Yes {
      return Finished(Evidence(1, 0));
    }
    return Finished(Evidence(0, 1));
  }

  method DeleteWebhookDelivery(s: Services) returns (o: Outcome)
    ensures o == AdapterAnswer(Webhook, s)
  {
    if s.webhookDelete.None? {
      return Finished(Evidence(0, 1));
    }
    var kept: nat := 0;
    match s.webhookDelete.value {
      case Yes => return Finished(Evidence(1, 0));
      case No => kept := kept + 1;
      case Throws => kept := kept + 1;
    }
    return Finished(Evidence(if kept > 0 then 0 else 1, kept));
  }

  /** The dispatch over resource kinds; cache entries and backups have no real adapter. */
  method RunDeleter(kind: ResourceKind, s: Services) returns (o: Outcome)
    ensures o == AdapterAnswer(kind, s)
  {
    match kind {
      case Artifact => o := DeleteArtifact(s);
      case Receipt => o := DeleteReceipt(s);
      case Event => o := DeleteEventPayload(s);
      case Webhook => o := DeleteWebhookDelivery(s);
      case Cache => o := Finished(Evidence(0, 0));
      case Backup => o := Finished(Evidence(0, 1));
    }
  }

  function Copies(r: Option<Reply>): Evidence {
    if r == Some(Yes) then Evidence(1, 0) else Evidence(0, 1)
  }

  function AdapterAnswer(kind: ResourceKind, s: Services): Outcome {
    match kind
    case Artifact =>
      var e := Copies(s.artifactStore);
      Finished(e.(copiesKept := e.copiesKept + if s.artifactRows == Some(Throws) then 1 else 0))
    case Receipt =>
      if s.receiptLookup == LookupThrows then Raised
      else
        var e := Copies(if s.receiptLookup == Found then Some(s.receiptDelete) else None);
        Finished(e.(copiesKept := e.copiesKept + if s.redactions.Some? then Throwing(s.redactions.value) else 1))
    case Event => Finished(Copies(Some(s.eventRedact)))
    case Webhook => Finished(Copies(s.webhookDelete))
    case Cache => Finished(Evidence(0, 0))
    case Backup => Finished(Evidence(0, 1))
  }

  // ---- What an answer says about the services ----

  lemma {:induction false} ThrowingCounts(replies: seq<Reply>)
    ensures Throwing(replies) == multiset(replies)[Throws]
    ensures Throwing(replies) == 0 <==> Throws !in replies
  {
    if replies != [] {
      var init, last := replies[..|replies| - 1], replies[|replies| - 1];
      assert replies == init + [last];
      ThrowingCounts(init);
    }
  }

  /** The service that holds the resource itself confirmed its deletion. */
  predicate Confirmed(kind: ResourceKind, s: Services) {
    match kind
    case Artifact => s.artifactStore == Some(Yes)
    case Receipt => s.receiptLookup == Found && s.receiptDelete == Yes
    case Event => s.eventRedact == Yes
    case Webhook => s.webhookDelete == Some(Yes)
    case Cache => false
    case Backup => false
  }

  /** An adapter counts a copy as deleted only if that service confirmed it, keeps none only if
      no other service raised either, and raises only when the lookup of a receipt does. */
  lemma AnswerReflectsServices(kind: ResourceKind, s: Services)
    ensures match AdapterAnswer(kind, s)
      case Died => false
      case Raised => kind == Receipt && s.receiptLookup == LookupThrows
      case Finished(e) =>
        && !(kind == Receipt && s.receiptLookup == LookupThrows)
        && e.copiesDeleted == (if Confirmed(kind, s) then 1 else 0)
        && (e.copiesKept == 0 <==>
              || kind == Cache
              || (&& Confirmed(kind, s)
                  && (kind == Artifact ==> s.artifactRows != Some(Throws))
                  && (kind == Receipt ==> s.redactions.Some? && Throws !in s.redactions.value)))
        && (kind == Receipt && s.redactions.Some? ==>
              e.copiesKept == (if Confirmed(kind, s) then 0 else 1) + multiset(s.redactions.value)[Throws])
  {
    if s.redactions.Some? {
      ThrowingCounts(s.redactions.value);
    }
  }

  // ---- What the adapters can answer ----

  function AllThrow(n: nat): seq<Reply>
    ensures Throwing(AllThrow(n)) == n
  {
    if n == 0 then []
    else
      var s := AllThrow(n - 1) + [Throws];
      assert s[..|s| - 1] == AllThrow(n - 1);
      s
  }

  /** The answers of each adapter: at most one copy is deleted, and only a receipt adapter can
      keep arbitrarily many or raise. */
  ghost predicate MayAnswer(kind: ResourceKind, o: Outcome) {
    match o
    case Died => false
    case Raised => kind == Receipt
    case Finished(e) =>
      match kind
      case Artifact => e.copiesDeleted <= 1 && 1 <= e.copiesDeleted + e.copiesKept <= 2
      case Receipt => e.copiesDeleted <= 1 && 1 <= e.copiesDeleted + e.copiesKept
      case Event => e.copiesDeleted <= 1 && e.copiesDeleted + e.copiesKept == 1
      case Webhook => e.copiesDeleted <= 1 && e.copiesDeleted + e.copiesKept == 1
      case Cache => e == Evidence(0, 0)
      case Backup => e == Evidence(0, 1)
  }

  /** Services that make the adapter give answer `o`. */
  function ServicesFor(o: Outcome): Services {
    var gone := o.Finished? && o.evidence.copiesDeleted == 1;
    var extra := if !o.Finished? || o.evidence.copiesKept == 0 then 0
                 else if gone then o.evidence.copiesKept else o.evidence.copiesKept - 1;
    var reply := if gone then Yes else No;
    Services(Some(reply), if extra > 0 then Some(Throws) else None,
             if o.Raised? then LookupThrows else Found, reply, Some(AllThrow(extra)), reply, Some(reply))
  }

  lemma AdapterAnswers(kind: ResourceKind, o: Outcome)
    ensures (exists s :: AdapterAnswer(kind, s) == o) <==> MayAnswer(kind, o)
  {
    forall s | AdapterAnswer(kind, s) == o
      ensures MayAnswer(kind, o)
    {
      AnswerIsAllowed(kind, s);
    }
    if MayAnswer(kind, o) {
      AnswerIsPossible(kind, o);
    }
  }

  lemma AnswerIsAllowed(kind: ResourceKind, s: Services)
    ensures MayAnswer(kind, AdapterAnswer(kind, s))
  {
  }

  lemma AnswerIsPossible(kind: ResourceKind, o: Outcome)
    requires MayAnswer(kind, o)
    ensures AdapterAnswer(kind, ServicesFor(o)) == o
  {
  }

  /** Every ended run died or gave an answer of its built-in adapter. */
  ghost predicate BuiltIn(w: World) {
    forall i :: 0 <= i < |w.runs| && w.runs[i].jobId in w.jobs && w.runs[i].outcome != Died ==>
      exists s :: AdapterAnswer(w.jobs[w.runs[i].jobId].kind, s) == w.runs[i].outcome
  }

  /** With the built-in adapters only receipt jobs use up attempts or fail, on every
      interleaving. */
  lemma OnlyReceiptsFail(steps: seq<Step>, id: string)
    requires BuiltIn(Run(steps)) && id in Run(steps).jobs && Run(steps).jobs[id].kind != Receipt
    ensures Run(steps).jobs[id].attempt == 0 && Run(steps).jobs[id].state != Failed
  {
    RunIsSound(steps);
    var w := Run(steps);
    assert JobOk(w, id);
    NoneRaised(w.runs, id);
  }

  lemma {:induction false} NoneRaised(runs: seq<AdapterRun>, id: string)
    requires forall i :: 0 <= i < |runs| ==> runs[i] != AdapterRun(id, Raised)
    ensures RaisedRuns(runs, id) == 0
  {
    if runs != [] {
      NoneRaised(runs[..|runs| - 1], id);
    }
  }

  // ---- Where the stored evidence comes from ----

  /** The stored evidence is the one an ended run of the job left. */
  ghost predicate EvidenceBacked(w: World, id: string) {
    id in w.jobs && w.jobs[id].evidence.Some? ==>
      exists r :: r in w.runs && LeftEvidence(r, id, w.jobs[id].evidence.value)
  }

  ghost predicate LeftEvidence(r: AdapterRun, id: string, e: Evidence) {
    r.jobId == id && (r.outcome == Finished(e) || (r.outcome == Raised && e == Evidence(0, 1)))
  }

  lemma StepKeepsBacked(w: World, s: Step, id: string)
    requires EvidenceBacked(w, id)
    ensures EvidenceBacked(Apply(w, s), id)
  {
    var v := Apply(w, s);
    if id in v.jobs && v.jobs[id].evidence.Some? {
      if id in w.jobs && v.jobs[id].evidence == w.jobs[id].evidence {
        var r :| r in w.runs && LeftEvidence(r, id, w.jobs[id].evidence.value);
        assert r in v.runs;
      } else {
        assert LeftEvidence(v.runs[|v.runs| - 1], id, v.jobs[id].evidence.value);
      }
    }
  }

  lemma {:induction false} EvidenceIsBacked(steps: seq<Step>, id: string)
    ensures EvidenceBacked(Run(steps), id)
  {
    if steps != [] {
      EvidenceIsBacked(steps[..|steps| - 1], id);
      StepKeepsBacked(Run(steps[..|steps| - 1]), steps[|steps| - 1], id);
    }
  }

  /** A backup is never reported deleted, whatever calls are made. */
  lemma BackupsAreNeverDeleted(steps: seq<Step>, id: string)
    requires BuiltIn(Run(steps)) && id in Run(steps).jobs && Run(steps).jobs[id].kind == Backup
    ensures Run(steps).jobs[id].state != Deleted
  {
    var w := Run(steps);
    RunIsSound(steps);
    EvidenceIsBacked(steps, id);
    assert JobOk(w, id);
  }
}
