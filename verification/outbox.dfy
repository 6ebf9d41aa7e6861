/** Transactional outbox and its dispatcher. A sink accepts or raises at each call; the
    pattern of failures is arbitrary. */
module OutboxDispatch {
  import opened Prelude

  type Event = string

  datatype Entry = Entry(id: string, event: Event, attempts: nat, delivered: bool, lastError: Option<string>)

  /** One call of the sink. */
  datatype SinkCall = SinkCall(id: string, event: Event, accepted: bool)

  /** `failures[k]` tells whether the k-th sink call of a flush raises, and with what;
      calls beyond the pattern are accepted. */
  type Failures = seq<Option<string>>

  datatype World = World(entries: seq<Entry>, calls: seq<SinkCall>)

  const EMPTY := World([], [])

  ghost predicate DistinctIds(entries: seq<Entry>) {
    forall i, j :: 0 <= i < j < |entries| ==> entries[i].id != entries[j].id
  }

  function FailureAt(failures: Failures, k: nat): Option<string> {
    if k < |failures| then failures[k] else None
  }

  /** Undelivered entries, in enqueue order. */
  function Pending(entries: seq<Entry>): seq<Entry> {
    if entries == [] then []
    else
      var e := entries[|entries| - 1];
      Pending(entries[..|entries| - 1]) + (if e.delivered then [] else [e])
  }

  /** An entry after a sink call. */
  function Marked(e: Entry, error: Option<string>): Entry {
    if error.None? then e.(delivered := true, attempts := e.attempts + 1)
    else e.(attempts := e.attempts + 1, lastError := error)
  }

  // ---- What a flush does, entry by entry ----

  /** The entries after the first `k` pending ones were offered to the sink. */
  function FlushedUpTo(entries: seq<Entry>, failures: Failures, k: nat): seq<Entry> {
    if entries == [] then []
    else
      var init, e := entries[..|entries| - 1], entries[|entries| - 1];
      var n := |Pending(init)|;
      FlushedUpTo(init, failures, k) + [Offered(e, failures, n, k)]
  }

  /** An entry with `n` pending ones before it, after the first `k` pending ones were offered. */
  function Offered(e: Entry, failures: Failures, n: nat, k: nat): Entry {
    if e.delivered || n >= k then e else Marked(e, FailureAt(failures, n))
  }

  /** The sink calls of a flush, in order. */
  function Offers(entries: seq<Entry>, failures: Failures): seq<SinkCall> {
    if entries == [] then []
    else
      var init, e := entries[..|entries| - 1], entries[|entries| - 1];
      Offers(init, failures)
      + (if e.delivered then [] else [SinkCall(e.id, e.event, FailureAt(failures, |Pending(init)|).None?)])
  }

  function Flush(w: World, failures: Failures): World {
    World(FlushedUpTo(w.entries, failures, |Pending(w.entries)|), w.calls + Offers(w.entries, failures))
  }

  function Enqueue(w: World, id: string, event: Event): World {
    w.(entries := w.entries + [Entry(id, event, 0, false, None)])
  }

  datatype Step = DoEnqueue(id: string, event: Event) | DoFlush(failures: Failures)

  predicate HasId(entries: seq<Entry>, id: string) {
    exists i :: 0 <= i < |entries| && entries[i].id == id
  }

  /** Ids are fresh: an id in use is not enqueued again. */
  function Apply(w: World, s: Step): World {
    match s
    case DoEnqueue(id, event) => if HasId(w.entries, id) then w else Enqueue(w, id, event)
    case DoFlush(failures) => Flush(w, failures)
  }

  function Run(steps: seq<Step>): World {
    if steps == [] then EMPTY else Apply(Run(steps[..|steps| - 1]), steps[|steps| - 1])
  }

  // ---- Counting sink calls ----

  ghost function CallsFor(calls: seq<SinkCall>, id: string): nat {
    if calls == [] then 0
    else CallsFor(calls[..|calls| - 1], id) + (if calls[|calls| - 1].id == id then 1 else 0)
  }

  ghost function AcceptedFor(calls: seq<SinkCall>, id: string): nat {
    if calls == [] then 0
    else
      var c := calls[|calls| - 1];
      AcceptedFor(calls[..|calls| - 1], id) + (if c.id == id && c.accepted then 1 else 0)
  }

  lemma {:induction false} CountsAdd(a: seq<SinkCall>, b: seq<SinkCall>, id: string)
    ensures CallsFor(a + b, id) == CallsFor(a, id) + CallsFor(b, id)
    ensures AcceptedFor(a + b, id) == AcceptedFor(a, id) + AcceptedFor(b, id)
  {
    if b == [] {
      assert a + b == a;
    } else {
      assert (a + b)[..|a + b| - 1] == a + b[..|b| - 1];
      CountsAdd(a, b[..|b| - 1], id);
    }
  }

  lemma {:induction false} NoCalls(calls: seq<SinkCall>, id: string)
    requires forall i :: 0 <= i < |calls| ==> calls[i].id != id
    ensures CallsFor(calls, id) == 0 && AcceptedFor(calls, id) == 0
  {
    if calls != [] {
      NoCalls(calls[..|calls| - 1], id);
    }
  }

  /** The j-th call of a flush offers the j-th pending entry. */
  lemma {:induction false} OffersAreOfEntries(entries: seq<Entry>, failures: Failures)
    ensures |Offers(entries, failures)| == |Pending(entries)|
    ensures forall j :: 0 <= j < |Pending(entries)| ==>
      Offers(entries, failures)[j]
      == SinkCall(Pending(entries)[j].id, Pending(entries)[j].event, FailureAt(failures, j).None?)
  {
    if entries != [] {
      OffersAreOfEntries(entries[..|entries| - 1], failures);
    }
  }

  lemma {:induction false} PendingAreEntries(entries: seq<Entry>, j: nat)
    requires j < |Pending(entries)|
    ensures HasId(entries, Pending(entries)[j].id)
  {
    var init, e := entries[..|entries| - 1], entries[|entries| - 1];
    if j < |Pending(init)| {
      PendingAreEntries(init, j);
      var i :| 0 <= i < |init| && init[i].id == Pending(init)[j].id;
      assert entries[i].id == Pending(entries)[j].id;
    } else {
      assert entries[|init|].id == e.id;
    }
  }

  /** What a flush does to one entry: nothing if it was delivered, otherwise one call whose
      outcome it is marked with. */
  ghost predicate EntryFlushed(before: Entry, after: Entry, offers: seq<SinkCall>) {
    && after.id == before.id && after.event == before.event
    && (before.delivered ==>
          after == before && CallsFor(offers, before.id) == 0 && AcceptedFor(offers, before.id) == 0)
    && (!before.delivered ==>
          && after.attempts == before.attempts + 1 && CallsFor(offers, before.id) == 1
          && AcceptedFor(offers, before.id) == (if after.delivered then 1 else 0))
  }

  /** What a flush leaves of one entry, field by field. */
  ghost predicate IsOutcome(before: Entry, after: Entry, error: Option<string>) {
    && after.id == before.id && after.event == before.event && after.attempts == before.attempts + 1
    && after.delivered == error.None?
    && after.lastError == if error.None? then before.lastError else error
  }

  /** The j-th pending entry takes the outcome of the j-th call, its error text included. */
  lemma {:induction false} PendingTakesOutcome(entries: seq<Entry>, failures: Failures, k: nat, i: nat)
    requires i < |entries| && k >= |Pending(entries)| && !entries[i].delivered
    ensures |FlushedUpTo(entries, failures, k)| == |entries|
    ensures |Pending(entries[..i])| < |Pending(entries)| && Pending(entries)[|Pending(entries[..i])|] == entries[i]
    ensures IsOutcome(entries[i], FlushedUpTo(entries, failures, k)[i], FailureAt(failures, |Pending(entries[..i])|))
  {
    var init := entries[..|entries| - 1];
    FlushedLength(entries, failures, k);
    FlushedLength(init, failures, k);
    if i < |init| {
      assert init[..i] == entries[..i];
      PendingTakesOutcome(init, failures, k, i);
    }
  }

  lemma OtherCallsKeepFlushed(before: Entry, after: Entry, offers: seq<SinkCall>, c: SinkCall)
    requires EntryFlushed(before, after, offers) && c.id != before.id
    ensures EntryFlushed(before, after, offers + [c])
  {
    CountsAdd(offers, [c], before.id);
    SingleCall(c, before.id);
  }

  /** The last entry: none of the calls for the entries before it is its own. */
  lemma LastEntryFlushed(entries: seq<Entry>, failures: Failures, k: nat)
    requires DistinctIds(entries) && entries != [] && k >= |Pending(entries)|
    ensures |FlushedUpTo(entries, failures, k)| == |entries|
    ensures EntryFlushed(entries[|entries| - 1], FlushedUpTo(entries, failures, k)[|entries| - 1],
                         Offers(entries, failures))
  {
    var init, last := entries[..|entries| - 1], entries[|entries| - 1];
    var offers := Offers(init, failures);
    FlushedLength(init, failures, k);
    OffersAreOfEntries(init, failures);
    forall j | 0 <= j < |offers|
      ensures offers[j].id != last.id
    {
      PendingAreEntries(init, j);
    }
    NoCalls(offers, last.id);
    if last.delivered {
      assert offers + [] == offers;
    } else {
      var c := SinkCall(last.id, last.event, FailureAt(failures, |Pending(init)|).None?);
      CountsAdd(offers, [c], last.id);
      SingleCall(c, last.id);
    }
  }

  lemma {:induction false} FlushedEntry(entries: seq<Entry>, failures: Failures, k: nat, i: nat)
    requires DistinctIds(entries) && i < |entries| && k >= |Pending(entries)|
    ensures |FlushedUpTo(entries, failures, k)| == |entries|
    ensures EntryFlushed(entries[i], FlushedUpTo(entries, failures, k)[i], Offers(entries, failures))
  {
    var init, last := entries[..|entries| - 1], entries[|entries| - 1];
    FlushedLength(entries, failures, k);
    if i == |init| {
      LastEntryFlushed(entries, failures, k);
    } else {
      FlushedLength(init, failures, k);
      FlushedEntry(init, failures, k, i);
      var offers := Offers(init, failures);
      if last.delivered {
        assert offers + [] == offers;
      } else {
        OtherCallsKeepFlushed(entries[i], FlushedUpTo(init, failures, k)[i], offers,
                              SinkCall(last.id, last.event, FailureAt(failures, |Pending(init)|).None?));
      }
    }
  }

  lemma SingleCall(c: SinkCall, id: string)
    ensures CallsFor([c], id) == (if c.id == id then 1 else 0)
    ensures AcceptedFor([c], id) == (if c.id == id && c.accepted then 1 else 0)
  {
    assert [c][..0] == [];
  }

  lemma {:induction false} FlushedLength(entries: seq<Entry>, failures: Failures, k: nat)
    ensures |FlushedUpTo(entries, failures, k)| == |entries|
  {
    if entries != [] {
      FlushedLength(entries[..|entries| - 1], failures, k);
    }
  }

  // ---- Whole-run conservation ----

  /** An entry is pending, or the sink accepted it exactly once; its attempts are its sink calls. */
  ghost predicate EntryOk(calls: seq<SinkCall>, e: Entry) {
    && e.attempts == CallsFor(calls, e.id)
    && AcceptedFor(calls, e.id) == (if e.delivered then 1 else 0)
  }

  ghost predicate Sound(w: World) {
    && DistinctIds(w.entries)
    && (forall i :: 0 <= i < |w.entries| ==> EntryOk(w.calls, w.entries[i]))
    && forall i :: 0 <= i < |w.calls| ==> HasId(w.entries, w.calls[i].id)
  }

  lemma EnqueueKeepsSound(w: World, id: string, event: Event)
    requires Sound(w) && !HasId(w.entries, id)
    ensures Sound(Enqueue(w, id, event))
  {
    var v := Enqueue(w, id, event);
    forall i | 0 <= i < |w.calls|
      ensures w.calls[i].id != id && HasId(v.entries, w.calls[i].id)
    {
      assert HasId(w.entries, w.calls[i].id);
      var j :| 0 <= j < |w.entries| && w.entries[j].id == w.calls[i].id;
      assert v.entries[j].id == w.calls[i].id;
    }
    NoCalls(w.calls, id);
    forall i | 0 <= i < |v.entries|
      ensures EntryOk(v.calls, v.entries[i])
    {
      if i < |w.entries| {
        assert EntryOk(w.calls, w.entries[i]);
      }
    }
  }

  lemma FlushedEntryOk(w: World, failures: Failures, i: nat)
    requires DistinctIds(w.entries) && i < |w.entries| && EntryOk(w.calls, w.entries[i])
    ensures |Flush(w, failures).entries| == |w.entries|
    ensures Flush(w, failures).entries[i].id == w.entries[i].id
    ensures EntryOk(Flush(w, failures).calls, Flush(w, failures).entries[i])
  {
    FlushedEntry(w.entries, failures, |Pending(w.entries)|, i);
    CountsAdd(w.calls, Offers(w.entries, failures), w.entries[i].id);
  }

  lemma FlushedCallKnown(w: World, failures: Failures, i: nat)
    requires i < |Flush(w, failures).calls|
    requires forall j :: 0 <= j < |w.calls| ==> HasId(w.entries, w.calls[j].id)
    ensures HasId(w.entries, Flush(w, failures).calls[i].id)
  {
    OffersAreOfEntries(w.entries, failures);
    if i >= |w.calls| {
      PendingAreEntries(w.entries, i - |w.calls|);
    }
  }

  lemma FlushKeepsSound(w: World, failures: Failures)
    requires Sound(w)
    ensures Sound(Flush(w, failures))
  {
    var v := Flush(w, failures);
    FlushedKeepsIds(w.entries, failures, |Pending(w.entries)|);
    forall i | 0 <= i < |v.entries|
      ensures EntryOk(v.calls, v.entries[i])
    {
      FlushedEntryOk(w, failures, i);
    }
    forall i | 0 <= i < |v.calls|
      ensures HasId(v.entries, v.calls[i].id)
    {
      FlushedCallKnown(w, failures, i);
      SameIds(v.entries, w.entries, v.calls[i].id);
    }
  }

  lemma {:induction false} RunIsSound(steps: seq<Step>)
    ensures Sound(Run(steps))
  {
    if steps != [] {
      var w, s := Run(steps[..|steps| - 1]), steps[|steps| - 1];
      RunIsSound(steps[..|steps| - 1]);
      match s
      case DoFlush(failures) => FlushKeepsSound(w, failures);
      case DoEnqueue(id, event) =>
        if !HasId(w.entries, id) {
          EnqueueKeepsSound(w, id, event);
        }
    }
  }

  /** Over every run of enqueues and flushes, whatever the sink does: an entry is either
      still pending and was never accepted, or was accepted exactly once, and its attempts
      are the sink calls made for it. */
  lemma Conservation(steps: seq<Step>, i: nat)
    requires i < |Run(steps).entries|
    ensures var w := Run(steps); var e := w.entries[i];
      && AcceptedFor(w.calls, e.id) == (if e.delivered then 1 else 0)
      && e.attempts == CallsFor(w.calls, e.id)
  {
    RunIsSound(steps);
    assert EntryOk(Run(steps).calls, Run(steps).entries[i]);
  }

  /** No entry is lost or reordered, and a delivered one is never touched again. */
  lemma {:induction false} EntriesSurvive(steps: seq<Step>, k: nat, i: nat)
    requires k <= |steps| && i < |Run(steps[..k]).entries|
    ensures i < |Run(steps).entries|
    ensures Run(steps).entries[i].id == Run(steps[..k]).entries[i].id
    ensures Run(steps).entries[i].event == Run(steps[..k]).entries[i].event
    ensures Run(steps[..k]).entries[i].delivered ==> Run(steps).entries[i] == Run(steps[..k]).entries[i]
  {
    if k == |steps| {
      assert steps[..k] == steps;
    } else {
      var init, s := steps[..|steps| - 1], steps[|steps| - 1];
      assert init[..k] == steps[..k];
      EntriesSurvive(init, k, i);
      RunIsSound(init);
      if s.DoFlush? {
        FlushedEntry(Run(init).entries, s.failures, |Pending(Run(init).entries)|, i);
      }
    }
  }

  /** The ids and events of the entries are those of the enqueue calls, in order. */
  ghost function EnqueuedIn(steps: seq<Step>): seq<(string, Event)> {
    if steps == [] then []
    else
      var before, s := EnqueuedIn(steps[..|steps| - 1]), steps[|steps| - 1];
      if s.DoEnqueue? && (forall p :: p in before ==> p.0 != s.id) then before + [(s.id, s.event)] else before
  }

  lemma {:induction false} EntriesAreEnqueued(steps: seq<Step>)
    ensures |Run(steps).entries| == |EnqueuedIn(steps)|
    ensures forall i :: 0 <= i < |Run(steps).entries| ==>
      (Run(steps).entries[i].id, Run(steps).entries[i].event) == EnqueuedIn(steps)[i]
  {
    if steps != [] {
      var init, s := steps[..|steps| - 1], steps[|steps| - 1];
      var w, known := Run(init), EnqueuedIn(init);
      EntriesAreEnqueued(init);
      if s.DoFlush? {
        RunIsSound(init);
        forall i | 0 <= i < |w.entries|
          ensures |Run(steps).entries| == |w.entries|
          ensures Run(steps).entries[i].id == w.entries[i].id && Run(steps).entries[i].event == w.entries[i].event
        {
          FlushedEntry(w.entries, s.failures, |Pending(w.entries)|, i);
        }
        FlushedLength(w.entries, s.failures, |Pending(w.entries)|);
      } else {
        assert HasId(w.entries, s.id) <==> exists i :: 0 <= i < |known| && known[i].0 == s.id;
      }
    }
  }

  // ---- One flush ----

  /** Failing calls among the first `n` of a flush. */
  ghost function FailedAmong(failures: Failures, n: nat): nat {
    if n == 0 then 0 else FailedAmong(failures, n - 1) + (if FailureAt(failures, n - 1).Some? then 1 else 0)
  }

  lemma PendingAppend(entries: seq<Entry>, e: Entry)
    ensures Pending(entries + [e]) == Pending(entries) + (if e.delivered then [] else [e])
  {
    assert (entries + [e])[..|entries|] == entries;
  }

  /** What remains pending after a flush is what failed in it. */
  lemma {:induction false} RemainingIsFailed(entries: seq<Entry>, failures: Failures, k: nat)
    requires k >= |Pending(entries)|
    ensures |Pending(FlushedUpTo(entries, failures, k))| == FailedAmong(failures, |Pending(entries)|)
  {
    if entries != [] {
      var init, e := entries[..|entries| - 1], entries[|entries| - 1];
      RemainingIsFailed(init, failures, k);
      var before, n := FlushedUpTo(init, failures, k), |Pending(init)|;
      PendingAppend(before, Offered(e, failures, n, k));
      assert Offered(e, failures, n, k).delivered <==> e.delivered || FailureAt(failures, n).None?;
      assert |Pending(entries)| == n + (if e.delivered then 0 else 1);
    }
  }

  // ---- The outbox object and the dispatcher ----

  /** Marks the first entry with the given id. */
  function MarkFirst(entries: seq<Entry>, id: string, error: Option<string>): seq<Entry> {
    if entries == [] then []
    else if entries[0].id == id then [Marked(entries[0], error)] + entries[1..]
    else [entries[0]] + MarkFirst(entries[1..], id, error)
  }

  lemma {:induction false} MarkFirstAppend(a: seq<Entry>, e: Entry, id: string, error: Option<string>)
    ensures MarkFirst(a + [e], id, error) ==
      if HasId(a, id) then MarkFirst(a, id, error) + [e]
      else a + [if e.id == id then Marked(e, error) else e]
  {
    if a == [] {
      assert [e][1..] == [] && a + [e] == [e];
    } else {
      var rest := a[1..];
      assert (a + [e])[1..] == rest + [e] && a == [a[0]] + rest;
      HasIdStep(a, id);
      if a[0].id == id {
        assert [Marked(a[0], error)] + (rest + [e]) == ([Marked(a[0], error)] + rest) + [e];
      } else {
        MarkFirstAppend(rest, e, id, error);
        var marked := if e.id == id then Marked(e, error) else e;
        assert [a[0]] + (MarkFirst(rest, id, error) + [e]) == ([a[0]] + MarkFirst(rest, id, error)) + [e];
        assert [a[0]] + (rest + [marked]) == a + [marked];
      }
    }
  }

  lemma HasIdStep(a: seq<Entry>, id: string)
    requires a != []
    ensures HasId(a, id) <==> a[0].id == id || HasId(a[1..], id)
  {
    if HasId(a[1..], id) {
      var i :| 0 <= i < |a[1..]| && a[1..][i].id == id;
      assert a[i + 1].id == id;
    }
    if i :| 0 <= i < |a| && a[i].id == id && i > 0 {
      assert a[1..][i - 1].id == id;
    }
  }

  lemma {:induction false} FlushedKeepsIds(entries: seq<Entry>, failures: Failures, k: nat)
    ensures |FlushedUpTo(entries, failures, k)| == |entries|
    ensures forall i :: 0 <= i < |entries| ==> FlushedUpTo(entries, failures, k)[i].id == entries[i].id
  {
    if entries != [] {
      FlushedKeepsIds(entries[..|entries| - 1], failures, k);
    }
  }

  lemma SameIds(a: seq<Entry>, b: seq<Entry>, id: string)
    requires |a| == |b| && forall i :: 0 <= i < |a| ==> a[i].id == b[i].id
    ensures HasId(a, id) <==> HasId(b, id)
  {
    if i :| 0 <= i < |a| && a[i].id == id {
      assert b[i].id == id;
    }
    if i :| 0 <= i < |b| && b[i].id == id {
      assert a[i].id == id;
    }
  }

  /** Marking the next pending entry by its id is the next step of the flush. */
  lemma {:induction false} MarkIsNextStep(entries: seq<Entry>, failures: Failures, k: nat)
    requires DistinctIds(entries) && k < |Pending(entries)|
    ensures MarkFirst(FlushedUpTo(entries, failures, k), Pending(entries)[k].id, FailureAt(failures, k))
         == FlushedUpTo(entries, failures, k + 1)
  {
    var init, e := entries[..|entries| - 1], entries[|entries| - 1];
    var before, n, id := FlushedUpTo(init, failures, k), |Pending(init)|, Pending(entries)[k].id;
    var last := Offered(e, failures, n, k);
    FlushedKeepsIds(init, failures, k);
    SameIds(before, init, id);
    MarkFirstAppend(before, last, id, FailureAt(failures, k));
    if k < n {
      assert id == Pending(init)[k].id;
      PendingAreEntries(init, k);
      assert HasId(before, id);
      MarkIsNextStep(init, failures, k);
      assert Offered(e, failures, n, k + 1) == last;
    } else {
      assert k == n && id == e.id && last == e;
      assert !HasId(before, id);
      FlushedBeyond(init, failures, k);
      assert Offered(e, failures, n, k + 1) == Marked(e, FailureAt(failures, k));
    }
  }

  lemma {:induction false} FlushedBeyond(entries: seq<Entry>, failures: Failures, k: nat)
    requires k >= |Pending(entries)|
    ensures FlushedUpTo(entries, failures, k) == FlushedUpTo(entries, failures, k + 1)
  {
    if entries != [] {
      FlushedBeyond(entries[..|entries| - 1], failures, k);
    }
  }

  lemma {:induction false} FlushedNone(entries: seq<Entry>, failures: Failures)
    ensures FlushedUpTo(entries, failures, 0) == entries
  {
    if entries != [] {
      FlushedNone(entries[..|entries| - 1], failures);
      assert entries == entries[..|entries| - 1] + [entries[|entries| - 1]];
    }
  }

  datatype FlushReport = FlushReport(delivered: nat, failed: nat, remaining: nat)

  class Outbox {
    var entries: seq<Entry>

    constructor ()
      ensures entries == []
    {
      entries := [];
    }

    method Enqueue(id: string, event: Event)
      requires !HasId(entries, id)
      modifies this
      ensures entries == old(entries) + [Entry(id, event, 0, false, None)]
    {
      entries := entries + [Entry(id, event, 0, false, None)];
    }

    method PendingEntries() returns (pending: seq<Entry>)
      ensures pending == Pending(entries)
    {
      pending := [];
      for i := 0 to |entries|
        invariant pending == Pending(entries[..i])
      {
        assert entries[..i + 1][..i] == entries[..i];
        if !entries[i].delivered {
          pending := pending + [entries[i]];
        }
      }
      assert entries[..|entries|] == entries;
    }

    /** Both marking methods: the loop stops at the first entry with the id. */
    method Mark(id: string, error: Option<string>)
      modifies this
      ensures entries == MarkFirst(old(entries), id, error)
    {
      for i := 0 to |entries|
        invariant forall k :: 0 <= k < i ==> entries[k].id != id
        invariant entries == old(entries)
      {
        if entries[i].id == id {
          MarkFirstAt(entries, id, error, i);
          entries := entries[i := Marked(entries[i], error)];
          return;
        }
      }
      MarkFirstNone(entries, id, error);
    }
  }

  lemma {:induction false} MarkFirstAt(entries: seq<Entry>, id: string, error: Option<string>, at: nat)
    requires at < |entries| && entries[at].id == id && forall k :: 0 <= k < at ==> entries[k].id != id
    ensures MarkFirst(entries, id, error) == entries[at := Marked(entries[at], error)]
  {
    if at > 0 {
      MarkFirstAt(entries[1..], id, error, at - 1);
    }
  }

  lemma {:induction false} MarkFirstNone(entries: seq<Entry>, id: string, error: Option<string>)
    requires forall k :: 0 <= k < |entries| ==> entries[k].id != id
    ensures MarkFirst(entries, id, error) == entries
  {
    if entries != [] {
      MarkFirstNone(entries[1..], id, error);
    }
  }

  /** The world after the first `k` offers of a flush. */
  ghost function Progress(w: World, failures: Failures, k: nat): World
    requires k <= |Offers(w.entries, failures)|
  {
    World(FlushedUpTo(w.entries, failures, k), w.calls + Offers(w.entries, failures)[..k])
  }

  lemma ProgressStarts(w: World, failures: Failures)
    ensures |Offers(w.entries, failures)| == |Pending(w.entries)|
    ensures Progress(w, failures, 0) == w
    ensures Progress(w, failures, |Pending(w.entries)|) == Flush(w, failures)
  {
    OffersAreOfEntries(w.entries, failures);
    FlushedNone(w.entries, failures);
    assert w.calls + [] == w.calls;
    var offers := Offers(w.entries, failures);
    assert offers[..|offers|] == offers;
  }

  lemma ProgressStep(w: World, failures: Failures, k: nat)
    requires DistinctIds(w.entries) && k < |Pending(w.entries)| == |Offers(w.entries, failures)|
    ensures var e, p := Pending(w.entries)[k], Progress(w, failures, k);
      Progress(w, failures, k + 1) == World(
        MarkFirst(p.entries, e.id, FailureAt(failures, k)),
        p.calls + [SinkCall(e.id, e.event, FailureAt(failures, k).None?)])
  {
    OffersAreOfEntries(w.entries, failures);
    MarkIsNextStep(w.entries, failures, k);
    var offers := Offers(w.entries, failures);
    assert offers[..k + 1] == offers[..k] + [offers[k]];
    assert w.calls + (offers[..k] + [offers[k]]) == (w.calls + offers[..k]) + [offers[k]];
  }

  class Dispatcher {
    const outbox: Outbox
    const maxAttempts: nat
    ghost var calls: seq<SinkCall>

    ghost function View(): World
      reads this, outbox
    {
      World(outbox.entries, calls)
    }

    constructor (outbox: Outbox, maxAttempts: nat)
      ensures this.outbox == outbox && this.maxAttempts == maxAttempts && calls == []
    {
      this.outbox, this.maxAttempts := outbox, maxAttempts;
      calls := [];
    }

    /** Offers every pending entry once, in enqueue order. The attempt limit changes nothing:
        both branches of the failure handler do the same. */
    method FlushOutbox(failures: Failures) returns (report: FlushReport)
      requires DistinctIds(outbox.entries)
      modifies this, outbox
      ensures View() == Flush(old(View()), failures)
      ensures report.delivered + report.failed == |Pending(old(outbox.entries))|
      ensures report.failed == FailedAmong(failures, |Pending(old(outbox.entries))|)
      ensures report.remaining == report.failed == |Pending(outbox.entries)|
    {
      ghost var before := View();
      var pending := outbox.PendingEntries();
      var delivered, failed := 0, 0;
      ProgressStarts(before, failures);
      for k := 0 to |pending|
        invariant View() == Progress(before, failures, k)
        invariant delivered + failed == k && failed == FailedAmong(failures, k)
      {
        var entry, raised := pending[k], FailureAt(failures, k);
        ProgressStep(before, failures, k);
        calls := calls + [SinkCall(entry.id, entry.event, raised.None?)];
        if raised.None? {
          outbox.Mark(entry.id, None);
          delivered := delivered + 1;
        } else {
          if entry.attempts >= maxAttempts {
            outbox.Mark(entry.id, raised);
            failed := failed + 1;
          } else {
            outbox.Mark(entry.id, raised);
            failed := failed + 1;
          }
        }
      }
      RemainingIsFailed(before.entries, failures, |pending|);
      var left := outbox.PendingEntries();
      return FlushReport(delivered, failed, |left|);
    }
  }
}
