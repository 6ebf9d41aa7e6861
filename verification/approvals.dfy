/** Persistent approvals: the stored rows with their decision log, and the engine's
    wake-up cache in each coordinator process. Every store call is one atomic step; a run
    is any interleaving of steps of any number of processes. */
module Approvals {
  import opened Prelude

  datatype ApprovalState = Pending | FirstApproved | ApprovedState | RejectedState

  datatype Choice = Approve | Reject

  /** A row of the append-only decision log. */
  datatype DecisionRow = DecisionRow(sequence: nat, decision: Choice, who: string, rationale: string)

  datatype ApprovalRow = ApprovalRow(
    taskRun: string,
    node: string,
    tenant: string,
    required: int,
    state: ApprovalState,
    version: nat,
    payload: Option<DecisionRow>
  )

  type Key = (string, string)

  /** An in-process wake-up handle: the approval it waits on, and the decision that woke it. */
  datatype Bucket = Bucket(approvalId: Option<string>, woken: Option<Wake>)

  datatype Wake =
    | Persistent(decision: Choice, who: string, rationale: string, version: nat)
    | Legacy(decision: Choice, who: string, rationale: string)

  type Cache = map<Key, Bucket>

  datatype World = World(
    rows: map<string, ApprovalRow>,
    log: map<string, seq<DecisionRow>>,
    caches: map<nat, Cache>
  )

  // ---- The store ----

  predicate Open(s: ApprovalState) {
    s == Pending || s == FirstApproved
  }

  /** State of a row with `required` approvers after one more decision, its `newSeq`-th. */
  function NextState(required: int, decision: Choice, newSeq: nat, current: ApprovalState): ApprovalState {
    if decision == Reject then RejectedState
    else if required == 1 then ApprovedState
    else if required == 2 && newSeq == 1 then FirstApproved
    else if required == 2 && newSeq >= 2 then ApprovedState
    else current
  }

  datatype Refusal = NotFound | AlreadyTerminal | CrossTenant | BadDecision

  datatype CasResult = Applied(state: ApprovalState, version: nat) | Refused(reason: Refusal)

  /** The decision strings callers send; only two are accepted. */
  function ParseChoice(decision: string): Option<Choice> {
    if decision == "approve" then Some(Approve) else if decision == "reject" then Some(Reject) else None
  }

  function DecideVerdict(w: World, id: string, decision: string, tenant: string): Option<Refusal> {
    if id !in w.rows then Some(NotFound)
    else if !Open(w.rows[id].state) then Some(AlreadyTerminal)
    else if w.rows[id].tenant != tenant then Some(CrossTenant)
    else if ParseChoice(decision).None? then Some(BadDecision)
    else None
  }

  function LogOf(w: World, id: string): seq<DecisionRow> {
    if id in w.log then w.log[id] else []
  }

  /** One applied decision on one row. */
  function DecidedRow(row: ApprovalRow, entry: DecisionRow): ApprovalRow {
    row.(state := NextState(row.required, entry.decision, entry.sequence, row.state),
         version := row.version + 1,
         payload := Some(entry))
  }

  /** The atomic compare-and-set: append a decision row and update the approval. */
  function RecordDecision(w: World, id: string, decision: string, who: string, tenant: string, rationale: string)
    : (World, CasResult)
  {
    var refused := DecideVerdict(w, id, decision, tenant);
    if refused.Some? then (w, Refused(refused.value))
    else
      var entry := DecisionRow(|LogOf(w, id)| + 1, ParseChoice(decision).value, who, rationale);
      var next := DecidedRow(w.rows[id], entry);
      (w.(rows := w.rows[id := next], log := w.log[id := LogOf(w, id) + [entry]]),
       Applied(next.state, next.version))
  }

  /** Rows of a gate; legacy rows may make it more than one. */
  predicate IsRowOf(w: World, id: string, key: Key) {
    id in w.rows && (w.rows[id].taskRun, w.rows[id].node) == key
  }

  /** Registers a gate. The row `found` of the gate is returned when the call saw one;
      otherwise a row is inserted under `freshId`, which fails if that id is taken. A call
      may miss a row of the gate that a concurrent call is inserting. */
  function CreateApproval(w: World, key: Key, tenant: string, required: int,
                          found: Option<string>, freshId: string): (World, Option<string>)
  {
    if found.Some? && IsRowOf(w, found.value, key) then (w, found)
    else if freshId in w.rows then (w, None)
    else
      (w.(rows := w.rows[freshId := ApprovalRow(key.0, key.1, tenant, required, Pending, 0, None)],
          log := w.log[freshId := []]),
       Some(freshId))
  }

  /** The row the pre-persistent path writes: other columns take their defaults. */
  function SaveLegacy(w: World, key: Key, freshId: string): World {
    if freshId in w.rows then w
    else w.(rows := w.rows[freshId := ApprovalRow(key.0, key.1, "", 1, Pending, 0, None)],
            log := w.log[freshId := []])
  }

  // ---- The engine ----

  function CacheOf(w: World, p: nat): Cache {
    if p in w.caches then w.caches[p] else map[]
  }

  /** A node starts waiting: register the gate, then install a fresh handle. */
  function StartWaiting(w: World, p: nat, key: Key, tenant: string,
                        found: Option<string>, freshId: string, legacyId: string): World
  {
    if tenant == "" then
      var s := SaveLegacy(w, key, legacyId);
      s.(caches := s.caches[p := CacheOf(s, p)[key := Bucket(None, None)]])
    else
      var (s, id) := CreateApproval(w, key, tenant, 1, found, freshId);
      var t := if id.None? then SaveLegacy(s, key, legacyId) else s;
      t.(caches := t.caches[p := CacheOf(t, p)[key := Bucket(id, None)]])
  }

  /** A process restart: an empty cache, refilled with a handle per pending row of the tenant. */
  function Restart(w: World, p: nat, tenant: string, order: seq<string>): World {
    w.(caches := w.caches[p := if tenant == "" then map[] else Reload(w, tenant, order)])
  }

  function Reload(w: World, tenant: string, order: seq<string>): Cache {
    if order == [] then map[]
    else
      var cache, id := Reload(w, tenant, order[..|order| - 1]), order[|order| - 1];
      if id in w.rows && w.rows[id].tenant == tenant && w.rows[id].state == Pending
         && w.rows[id].taskRun != "" && w.rows[id].node != "" && (w.rows[id].taskRun, w.rows[id].node) !in cache
      then cache[(w.rows[id].taskRun, w.rows[id].node) := Bucket(Some(id), None)]
      else cache
  }

  /** A human decision reaches a process. With a persistent row the compare-and-set decides
      whether the handle is woken. */
  function DecideInProcess(w: World, p: nat, key: Key, tenant: string,
                           decision: string, who: string, rationale: string, legacyId: string): World
  {
    if key !in CacheOf(w, p) then w
    else
      var b := CacheOf(w, p)[key];
      if b.approvalId.Some? && b.approvalId.value != "" && tenant != "" then
        var (s, cas) := RecordDecision(w, b.approvalId.value, decision, who, tenant, rationale);
        if cas.Refused? then s
        else
          var wake := Persistent(ParseChoice(decision).value, who, rationale, cas.version);
          s.(caches := s.caches[p := CacheOf(s, p)[key := b.(woken := Some(wake))]])
      else
        var choice := if decision == "approve" then Approve else Reject;
        var s := SaveLegacy(w, key, legacyId);
        s.(caches := s.caches[p := CacheOf(s, p)[key := b.(woken := Some(Legacy(choice, who, rationale)))]])
  }

  datatype Step =
    | DoCreate(key: Key, tenant: string, required: int, found: Option<string>, freshId: string)
    | DoDecide(id: string, decision: string, who: string, tenant: string, rationale: string)
    | DoWait(process: nat, key: Key, tenant: string, found: Option<string>, freshId: string, legacyId: string)
    | DoRestart(process: nat, tenant: string, order: seq<string>)
    | DoDecideInProcess(process: nat, key: Key, tenant: string, decision: string, who: string,
                        rationale: string, legacyId: string)

  function Apply(w: World, s: Step): World {
    match s
    case DoCreate(key, tenant, required, found, freshId) => CreateApproval(w, key, tenant, required, found, freshId).0
    case DoDecide(id, decision, who, tenant, rationale) => RecordDecision(w, id, decision, who, tenant, rationale).0
    case DoWait(p, key, tenant, found, freshId, legacyId) => StartWaiting(w, p, key, tenant, found, freshId, legacyId)
    case DoRestart(p, tenant, order) => Restart(w, p, tenant, order)
    case DoDecideInProcess(p, key, tenant, decision, who, rationale, legacyId) =>
      DecideInProcess(w, p, key, tenant, decision, who, rationale, legacyId)
  }

  function Run(w: World, steps: seq<Step>): World {
    if steps == [] then w else Apply(Run(w, steps[..|steps| - 1]), steps[|steps| - 1])
  }

  const EMPTY := World(map[], map[], map[])

  // ---- Invariants ----

  ghost predicate AllApprove(log: seq<DecisionRow>) {
    forall i :: 0 <= i < |log| ==> log[i].decision == Approve
  }

  /** The state a row must be in, read off its log alone. */
  ghost predicate StateMatchesLog(required: int, state: ApprovalState, log: seq<DecisionRow>) {
    match state
    case RejectedState =>
      && log != [] && log[|log| - 1].decision == Reject && AllApprove(log[..|log| - 1])
      && (required == 1 || required == 2 ==> |log| <= required)
    case ApprovedState => (required == 1 || required == 2) && |log| == required && AllApprove(log)
    case FirstApproved => required == 2 && |log| == 1 && AllApprove(log)
    case Pending => AllApprove(log) && (required == 1 || required == 2 ==> log == [])
  }

  ghost predicate RowAgrees(row: ApprovalRow, log: seq<DecisionRow>) {
    && row.version == |log|
    && (forall i :: 0 <= i < |log| ==> log[i].sequence == i + 1)
    && StateMatchesLog(row.required, row.state, log)
    && row.payload == (if log == [] then None else Some(log[|log| - 1]))
  }

  ghost predicate RowsAgree(w: World) {
    && w.log.Keys == w.rows.Keys
    && forall id :: id in w.rows ==> RowAgrees(w.rows[id], w.log[id])
  }

  /** A persistent wake repeats the log row it was applied as. */
  ghost predicate WakeAgrees(w: World, b: Bucket) {
    b.woken.Some? && b.woken.value.Persistent? ==>
      && b.approvalId.Some?
      && var wake, log := b.woken.value, LogOf(w, b.approvalId.value);
         && 1 <= wake.version <= |log|
         && log[wake.version - 1] == DecisionRow(wake.version, wake.decision, wake.who, wake.rationale)
  }

  ghost predicate WakesAgree(w: World) {
    forall p, key :: p in w.caches && key in w.caches[p] ==> WakeAgrees(w, w.caches[p][key])
  }

  ghost predicate Inv(w: World) {
    RowsAgree(w) && WakesAgree(w)
  }

  /** The only thing any step does to an existing row and its log. */
  ghost predicate RowEvolves(w: World, v: World, id: string) {
    id in w.rows ==>
      && id in v.rows
      && LogOf(w, id) <= LogOf(v, id)
      && (!Open(w.rows[id].state) ==> v.rows[id] == w.rows[id] && LogOf(v, id) == LogOf(w, id))
      && v.rows[id].required == w.rows[id].required && v.rows[id].tenant == w.rows[id].tenant
      && v.rows[id].taskRun == w.rows[id].taskRun && v.rows[id].node == w.rows[id].node
  }

  ghost predicate Evolves(w: World, v: World) {
    forall id :: RowEvolves(w, v, id)
  }

  lemma DecisionKeepsRow(row: ApprovalRow, log: seq<DecisionRow>, entry: DecisionRow)
    requires RowAgrees(row, log) && Open(row.state) && entry.sequence == |log| + 1
    ensures RowAgrees(DecidedRow(row, entry), log + [entry])
  {
    var more := log + [entry];
    assert more[..|more| - 1] == log;
    assert AllApprove(log);
  }

  lemma EvolvesSelf(w: World)
    ensures Evolves(w, w)
  {
  }

  lemma EvolvesTransitive(a: World, b: World, c: World)
    requires Evolves(a, b) && Evolves(b, c)
    ensures Evolves(a, c)
  {
    forall id
      ensures RowEvolves(a, c, id)
    {
      assert RowEvolves(a, b, id) && RowEvolves(b, c, id);
    }
  }

  /** Logs only grow, so every wake keeps agreeing with its row. */
  lemma WakesSurvive(w: World, v: World)
    requires Inv(w) && RowsAgree(v) && Evolves(w, v) && v.caches == w.caches
    ensures Inv(v)
  {
    forall p, key | p in v.caches && key in v.caches[p]
      ensures WakeAgrees(v, v.caches[p][key])
    {
      var b := v.caches[p][key];
      assert WakeAgrees(w, b);
      if b.woken.Some? && b.woken.value.Persistent? {
        assert RowEvolves(w, v, b.approvalId.value);
      }
    }
  }

  /** Changing or adding one row keeps all the others. */
  lemma PutRow(w: World, id: string, row: ApprovalRow, log: seq<DecisionRow>)
    requires RowsAgree(w) && RowAgrees(row, log)
    requires id in w.rows ==>
      Open(w.rows[id].state) && w.log[id] <= log
      && row.required == w.rows[id].required && row.tenant == w.rows[id].tenant
      && row.taskRun == w.rows[id].taskRun && row.node == w.rows[id].node
    ensures var v := w.(rows := w.rows[id := row], log := w.log[id := log]);
      RowsAgree(v) && Evolves(w, v)
  {
    var v := w.(rows := w.rows[id := row], log := w.log[id := log]);
    forall k
      ensures RowEvolves(w, v, k)
    {
    }
  }

  lemma RecordKeepsRows(w: World, id: string, decision: string, who: string, tenant: string, rationale: string)
    requires RowsAgree(w)
    ensures var (v, cas) := RecordDecision(w, id, decision, who, tenant, rationale);
      && RowsAgree(v) && Evolves(w, v) && v.caches == w.caches
      && (cas.Applied? ==> AppliedRow(v, id, cas.version, ParseChoice(decision), who, rationale))
  {
    if DecideVerdict(w, id, decision, tenant).None? {
      var entry := DecisionRow(|w.log[id]| + 1, ParseChoice(decision).value, who, rationale);
      var next, more := DecidedRow(w.rows[id], entry), w.log[id] + [entry];
      assert RecordDecision(w, id, decision, who, tenant, rationale)
          == (w.(rows := w.rows[id := next], log := w.log[id := more]), Applied(next.state, next.version));
      DecidedKeepsRows(w, id, entry);
    } else {
      EvolvesSelf(w);
    }
  }

  lemma DecidedKeepsRows(w: World, id: string, entry: DecisionRow)
    requires RowsAgree(w) && id in w.rows && Open(w.rows[id].state) && entry.sequence == |w.log[id]| + 1
    ensures var next, more := DecidedRow(w.rows[id], entry), w.log[id] + [entry];
      var v := w.(rows := w.rows[id := next], log := w.log[id := more]);
      && RowsAgree(v) && Evolves(w, v) && next.version == entry.sequence
  {
    assert RowAgrees(w.rows[id], w.log[id]);
    DecisionKeepsRow(w.rows[id], w.log[id], entry);
    PutRow(w, id, DecidedRow(w.rows[id], entry), w.log[id] + [entry]);
  }

  /** The applied decision is the last row of the log, numbered by the new version. */
  ghost predicate AppliedRow(v: World, id: string, version: nat, choice: Option<Choice>, who: string,
                             rationale: string) {
    && choice.Some? && id in v.rows && |LogOf(v, id)| == version >= 1
    && LogOf(v, id)[version - 1] == DecisionRow(version, choice.value, who, rationale)
  }

  lemma CreateKeepsRows(w: World, key: Key, tenant: string, required: int, found: Option<string>, freshId: string)
    requires RowsAgree(w)
    ensures var (v, id) := CreateApproval(w, key, tenant, required, found, freshId);
      RowsAgree(v) && Evolves(w, v) && v.caches == w.caches
  {
    EvolvesSelf(w);
    if freshId !in w.rows {
      PutRow(w, freshId, ApprovalRow(key.0, key.1, tenant, required, Pending, 0, None), []);
    }
  }

  /** A gate without a row gets one with the caller's tenant and count, pending and undecided. */
  lemma CreatedRow(w: World, key: Key, tenant: string, required: int, found: Option<string>, freshId: string)
    requires forall id :: id in w.rows ==> (w.rows[id].taskRun, w.rows[id].node) != key
    requires freshId !in w.rows
    ensures var (v, id) := CreateApproval(w, key, tenant, required, found, freshId);
      && id == Some(freshId) && IsNewRow(v, freshId, key, tenant, required)
      && v.rows.Keys == w.rows.Keys + {freshId} && v.caches == w.caches
      && forall k :: k in w.rows ==> v.rows[k] == w.rows[k] && LogOf(v, k) == LogOf(w, k)
  {
  }

  /** The row is as its creation left it. */
  predicate IsNewRow(w: World, id: string, key: Key, tenant: string, required: int) {
    && id in w.rows
    && w.rows[id].taskRun == key.0 && w.rows[id].node == key.1
    && w.rows[id].tenant == tenant && w.rows[id].required == required
    && w.rows[id].state == Pending && w.rows[id].version == 0 && w.rows[id].payload == None
    && LogOf(w, id) == []
  }

  /** When a decision is refused, and why; a refused decision changes nothing. */
  lemma DecisionRefusals(w: World, id: string, decision: string, who: string, tenant: string, rationale: string)
    ensures var (v, cas) := RecordDecision(w, id, decision, who, tenant, rationale);
      && (cas == Refused(NotFound) <==> id !in w.rows)
      && (cas == Refused(AlreadyTerminal) <==> id in w.rows && w.rows[id].state in {ApprovedState, RejectedState})
      && (cas == Refused(CrossTenant) <==>
            id in w.rows && w.rows[id].state in {Pending, FirstApproved} && w.rows[id].tenant != tenant)
      && (cas == Refused(BadDecision) <==>
            && id in w.rows && w.rows[id].state in {Pending, FirstApproved} && w.rows[id].tenant == tenant
            && decision != "approve" && decision != "reject")
      && (cas.Refused? ==> v == w)
  {
  }

  /** What an applied decision makes of its row. */
  lemma DecisionEffect(w: World, id: string, decision: string, who: string, tenant: string, rationale: string)
    requires id in w.rows && w.rows[id].state in {Pending, FirstApproved} && w.rows[id].tenant == tenant
    requires decision == "approve" || decision == "reject"
    ensures var (v, cas) := RecordDecision(w, id, decision, who, tenant, rationale);
      var n, choice := |LogOf(w, id)| + 1, if decision == "approve" then Approve else Reject;
      && cas.Applied? && id in v.rows && cas == Applied(v.rows[id].state, w.rows[id].version + 1)
      && LogOf(v, id) == LogOf(w, id) + [DecisionRow(n, choice, who, rationale)]
      && v.rows[id].payload == Some(DecisionRow(n, choice, who, rationale))
      && v.rows[id].version == w.rows[id].version + 1
      && (decision == "reject" ==> v.rows[id].state == RejectedState)
      && (decision == "approve" && w.rows[id].required == 1 ==> v.rows[id].state == ApprovedState)
      && (decision == "approve" && w.rows[id].required == 2 ==>
            v.rows[id].state == if n == 1 then FirstApproved else ApprovedState)
      && (decision == "approve" && w.rows[id].required !in {1, 2} ==> v.rows[id].state == w.rows[id].state)
  {
  }

  lemma LegacyKeepsRows(w: World, key: Key, freshId: string)
    requires RowsAgree(w)
    ensures var v := SaveLegacy(w, key, freshId);
      RowsAgree(v) && Evolves(w, v) && v.caches == w.caches
  {
    EvolvesSelf(w);
    if freshId !in w.rows {
      PutRow(w, freshId, ApprovalRow(key.0, key.1, "", 1, Pending, 0, None), []);
    }
  }

  function Install(w: World, p: nat, key: Key, b: Bucket): World {
    w.(caches := w.caches[p := CacheOf(w, p)[key := b]])
  }

  /** Installing a handle touches no row. */
  lemma InstallKeepsInv(w: World, p: nat, key: Key, b: Bucket)
    requires Inv(w) && WakeAgrees(w, b)
    ensures Inv(Install(w, p, key, b)) && Evolves(w, Install(w, p, key, b))
  {
    var v := Install(w, p, key, b);
    forall q, k | q in v.caches && k in v.caches[q]
      ensures WakeAgrees(v, v.caches[q][k])
    {
      if q == p && k == key {
      } else {
        assert q in w.caches && k in w.caches[q] && v.caches[q][k] == w.caches[q][k];
        assert WakeAgrees(w, w.caches[q][k]);
      }
    }
  }

  lemma {:induction false} ReloadedAreAsleep(w: World, tenant: string, order: seq<string>)
    ensures forall key :: key in Reload(w, tenant, order) ==> Reload(w, tenant, order)[key].woken.None?
  {
    if order != [] {
      ReloadedAreAsleep(w, tenant, order[..|order| - 1]);
    }
  }

  /** A pending row of the tenant that belongs to a real gate. */
  ghost predicate PendingRowOf(w: World, tenant: string, key: Key, id: string) {
    && IsRowOf(w, id, key) && key.0 != "" && key.1 != ""
    && w.rows[id].tenant == tenant && w.rows[id].state == Pending
  }

  /** Restart guarantee: a gate gets a fresh handle exactly when one of its rows is pending,
      and the handle waits on such a row. Half-approved rows get none. */
  lemma {:induction false} RestartReattaches(w: World, tenant: string, order: seq<string>, key: Key)
    ensures key in Reload(w, tenant, order) <==> exists id :: id in order && PendingRowOf(w, tenant, key, id)
    ensures key in Reload(w, tenant, order) ==>
      var b := Reload(w, tenant, order)[key];
      b.woken.None? && b.approvalId.Some? && b.approvalId.value in order
      && PendingRowOf(w, tenant, key, b.approvalId.value)
  {
    if order != [] {
      var init, last := order[..|order| - 1], order[|order| - 1];
      assert order == init + [last];
      RestartReattaches(w, tenant, init, key);
      assert key in Reload(w, tenant, order) <==>
        key in Reload(w, tenant, init) || PendingRowOf(w, tenant, key, last);
    }
  }

  /** Without a tenant a restarted process has no handles; with one it has those of its tenant's
      pending rows. */
  lemma RestartHandles(w: World, p: nat, tenant: string, order: seq<string>, key: Key)
    ensures var v := Restart(w, p, tenant, order);
      && v.rows == w.rows && v.log == w.log
      && (forall q :: q != p ==> CacheOf(v, q) == CacheOf(w, q))
      && (key in CacheOf(v, p) <==> tenant != "" && exists id :: id in order && PendingRowOf(w, tenant, key, id))
  {
    RestartReattaches(w, tenant, order, key);
  }

  lemma StepKeepsInv(w: World, s: Step)
    requires Inv(w)
    ensures Inv(Apply(w, s)) && Evolves(w, Apply(w, s))
  {
    match s
    case DoCreate(key, tenant, required, found, freshId) =>
      CreateKeepsRows(w, key, tenant, required, found, freshId);
      WakesSurvive(w, Apply(w, s));
    case DoDecide(id, decision, who, tenant, rationale) =>
      RecordKeepsRows(w, id, decision, who, tenant, rationale);
      WakesSurvive(w, Apply(w, s));
    case DoWait(p, key, tenant, found, freshId, legacyId) =>
      WaitKeepsInv(w, p, key, tenant, found, freshId, legacyId);
    case DoRestart(p, tenant, order) =>
      RestartKeepsInv(w, p, tenant, order);
    case DoDecideInProcess(p, key, tenant, decision, who, rationale, legacyId) =>
      ProcessDecisionKeepsInv(w, p, key, tenant, decision, who, rationale, legacyId);
  }

  lemma RestartKeepsInv(w: World, p: nat, tenant: string, order: seq<string>)
    requires Inv(w)
    ensures Inv(Restart(w, p, tenant, order)) && Evolves(w, Restart(w, p, tenant, order))
  {
    ReloadedAreAsleep(w, tenant, order);
    var v := Restart(w, p, tenant, order);
    forall q, k | q in v.caches && k in v.caches[q]
      ensures WakeAgrees(v, v.caches[q][k])
    {
      if q != p {
        assert WakeAgrees(w, w.caches[q][k]);
      }
    }
  }

  lemma WaitKeepsInv(w: World, p: nat, key: Key, tenant: string,
                     found: Option<string>, freshId: string, legacyId: string)
    requires Inv(w)
    ensures var v := StartWaiting(w, p, key, tenant, found, freshId, legacyId);
      Inv(v) && Evolves(w, v)
  {
    if tenant == "" {
      LegacyWaitKeepsInv(w, w, p, key, legacyId);
    } else {
      var (s, id) := CreateApproval(w, key, tenant, 1, found, freshId);
      CreateKeepsRows(w, key, tenant, 1, found, freshId);
      WakesSurvive(w, s);
      if id.None? {
        LegacyWaitKeepsInv(w, s, p, key, legacyId);
      } else {
        InstallKeepsInv(s, p, key, Bucket(id, None));
        EvolvesTransitive(w, s, Install(s, p, key, Bucket(id, None)));
      }
    }
  }

  lemma LegacyWaitKeepsInv(w: World, s: World, p: nat, key: Key, legacyId: string)
    requires Inv(s) && Evolves(w, s)
    ensures var v := Install(SaveLegacy(s, key, legacyId), p, key, Bucket(None, None));
      Inv(v) && Evolves(w, v)
  {
    var t := SaveLegacy(s, key, legacyId);
    LegacyKeepsRows(s, key, legacyId);
    WakesSurvive(s, t);
    InstallKeepsInv(t, p, key, Bucket(None, None));
    EvolvesTransitive(w, s, t);
    EvolvesTransitive(w, t, Install(t, p, key, Bucket(None, None)));
  }

  lemma ProcessDecisionKeepsInv(w: World, p: nat, key: Key, tenant: string, decision: string,
                                who: string, rationale: string, legacyId: string)
    requires Inv(w)
    ensures var v := DecideInProcess(w, p, key, tenant, decision, who, rationale, legacyId);
      Inv(v) && Evolves(w, v)
  {
    EvolvesSelf(w);
    if key in CacheOf(w, p) {
      var b := CacheOf(w, p)[key];
      if b.approvalId.Some? && b.approvalId.value != "" && tenant != "" {
        StoreDecisionKeepsInv(w, p, key, b, tenant, decision, who, rationale);
      } else {
        var t := SaveLegacy(w, key, legacyId);
        var choice := if decision == "approve" then Approve else Reject;
        var woken := b.(woken := Some(Legacy(choice, who, rationale)));
        LegacyKeepsRows(w, key, legacyId);
        WakesSurvive(w, t);
        InstallKeepsInv(t, p, key, woken);
        EvolvesTransitive(w, t, Install(t, p, key, woken));
      }
    }
  }

  lemma StoreDecisionKeepsInv(w: World, p: nat, key: Key, b: Bucket, tenant: string, decision: string,
                              who: string, rationale: string)
    requires Inv(w) && b.approvalId.Some?
    ensures var (t, cas) := RecordDecision(w, b.approvalId.value, decision, who, tenant, rationale);
      && Inv(t) && Evolves(w, t)
      && (cas.Applied? ==>
            && ParseChoice(decision).Some?
            && var wake := Persistent(ParseChoice(decision).value, who, rationale, cas.version);
               var v := Install(t, p, key, b.(woken := Some(wake)));
               Inv(v) && Evolves(w, v))
  {
    var (t, cas) := RecordDecision(w, b.approvalId.value, decision, who, tenant, rationale);
    RecordKeepsRows(w, b.approvalId.value, decision, who, tenant, rationale);
    WakesSurvive(w, t);
    if cas.Applied? {
      var woken := b.(woken := Some(Persistent(ParseChoice(decision).value, who, rationale, cas.version)));
      assert WakeAgrees(t, woken);
      InstallKeepsInv(t, p, key, woken);
      EvolvesTransitive(w, t, Install(t, p, key, woken));
    }
  }

  /** Every reachable world satisfies the invariants. */
  lemma {:induction false} RunKeepsInv(steps: seq<Step>)
    ensures Inv(Run(EMPTY, steps))
  {
    if steps != [] {
      RunKeepsInv(steps[..|steps| - 1]);
      StepKeepsInv(Run(EMPTY, steps[..|steps| - 1]), steps[|steps| - 1]);
    }
  }

  /** Whatever happens after a prefix of a run, logs only grow and terminal rows stay as they are. */
  lemma {:induction false} TerminalRowsNeverChange(steps: seq<Step>, k: nat)
    requires k <= |steps|
    ensures Evolves(Run(EMPTY, steps[..k]), Run(EMPTY, steps))
  {
    if k == |steps| {
      assert steps[..k] == steps;
    } else {
      var init := steps[..|steps| - 1];
      assert init[..k] == steps[..k];
      TerminalRowsNeverChange(init, k);
      RunKeepsInv(init);
      StepKeepsInv(Run(EMPTY, init), steps[|steps| - 1]);
      EvolvesTransitive(Run(EMPTY, steps[..k]), Run(EMPTY, init), Run(EMPTY, steps));
    }
  }

  /** Process `p` holds a handle for approval `id` that was woken through the store. */
  ghost predicate WokenFor(w: World, p: nat, key: Key, id: string) {
    && p in w.caches && key in w.caches[p]
    && var b := w.caches[p][key];
       b.approvalId == Some(id) && b.woken.Some? && b.woken.value.Persistent?
  }

  /** The wake repeats the one and only decision of the row, and the row shows it. */
  ghost predicate WokenByTheDecision(w: World, wake: Wake, id: string)
    requires id in w.rows
  {
    && LogOf(w, id) == [DecisionRow(1, wake.decision, wake.who, wake.rationale)]
    && w.rows[id].state == (if wake.decision == Approve then ApprovedState else RejectedState)
  }

  lemma RowOfOneApprover(row: ApprovalRow, log: seq<DecisionRow>)
    requires RowAgrees(row, log) && row.required == 1
    ensures |log| <= 1
    ensures Open(row.state) <==> log == []
    ensures log != [] ==> row.state == if log[0].decision == Approve then ApprovedState else RejectedState
  {
  }

  lemma WakeOfOneApprover(w: World, p: nat, key: Key, id: string)
    requires Inv(w) && id in w.rows && w.rows[id].required == 1 && WokenFor(w, p, key, id)
    ensures WokenByTheDecision(w, w.caches[p][key].woken.value, id)
  {
    assert WakeAgrees(w, w.caches[p][key]);
    RowOfOneApprover(w.rows[id], w.log[id]);
  }

  /** With one required approver at most one decision is ever applied, and every handle
      woken through the persistent path carries exactly that decision. */
  lemma OneApproverOneDecision(steps: seq<Step>, id: string)
    requires id in Run(EMPTY, steps).rows && Run(EMPTY, steps).rows[id].required == 1
    ensures var w := Run(EMPTY, steps);
      && |LogOf(w, id)| <= 1
      && (Open(w.rows[id].state) <==> LogOf(w, id) == [])
      && forall p, key :: WokenFor(w, p, key, id) ==> WokenByTheDecision(w, w.caches[p][key].woken.value, id)
  {
    RunKeepsInv(steps);
    var w := Run(EMPTY, steps);
    RowOfOneApprover(w.rows[id], w.log[id]);
    forall p, key | WokenFor(w, p, key, id)
      ensures WokenByTheDecision(w, w.caches[p][key].woken.value, id)
    {
      WakeOfOneApprover(w, p, key, id);
    }
  }

  /** Step `i` is a creation call that found no row of its gate and inserted row `id`. */
  ghost predicate CreatedAt(steps: seq<Step>, i: nat, id: string) {
    && i < |steps| && steps[i].DoCreate? && steps[i].freshId == id && id !in Run(EMPTY, steps[..i]).rows
    && (steps[i].found.Some? ==> !IsRowOf(Run(EMPTY, steps[..i]), steps[i].found.value, steps[i].key))
  }

  /** Whatever follows, the row keeps the gate, the tenant and the count of the call. */
  lemma CreatedRowKeeps(steps: seq<Step>, i: nat, id: string)
    requires CreatedAt(steps, i, id)
    ensures var w := Run(EMPTY, steps);
      && id in w.rows && (w.rows[id].taskRun, w.rows[id].node) == steps[i].key
      && w.rows[id].tenant == steps[i].tenant && w.rows[id].required == steps[i].required
  {
    var before, after := Run(EMPTY, steps[..i]), Run(EMPTY, steps[..i + 1]);
    assert steps[..i + 1][..i] == steps[..i];
    assert after == Apply(before, steps[i]);
    assert id in after.rows;
    TerminalRowsNeverChange(steps, i + 1);
    assert RowEvolves(after, Run(EMPTY, steps), id);
  }

  /** A gate created for two approvers: one approval leaves it first-approved, approved means
      exactly two approvals, rejected means the last decision is the only rejection. */
  lemma TwoApprovers(steps: seq<Step>, i: nat, id: string)
    requires CreatedAt(steps, i, id) && steps[i].required == 2
    ensures var w := Run(EMPTY, steps); var log := LogOf(w, id);
      && id in w.rows
      && (w.rows[id].state == Pending <==> log == [])
      && (w.rows[id].state == FirstApproved <==> |log| == 1 && AllApprove(log))
      && (w.rows[id].state == ApprovedState <==> |log| == 2 && AllApprove(log))
      && (w.rows[id].state == RejectedState <==>
            log != [] && log[|log| - 1].decision == Reject && AllApprove(log[..|log| - 1]))
      && |log| <= 2
  {
    CreatedRowKeeps(steps, i, id);
    RunKeepsInv(steps);
    var w := Run(EMPTY, steps);
    assert RowAgrees(w.rows[id], w.log[id]);
  }

  /** The replies to two approvals of such a gate. */
  lemma ApprovalsOfTwo(steps: seq<Step>, i: nat, id: string, who: string, rationale: string)
    requires CreatedAt(steps, i, id) && steps[i].required == 2
    ensures var w := Run(EMPTY, steps);
      var cas := RecordDecision(w, id, "approve", who, steps[i].tenant, rationale).1;
      && (LogOf(w, id) == [] ==> cas == Applied(FirstApproved, 1))
      && (|LogOf(w, id)| == 1 && AllApprove(LogOf(w, id)) ==> cas == Applied(ApprovedState, 2))
  {
    TwoApprovers(steps, i, id);
    CreatedRowKeeps(steps, i, id);
    RunKeepsInv(steps);
    var w := Run(EMPTY, steps);
    assert RowAgrees(w.rows[id], w.log[id]);
    if w.rows[id].state == Pending || w.rows[id].state == FirstApproved {
      DecisionEffect(w, id, "approve", who, steps[i].tenant, rationale);
    }
  }

  /** With any other number the row can only end rejected: approvals never complete it. */
  lemma OtherCountsNeverApprove(steps: seq<Step>, id: string)
    requires var w := Run(EMPTY, steps); id in w.rows && w.rows[id].required != 1 && w.rows[id].required != 2
    ensures Run(EMPTY, steps).rows[id].state == Pending || Run(EMPTY, steps).rows[id].state == RejectedState
  {
    RunKeepsInv(steps);
  }

  /** The handle is woken by every applied decision, so it can be woken while the row is
      still open: exactly when the decision is an approval that does not complete the row. */
  lemma WakeMayPrecedeCompletion(w: World, p: nat, key: Key, tenant: string, decision: string,
                                 who: string, rationale: string, legacyId: string, id: string)
    requires Inv(w) && key in CacheOf(w, p) && CacheOf(w, p)[key].approvalId == Some(id)
    requires id != "" && tenant != "" && DecideVerdict(w, id, decision, tenant).None?
    ensures var v := DecideInProcess(w, p, key, tenant, decision, who, rationale, legacyId);
      && v.caches[p][key].woken.Some? && v.caches[p][key].woken.value.Persistent?
      && (Open(v.rows[id].state) <==>
            decision == "approve" && w.rows[id].required != 1
            && !(w.rows[id].required == 2 && w.rows[id].state == FirstApproved))
  {
  }

  // ---- The store class ----

  /** The approval tables behind one connection; each method is one transaction. */
  class ApprovalStore {
    var rows: map<string, ApprovalRow>
    var log: map<string, seq<DecisionRow>>

    ghost function Tables(): World
      reads this
    {
      World(rows, log, map[])
    }

    ghost predicate Valid()
      reads this
    {
      RowsAgree(Tables())
    }

    constructor ()
      ensures Valid() && Tables() == EMPTY
    {
      rows, log := map[], map[];
    }

    method RecordApprovalDecision(id: string, decision: string, who: string, tenant: string, rationale: string)
      returns (cas: CasResult)
      requires Valid()
      modifies this
      ensures Valid() && Evolves(old(Tables()), Tables())
      ensures (Tables(), cas) == RecordDecision(old(Tables()), id, decision, who, tenant, rationale)
    {
      RecordKeepsRows(Tables(), id, decision, who, tenant, rationale);
      if id !in rows {
        return Refused(NotFound);
      }
      var row := rows[id];
      if !Open(row.state) {
        return Refused(AlreadyTerminal);
      }
      if row.tenant != tenant {
        return Refused(CrossTenant);
      }
      var choice := ParseChoice(decision);
      if choice.None? {
        return Refused(BadDecision);
      }
      var newSeq := |log[id]| + 1;
      var entry := DecisionRow(newSeq, choice.value, who, rationale);
      log := log[id := log[id] + [entry]];
      var state := row.state;
      if choice.value == Reject {
        state := RejectedState;
      } else if row.required == 1 {
        state := ApprovedState;
      } else if row.required == 2 && newSeq == 1 {
        state := FirstApproved;
      } else if row.required == 2 && newSeq >= 2 {
        state := ApprovedState;
      }
      var next := row.(state := state, version := row.version + 1, payload := Some(entry));
      assert next == DecidedRow(row, entry);
      rows := rows[id := next];
      return Applied(state, row.version + 1);
    }

    method Create(key: Key, tenant: string, required: int, freshId: string) returns (id: Option<string>)
      requires Valid()
      modifies this
      ensures Valid() && Evolves(old(Tables()), Tables())
      ensures exists found :: (Tables(), id) == CreateApproval(old(Tables()), key, tenant, required, found, freshId)
      ensures (exists k :: IsRowOf(old(Tables()), k, key)) ==>
        Tables() == old(Tables()) && id.Some? && IsRowOf(Tables(), id.value, key)
      ensures (forall k :: !IsRowOf(old(Tables()), k, key)) ==>
        if freshId in old(rows) then Tables() == old(Tables()) && id.None?
        else
          && id == Some(freshId) && IsNewRow(Tables(), freshId, key, tenant, required)
          && rows == old(rows)[freshId := rows[freshId]] && log == old(log)[freshId := []]
    {
      ghost var before := Tables();
      if k :| k in rows && (rows[k].taskRun, rows[k].node) == key {
        CreateKeepsRows(before, key, tenant, required, Some(k), freshId);
        assert (before, Some(k)) == CreateApproval(before, key, tenant, required, Some(k), freshId);
        return Some(k);
      }
      CreateKeepsRows(before, key, tenant, required, None, freshId);
      if freshId in rows {
        assert (before, None) == CreateApproval(before, key, tenant, required, None, freshId);
        return None;
      }
      rows := rows[freshId := ApprovalRow(key.0, key.1, tenant, required, Pending, 0, None)];
      log := log[freshId := []];
      assert (Tables(), Some(freshId)) == CreateApproval(before, key, tenant, required, None, freshId);
      return Some(freshId);
    }
  }
}
