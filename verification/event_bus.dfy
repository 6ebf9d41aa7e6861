/** The per-task event bus: bounded replay, bounded subscriber queues, one close sentinel.
    Queues are named by ids; each one also records what its consumer took from it. */
module EventBus {
  import opened Prelude

  type Task = string
  type Event = string
  type QueueId = nat

  const QUEUE_SIZE := 512

  /** What a queue carries: an event, or the close sentinel. */
  datatype Item = Ev(event: Event) | Stop

  /** `owed` is everything the queue was ever offered, `from` the length of the task's log
      when it subscribed, `upto` where its subscription ended, if it did. */
  datatype Queue = Queue(
    task: Task,
    items: seq<Item>,
    received: seq<Item>,
    dropped: bool,
    owed: seq<Item>,
    from: nat,
    upto: Option<nat>
  ) {
    /** Everything put into the queue so far, in order. */
    function Stream(): seq<Item> { received + items }

    /** The consumer takes the first item. */
    function Taken(): Queue
      requires items != []
    {
      this.(items := items[1..], received := received + [items[0]])
    }
  }

  datatype Bus = Bus(
    replayBuffer: nat,
    history: map<Task, seq<Event>>,
    subscribers: map<Task, set<QueueId>>,
    closed: set<Task>,
    queues: map<QueueId, Queue>,
    log: map<Task, seq<Item>>
  )

  function HistoryOf(b: Bus, t: Task): seq<Event> { if t in b.history then b.history[t] else [] }

  function SubscribersOf(b: Bus, t: Task): set<QueueId> { if t in b.subscribers then b.subscribers[t] else {} }

  /** Every item ever announced for a task: its published events and its close. */
  function LogOf(b: Bus, t: Task): seq<Item> { if t in b.log then b.log[t] else [] }

  /** A deque of bounded length keeps its newest elements. */
  function Suffix<T>(s: seq<T>, n: nat): seq<T> {
    if |s| <= n then s else s[|s| - n..]
  }

  function Items(events: seq<Event>): seq<Item> {
    seq(|events|, i requires 0 <= i < |events| => Ev(events[i]))
  }

  /** `put_nowait`: a full queue drops the item. */
  function Put(q: Queue, x: Item): Queue {
    var offered := q.(owed := q.owed + [x]);
    if |q.items| < QUEUE_SIZE then offered.(items := q.items + [x]) else offered.(dropped := true)
  }

  function PutAll(queues: map<QueueId, Queue>, subs: set<QueueId>, x: Item): map<QueueId, Queue> {
    map q | q in queues :: if q in subs then Put(queues[q], x) else queues[q]
  }

  // ---- Steps ----

  function Publish(b: Bus, t: Task, e: Event): Bus {
    b.(queues := PutAll(b.queues, SubscribersOf(b, t), Ev(e)),
       history := b.history[t := Suffix(HistoryOf(b, t) + [e], b.replayBuffer)],
       log := b.log[t := LogOf(b, t) + [Ev(e)]])
  }

  function Close(b: Bus, t: Task): Bus {
    if t in b.closed then b
    else b.(closed := b.closed + {t},
            queues := PutAll(b.queues, SubscribersOf(b, t), Stop),
            log := b.log[t := LogOf(b, t) + [Stop]])
  }

  function Replayed(history: seq<Event>): seq<Item> {
    if |history| <= QUEUE_SIZE then Items(history) else Items(history)[..QUEUE_SIZE]
  }

  /** The queue a new subscriber gets: the replay, cut at the queue size, then the sentinel
      if the task is closed and there is room for it. */
  function NewQueue(t: Task, history: seq<Event>, isClosed: bool, n: nat): Queue {
    var q := Queue(t, Replayed(history), [], |history| > QUEUE_SIZE, Items(history), n, None);
    if isClosed then Put(q, Stop).(upto := Some(n)) else q
  }

  /** A new queue, registered with the task unless the task is closed. */
  function WithQueue(b: Bus, t: Task, q: QueueId, k: Queue, register: bool): Bus {
    b.(queues := b.queues[q := k],
       subscribers := if register then b.subscribers[t := SubscribersOf(b, t) + {q}] else b.subscribers)
  }

  function Subscribe(b: Bus, t: Task, q: QueueId): Bus {
    if q in b.queues then b
    else WithQueue(b, t, q, NewQueue(t, HistoryOf(b, t), t in b.closed, |LogOf(b, t)|), t !in b.closed)
  }

  function Unsubscribe(b: Bus, t: Task, q: QueueId): Bus {
    if q !in SubscribersOf(b, t) || q !in b.queues then b
    else
      var left := SubscribersOf(b, t) - {q};
      b.(subscribers := if left == {} then b.subscribers - {t} else b.subscribers[t := left],
         queues := b.queues[q := b.queues[q].(upto := Some(|LogOf(b, t)|))])
  }

  function Get(b: Bus, q: QueueId): Bus {
    if q !in b.queues || b.queues[q].items == [] then b
    else
      var k := b.queues[q];
      b.(queues := b.queues[q := k.Taken()])
  }

  datatype Step =
    | DoPublish(task: Task, event: Event)
    | DoClose(task: Task)
    | DoSubscribe(task: Task, q: QueueId)
    | DoUnsubscribe(task: Task, q: QueueId)
    | DoGet(q: QueueId)

  function Apply(b: Bus, s: Step): Bus {
    match s
    case DoPublish(t, e) => Publish(b, t, e)
    case DoClose(t) => Close(b, t)
    case DoSubscribe(t, q) => Subscribe(b, t, q)
    case DoUnsubscribe(t, q) => Unsubscribe(b, t, q)
    case DoGet(q) => Get(b, q)
  }

  function Empty(replayBuffer: nat): Bus {
    Bus(replayBuffer, map[], map[], {}, map[], map[])
  }

  function Run(replayBuffer: nat, steps: seq<Step>): Bus {
    if steps == [] then Empty(replayBuffer)
    else Apply(Run(replayBuffer, steps[..|steps| - 1]), steps[|steps| - 1])
  }

  // ---- What a subscriber is owed ----

  ghost function EventsOf(log: seq<Item>): seq<Event> {
    if log == [] then []
    else
      var x := log[|log| - 1];
      EventsOf(log[..|log| - 1]) + (if x.Ev? then [x.event] else [])
  }

  /** `a` is obtained from `b` by dropping items. */
  ghost predicate IsSubsequence(a: seq<Item>, b: seq<Item>) {
    if a == [] then true
    else if b == [] then false
    else if a[|a| - 1] == b[|b| - 1] then IsSubsequence(a[..|a| - 1], b[..|b| - 1])
    else IsSubsequence(a, b[..|b| - 1])
  }

  lemma {:induction false} SubsequenceDropLast(a: seq<Item>, b: seq<Item>)
    requires a != [] && IsSubsequence(a, b)
    ensures IsSubsequence(a[..|a| - 1], b)
  {
    var init, c := a[..|a| - 1], b[..|b| - 1];
    if a[|a| - 1] == b[|b| - 1] {
      assert IsSubsequence(init, c);
      if init != [] && init[|init| - 1] == b[|b| - 1] {
        SubsequenceDropLast(init, c);
      }
    } else {
      SubsequenceDropLast(a, c);
      if init != [] && init[|init| - 1] == b[|b| - 1] {
        SubsequenceDropLast(init, c);
      }
    }
  }

  lemma SubsequenceExtends(a: seq<Item>, b: seq<Item>, x: Item)
    requires IsSubsequence(a, b)
    ensures IsSubsequence(a + [x], b + [x]) && IsSubsequence(a, b + [x])
  {
    assert (b + [x])[..|b|] == b && (a + [x])[..|a|] == a;
    if a != [] {
      SubsequenceDropLast(a, b);
    }
  }

  lemma {:induction false} SubsequenceSelf(a: seq<Item>)
    ensures IsSubsequence(a, a)
  {
    if a != [] {
      SubsequenceSelf(a[..|a| - 1]);
    }
  }

  lemma {:induction false} PrefixIsSubsequence(a: seq<Item>, n: nat)
    requires n <= |a|
    ensures IsSubsequence(a[..n], a)
    decreases |a|
  {
    if n == |a| {
      assert a[..n] == a;
      SubsequenceSelf(a);
    } else {
      var c := a[..|a| - 1];
      assert c[..n] == a[..n] && c + [a[|a| - 1]] == a;
      PrefixIsSubsequence(c, n);
      SubsequenceExtends(c[..n], c, a[|a| - 1]);
    }
  }

  lemma {:induction false} SubsequenceShorter(a: seq<Item>, b: seq<Item>)
    requires IsSubsequence(a, b)
    ensures |a| <= |b|
  {
    if a != [] {
      var init := b[..|b| - 1];
      if a[|a| - 1] == b[|b| - 1] {
        SubsequenceShorter(a[..|a| - 1], init);
      } else {
        SubsequenceShorter(a, init);
      }
    }
  }

  // ---- One topic and one queue ----

  /** Replay owed to a subscriber that arrives when the log is `seen`. */
  ghost function StartFor(replayBuffer: nat, seen: seq<Item>): seq<Item> {
    Items(Suffix(EventsOf(seen), replayBuffer)) + (if Stop in seen then [Stop] else [])
  }

  ghost predicate TopicOk(replayBuffer: nat, log: seq<Item>, history: seq<Event>, isClosed: bool) {
    && history == Suffix(EventsOf(log), replayBuffer)
    && (isClosed <==> Stop in log)
    && (forall i, j :: 0 <= i < j < |log| && log[i] == Stop ==> log[j] != Stop)
  }

  /** What a queue was offered: the start, then the announcements of its subscription. */
  ghost predicate Owes(replayBuffer: nat, log: seq<Item>, k: Queue) {
    && k.from <= |log|
    && (Stop in log[..k.from] ==> k.upto == Some(k.from))
    && match k.upto
       case None => k.owed == StartFor(replayBuffer, log[..k.from]) + log[k.from..]
       case Some(n) =>
         k.from <= n <= |log| && k.owed == StartFor(replayBuffer, log[..k.from]) + log[k.from..n]
  }

  /** What a queue took of what it was offered; it never drops one of the first 512 items. */
  ghost predicate Delivered(k: Queue) {
    Took(k.Stream(), k.owed, k.dropped)
  }

  ghost predicate Took(stream: seq<Item>, owed: seq<Item>, dropped: bool) {
    && IsSubsequence(stream, owed)
    && (!dropped ==> stream == owed)
    && (dropped ==> |owed| > QUEUE_SIZE)
  }

  lemma TopicAnnounced(replayBuffer: nat, log: seq<Item>, history: seq<Event>, isClosed: bool, x: Item)
    requires TopicOk(replayBuffer, log, history, isClosed) && (x == Stop ==> !isClosed)
    ensures TopicOk(replayBuffer, log + [x],
                    if x.Ev? then Suffix(history + [x.event], replayBuffer) else history,
                    isClosed || x == Stop)
  {
    EventsAppend(log, x);
    if x.Ev? {
      SuffixAppend(EventsOf(log), x.event, replayBuffer);
    }
    assert Stop in log + [x] <==> Stop in log || x == Stop;
    forall i, j | 0 <= i < j < |log + [x]| && (log + [x])[i] == Stop
      ensures (log + [x])[j] != Stop
    {
      assert log[i] == Stop;
    }
  }

  lemma EventsAppend(log: seq<Item>, x: Item)
    ensures EventsOf(log + [x]) == EventsOf(log) + (if x.Ev? then [x.event] else [])
  {
    assert (log + [x])[..|log|] == log;
  }

  /** Appending to the bounded suffix and cutting it again gives the longer history's suffix. */
  lemma SuffixAppend(events: seq<Event>, e: Event, n: nat)
    ensures Suffix(Suffix(events, n) + [e], n) == Suffix(events + [e], n)
  {
  }

  lemma DeliveredPut(k: Queue, x: Item)
    requires Delivered(k)
    ensures Delivered(Put(k, x))
  {
    assert k.received + (k.items + [x]) == k.Stream() + [x];
    TookOrDropped(k.Stream(), k.owed, k.dropped, x, |k.items| < QUEUE_SIZE);
  }

  lemma TookOrDropped(stream: seq<Item>, owed: seq<Item>, dropped: bool, x: Item, room: bool)
    requires Took(stream, owed, dropped) && (room || |stream| >= QUEUE_SIZE)
    ensures Took(if room then stream + [x] else stream, owed + [x], dropped || !room)
  {
    SubsequenceExtends(stream, owed, x);
    SubsequenceShorter(stream, owed);
  }

  lemma DeliveredGet(k: Queue)
    requires Delivered(k) && k.items != []
    ensures Delivered(k.Taken())
  {
    assert (k.received + [k.items[0]]) + k.items[1..] == k.Stream();
  }

  lemma OwesAnnounced(replayBuffer: nat, log: seq<Item>, k: Queue, x: Item)
    requires Owes(replayBuffer, log, k)
    ensures Owes(replayBuffer, log + [x], if k.upto.None? then Put(k, x) else k)
  {
    var more := log + [x];
    assert more[..k.from] == log[..k.from];
    if k.upto.None? {
      assert more[k.from..] == log[k.from..] + [x];
      var start := StartFor(replayBuffer, log[..k.from]);
      assert (start + log[k.from..]) + [x] == start + (log[k.from..] + [x]);
    } else {
      assert more[k.from..k.upto.value] == log[k.from..k.upto.value];
    }
  }

  lemma OwesEnded(replayBuffer: nat, log: seq<Item>, k: Queue)
    requires Owes(replayBuffer, log, k) && k.upto.None?
    ensures Owes(replayBuffer, log, k.(upto := Some(|log|)))
  {
    assert log[k.from..|log|] == log[k.from..];
  }

  /** A new queue was offered the replay, and the sentinel if the task is closed. */
  lemma NewQueueOwes(replayBuffer: nat, log: seq<Item>, history: seq<Event>, isClosed: bool, t: Task)
    requires TopicOk(replayBuffer, log, history, isClosed)
    ensures Owes(replayBuffer, log, NewQueue(t, history, isClosed, |log|))
  {
    assert log[..|log|] == log && log[|log|..] == [] && log[|log|..|log|] == [];
    var start := StartFor(replayBuffer, log);
    assert start == Items(history) + (if isClosed then [Stop] else []);
    assert start + [] == start && Items(history) + [] == Items(history);
  }

  lemma NewQueueDelivers(history: seq<Event>, isClosed: bool, t: Task, n: nat)
    ensures Delivered(NewQueue(t, history, isClosed, n))
  {
    var replayed := Items(history);
    var q := Queue(t, Replayed(history), [], |history| > QUEUE_SIZE, replayed, n, None);
    assert replayed[..|replayed|] == replayed;
    PrefixIsSubsequence(replayed, |Replayed(history)|);
    assert q.Stream() == Replayed(history);
    DeliveredPut(q, Stop);
    var k := Put(q, Stop);
    assert k.(upto := Some(n)).Stream() == k.Stream();
  }

  lemma NewQueueOk(replayBuffer: nat, log: seq<Item>, history: seq<Event>, isClosed: bool, t: Task)
    requires TopicOk(replayBuffer, log, history, isClosed)
    ensures var k := NewQueue(t, history, isClosed, |log|);
      Owes(replayBuffer, log, k) && Delivered(k) && (k.upto.None? <==> !isClosed)
  {
    NewQueueOwes(replayBuffer, log, history, isClosed, t);
    NewQueueDelivers(history, isClosed, t, |log|);
  }

  // ---- Invariants of the bus ----

  ghost predicate TaskOk(b: Bus, t: Task) {
    && TopicOk(b.replayBuffer, LogOf(b, t), HistoryOf(b, t), t in b.closed)
    && forall q :: q in SubscribersOf(b, t) ==> q in b.queues && b.queues[q].task == t
  }

  /** A queue is registered with its task exactly as long as its subscription lasts. */
  ghost predicate QueueOk(b: Bus, q: QueueId)
    requires q in b.queues
  {
    var k := b.queues[q];
    && Owes(b.replayBuffer, LogOf(b, k.task), k)
    && Delivered(k)
    && (k.upto.None? <==> q in SubscribersOf(b, k.task))
  }

  ghost predicate Sound(b: Bus) {
    && (forall t :: TaskOk(b, t))
    && (forall q :: q in b.queues ==> QueueOk(b, q))
  }

  /** `c` is `b` after `x` was announced for task `t`. */
  ghost predicate Announced(b: Bus, c: Bus, t: Task, x: Item) {
    && c.replayBuffer == b.replayBuffer && c.subscribers == b.subscribers
    && c.queues == PutAll(b.queues, SubscribersOf(b, t), x)
    && c.log == b.log[t := LogOf(b, t) + [x]]
    && c.closed == (if x == Stop then b.closed + {t} else b.closed)
    && c.history == (if x.Ev? then b.history[t := Suffix(HistoryOf(b, t) + [x.event], b.replayBuffer)] else b.history)
  }

  lemma AnnounceKeepsTask(b: Bus, c: Bus, t: Task, x: Item, u: Task)
    requires Announced(b, c, t, x) && TaskOk(b, u) && (x == Stop ==> t !in b.closed)
    ensures TaskOk(c, u)
  {
    assert SubscribersOf(c, u) == SubscribersOf(b, u);
    forall q | q in SubscribersOf(c, u)
      ensures q in c.queues && c.queues[q].task == u
    {
      assert q in b.queues && b.queues[q].task == u;
    }
    if u == t {
      TopicAnnounced(b.replayBuffer, LogOf(b, t), HistoryOf(b, t), t in b.closed, x);
      assert LogOf(c, t) == LogOf(b, t) + [x];
    } else {
      assert LogOf(c, u) == LogOf(b, u) && HistoryOf(c, u) == HistoryOf(b, u);
    }
  }

  /** An announcement reaches exactly the registered queues of its task. */
  lemma AnnounceKeepsQueue(b: Bus, c: Bus, t: Task, x: Item, q: QueueId)
    requires Announced(b, c, t, x) && TaskOk(b, t) && q in b.queues && QueueOk(b, q)
    ensures q in c.queues && QueueOk(c, q)
  {
    if b.queues[q].task == t {
      AnnounceKeepsOwnQueue(b, c, t, x, q);
    } else {
      AnnounceKeepsOtherQueue(b, c, t, x, q);
    }
  }

  lemma AnnounceKeepsOwnQueue(b: Bus, c: Bus, t: Task, x: Item, q: QueueId)
    requires Announced(b, c, t, x) && q in b.queues && QueueOk(b, q) && b.queues[q].task == t
    ensures q in c.queues && QueueOk(c, q)
  {
    var k := b.queues[q];
    assert LogOf(c, t) == LogOf(b, t) + [x] && SubscribersOf(c, t) == SubscribersOf(b, t);
    assert c.queues[q] == if k.upto.None? then Put(k, x) else k;
    OwesAnnounced(b.replayBuffer, LogOf(b, t), k, x);
    DeliveredPut(k, x);
  }

  lemma AnnounceKeepsOtherQueue(b: Bus, c: Bus, t: Task, x: Item, q: QueueId)
    requires Announced(b, c, t, x) && TaskOk(b, t) && q in b.queues && QueueOk(b, q) && b.queues[q].task != t
    ensures q in c.queues && QueueOk(c, q)
  {
    var u := b.queues[q].task;
    assert q !in SubscribersOf(b, t);
    assert c.queues[q] == b.queues[q] && LogOf(c, u) == LogOf(b, u) && SubscribersOf(c, u) == SubscribersOf(b, u);
  }

  lemma AnnounceKeepsSound(b: Bus, c: Bus, t: Task, x: Item)
    requires Sound(b) && Announced(b, c, t, x) && (x == Stop ==> t !in b.closed)
    ensures Sound(c)
  {
    forall u
      ensures TaskOk(c, u)
    {
      assert TaskOk(b, u);
      AnnounceKeepsTask(b, c, t, x, u);
    }
    forall q | q in c.queues
      ensures QueueOk(c, q)
    {
      assert QueueOk(b, q) && TaskOk(b, t);
      AnnounceKeepsQueue(b, c, t, x, q);
    }
  }

  lemma PublishKeepsSound(b: Bus, t: Task, e: Event)
    requires Sound(b)
    ensures Sound(Publish(b, t, e))
  {
    AnnounceKeepsSound(b, Publish(b, t, e), t, Ev(e));
  }

  lemma CloseKeepsSound(b: Bus, t: Task)
    requires Sound(b)
    ensures Sound(Close(b, t))
  {
    if t !in b.closed {
      AnnounceKeepsSound(b, Close(b, t), t, Stop);
    }
  }

  /** `c` differs from `b` only in queue `q` and in which task `q` is registered with. */
  ghost predicate OnlyQueueChanged(b: Bus, c: Bus, q: QueueId) {
    && c.replayBuffer == b.replayBuffer && c.history == b.history && c.closed == b.closed && c.log == b.log
    && q in c.queues
    && (forall p :: p != q ==> SameQueue(b, c, p))
    && (forall u, p :: p != q ==> (p in SubscribersOf(c, u) <==> p in SubscribersOf(b, u)))
    && (forall u :: q in SubscribersOf(c, u) ==> u == c.queues[q].task)
  }

  ghost predicate SameQueue(b: Bus, c: Bus, p: QueueId) {
    (p in c.queues <==> p in b.queues) && (p in b.queues ==> c.queues[p] == b.queues[p])
  }

  lemma OneQueueChanges(b: Bus, c: Bus, q: QueueId)
    requires Sound(b) && OnlyQueueChanged(b, c, q) && QueueOk(c, q)
    ensures Sound(c)
  {
    forall u
      ensures TaskOk(c, u)
    {
      OtherRegistrationsKeepTask(b, c, q, u);
    }
    forall p | p in c.queues
      ensures QueueOk(c, p)
    {
      if p != q {
        OtherQueueKeeps(b, c, q, p);
      }
    }
  }

  lemma OtherRegistrationsKeepTask(b: Bus, c: Bus, q: QueueId, u: Task)
    requires Sound(b) && OnlyQueueChanged(b, c, q)
    ensures TaskOk(c, u)
  {
    assert TaskOk(b, u);
    forall p | p in SubscribersOf(c, u)
      ensures p in c.queues && c.queues[p].task == u
    {
      if p != q {
        assert p in SubscribersOf(b, u);
        assert SameQueue(b, c, p);
      }
    }
  }

  lemma OtherQueueKeeps(b: Bus, c: Bus, q: QueueId, p: QueueId)
    requires Sound(b) && OnlyQueueChanged(b, c, q) && p in c.queues && p != q
    ensures QueueOk(c, p)
  {
    assert SameQueue(b, c, p);
    assert QueueOk(b, p);
  }

  /** In a sound bus a queue is registered with no task but its own. */
  lemma RegisteredOnce(b: Bus, q: QueueId, u: Task)
    requires Sound(b) && q in SubscribersOf(b, u)
    ensures q in b.queues && b.queues[q].task == u
  {
    assert TaskOk(b, u);
  }

  ghost predicate RegisteredOnlyWith(b: Bus, q: QueueId, t: Task) {
    forall u :: q in SubscribersOf(b, u) ==> u == t
  }

  lemma RegisteredWithOwnTask(b: Bus, q: QueueId)
    requires Sound(b) && q in b.queues
    ensures RegisteredOnlyWith(b, q, b.queues[q].task)
  {
    forall u | q in SubscribersOf(b, u)
      ensures u == b.queues[q].task
    {
      RegisteredOnce(b, q, u);
    }
  }

  lemma SubscribeKeepsSound(b: Bus, t: Task, q: QueueId)
    requires Sound(b)
    ensures Sound(Subscribe(b, t, q))
  {
    if q !in b.queues {
      assert TaskOk(b, t);
      NewQueueOk(b.replayBuffer, LogOf(b, t), HistoryOf(b, t), t in b.closed, t);
      var k := NewQueue(t, HistoryOf(b, t), t in b.closed, |LogOf(b, t)|);
      WithQueueKeepsSound(b, t, q, k, t !in b.closed);
    }
  }

  lemma WithQueueKeepsSound(b: Bus, t: Task, q: QueueId, k: Queue, register: bool)
    requires Sound(b) && q !in b.queues
    requires k.task == t && Owes(b.replayBuffer, LogOf(b, t), k) && Delivered(k) && (k.upto.None? <==> register)
    ensures Sound(WithQueue(b, t, q, k, register))
  {
    var c := WithQueue(b, t, q, k, register);
    forall u
      ensures q !in SubscribersOf(b, u)
    {
      if q in SubscribersOf(b, u) {
        RegisteredOnce(b, q, u);
      }
    }
    WithQueueChangesOneQueue(b, t, q, k, register);
    assert LogOf(c, t) == LogOf(b, t);
    assert QueueOk(c, q);
    OneQueueChanges(b, c, q);
  }

  lemma WithQueueChangesOneQueue(b: Bus, t: Task, q: QueueId, k: Queue, register: bool)
    requires k.task == t && q !in b.queues && forall u :: q !in SubscribersOf(b, u)
    ensures OnlyQueueChanged(b, WithQueue(b, t, q, k, register), q)
    ensures q in SubscribersOf(WithQueue(b, t, q, k, register), t) <==> register
  {
    var c := WithQueue(b, t, q, k, register);
    assert forall u ::
      SubscribersOf(c, u) == if u == t && register then SubscribersOf(b, u) + {q} else SubscribersOf(b, u);
  }

  lemma UnsubscribeKeepsSound(b: Bus, t: Task, q: QueueId)
    requires Sound(b)
    ensures Sound(Unsubscribe(b, t, q))
  {
    if q in SubscribersOf(b, t) && q in b.queues {
      RegisteredOnce(b, q, t);
      UnsubscribedQueueOk(b, t, q);
      RegisteredWithOwnTask(b, q);
      UnsubscribeChangesOneQueue(b, t, q);
      OneQueueChanges(b, Unsubscribe(b, t, q), q);
    }
  }

  lemma UnsubscribeRegistration(b: Bus, t: Task, q: QueueId, u: Task)
    requires q in SubscribersOf(b, t) && q in b.queues
    ensures SubscribersOf(Unsubscribe(b, t, q), u) == SubscribersOf(b, u) - (if u == t then {q} else {})
  {
  }

  lemma UnsubscribedQueueOk(b: Bus, t: Task, q: QueueId)
    requires Sound(b) && q in SubscribersOf(b, t) && q in b.queues && b.queues[q].task == t
    ensures QueueOk(Unsubscribe(b, t, q), q)
  {
    assert QueueOk(b, q);
    OwesEnded(b.replayBuffer, LogOf(b, t), b.queues[q]);
    UnsubscribeRegistration(b, t, q, t);
    var k := b.queues[q];
    assert k.(upto := Some(|LogOf(b, t)|)).Stream() == k.Stream();
  }

  lemma UnsubscribeChangesOneQueue(b: Bus, t: Task, q: QueueId)
    requires q in SubscribersOf(b, t) && q in b.queues && RegisteredOnlyWith(b, q, t)
    ensures OnlyQueueChanged(b, Unsubscribe(b, t, q), q)
  {
    forall u
      ensures SubscribersOf(Unsubscribe(b, t, q), u) == SubscribersOf(b, u) - {q}
    {
      UnsubscribeRegistration(b, t, q, u);
    }
  }

  lemma GetKeepsSound(b: Bus, q: QueueId)
    requires Sound(b)
    ensures Sound(Get(b, q))
  {
    if q in b.queues && b.queues[q].items != [] {
      GottenQueueOk(b, q);
      RegisteredWithOwnTask(b, q);
      GetChangesOneQueue(b, q);
      OneQueueChanges(b, Get(b, q), q);
    }
  }

  lemma GottenQueueOk(b: Bus, q: QueueId)
    requires Sound(b) && q in b.queues && b.queues[q].items != []
    ensures QueueOk(Get(b, q), q)
  {
    assert QueueOk(b, q);
    GetKeepsQueue(b, q);
  }

  lemma GetKeepsQueue(b: Bus, q: QueueId)
    requires q in b.queues && b.queues[q].items != [] && QueueOk(b, q)
    ensures QueueOk(Get(b, q), q)
  {
    var k := b.queues[q];
    DeliveredGet(k);
    OwesGet(b.replayBuffer, LogOf(b, k.task), k);
    assert LogOf(Get(b, q), k.task) == LogOf(b, k.task);
    assert SubscribersOf(Get(b, q), k.task) == SubscribersOf(b, k.task);
  }

  lemma OwesGet(replayBuffer: nat, log: seq<Item>, k: Queue)
    requires Owes(replayBuffer, log, k) && k.items != []
    ensures Owes(replayBuffer, log, k.Taken())
  {
  }

  lemma GetChangesOneQueue(b: Bus, q: QueueId)
    requires q in b.queues && b.queues[q].items != [] && RegisteredOnlyWith(b, q, b.queues[q].task)
    ensures OnlyQueueChanged(b, Get(b, q), q)
  {
    var c := Get(b, q);
    assert forall u :: SubscribersOf(c, u) == SubscribersOf(b, u);
  }

  lemma StepKeepsReplayBuffer(b: Bus, s: Step)
    ensures Apply(b, s).replayBuffer == b.replayBuffer
  {
  }

  lemma EmptyIsSound(replayBuffer: nat)
    ensures Sound(Empty(replayBuffer))
  {
  }

  lemma StepKeepsSound(b: Bus, s: Step)
    requires Sound(b)
    ensures Sound(Apply(b, s))
  {
    match s
    case DoPublish(t, e) => PublishKeepsSound(b, t, e);
    case DoClose(t) => CloseKeepsSound(b, t);
    case DoSubscribe(t, q) => SubscribeKeepsSound(b, t, q);
    case DoUnsubscribe(t, q) => UnsubscribeKeepsSound(b, t, q);
    case DoGet(q) => GetKeepsSound(b, q);
  }

  lemma {:induction false} RunIsSound(replayBuffer: nat, steps: seq<Step>)
    ensures Sound(Run(replayBuffer, steps)) && Run(replayBuffer, steps).replayBuffer == replayBuffer
  {
    if steps == [] {
      EmptyIsSound(replayBuffer);
    } else {
      var before := Run(replayBuffer, steps[..|steps| - 1]);
      RunIsSound(replayBuffer, steps[..|steps| - 1]);
      StepKeepsSound(before, steps[|steps| - 1]);
      StepKeepsReplayBuffer(before, steps[|steps| - 1]);
    }
  }

  // ---- The history of calls ----

  /** The events published for a task, in order. */
  ghost function PublishedIn(steps: seq<Step>, t: Task): seq<Event> {
    if steps == [] then []
    else
      var s := steps[|steps| - 1];
      PublishedIn(steps[..|steps| - 1], t) + (if s.DoPublish? && s.task == t then [s.event] else [])
  }

  /** Everything announced for a task: its events, and its first close. */
  ghost function AnnouncedIn(steps: seq<Step>, t: Task): seq<Item> {
    if steps == [] then []
    else
      var before, s := AnnouncedIn(steps[..|steps| - 1], t), steps[|steps| - 1];
      if s.DoPublish? && s.task == t then before + [Ev(s.event)]
      else if s == DoClose(t) && Stop !in before then before + [Stop]
      else before
  }

  lemma {:induction false} AnnouncedMeans(steps: seq<Step>, t: Task)
    ensures EventsOf(AnnouncedIn(steps, t)) == PublishedIn(steps, t)
    ensures Stop in AnnouncedIn(steps, t) <==> DoClose(t) in steps
  {
    if steps != [] {
      var init, s := steps[..|steps| - 1], steps[|steps| - 1];
      assert steps == init + [s];
      AnnouncedMeans(init, t);
      EventsAppend(AnnouncedIn(init, t), if s.DoPublish? then Ev(s.event) else Stop);
    }
  }

  lemma StepAndLog(b: Bus, s: Step, t: Task)
    ensures LogOf(Apply(b, s), t) == LogOf(b, t) +
      if s.DoPublish? && s.task == t then [Ev(s.event)]
      else if s == DoClose(t) && t !in b.closed then [Stop] else []
  {
  }

  /** The log of a task is what the calls announced, whether or not anyone listened. */
  lemma {:induction false} LogIsAnnounced(replayBuffer: nat, steps: seq<Step>, t: Task)
    ensures LogOf(Run(replayBuffer, steps), t) == AnnouncedIn(steps, t)
  {
    if steps != [] {
      var init := steps[..|steps| - 1];
      LogIsAnnounced(replayBuffer, init, t);
      RunIsSound(replayBuffer, init);
      assert TaskOk(Run(replayBuffer, init), t);
      StepAndLog(Run(replayBuffer, init), steps[|steps| - 1], t);
    }
  }

  /** A task is closed if and only if some call closed it. */
  lemma ClosedByCall(replayBuffer: nat, steps: seq<Step>, t: Task)
    ensures t in Run(replayBuffer, steps).closed <==> DoClose(t) in steps
  {
    LogIsAnnounced(replayBuffer, steps, t);
    AnnouncedMeans(steps, t);
    RunIsSound(replayBuffer, steps);
    assert TaskOk(Run(replayBuffer, steps), t);
  }

  lemma {:induction false} PublishedSplits(steps: seq<Step>, i: nat, t: Task)
    requires i <= |steps|
    ensures PublishedIn(steps, t) == PublishedIn(steps[..i], t) + PublishedIn(steps[i..], t)
  {
    if i == |steps| {
      assert steps[..i] == steps;
    } else {
      var init := steps[..|steps| - 1];
      PublishedSplits(init, i, t);
      assert init[..i] == steps[..i] && steps[i..][..|steps[i..]| - 1] == init[i..];
    }
  }

  lemma {:induction false} AnnouncedGrows(steps: seq<Step>, i: nat, t: Task)
    requires i <= |steps|
    ensures AnnouncedIn(steps[..i], t) <= AnnouncedIn(steps, t)
  {
    if i == |steps| {
      assert steps[..i] == steps;
    } else {
      var init := steps[..|steps| - 1];
      AnnouncedGrows(init, i, t);
      assert init[..i] == steps[..i];
    }
  }

  /** On every run the replay buffer of a task holds the newest of its published events: all of
      them up to the bound, and the last ones beyond it. */
  lemma ReplayIsBoundedSuffix(replayBuffer: nat, steps: seq<Step>, t: Task)
    ensures HistoryOf(Run(replayBuffer, steps), t) == Newest(PublishedIn(steps, t), replayBuffer)
  {
    RunIsSound(replayBuffer, steps);
    assert TaskOk(Run(replayBuffer, steps), t);
    LogIsAnnounced(replayBuffer, steps, t);
    AnnouncedMeans(steps, t);
    NewestIsSuffix(PublishedIn(steps, t), replayBuffer);
  }

  /** The last `n` events of a list, or all if there are fewer. */
  ghost function Newest(events: seq<Event>, n: nat): seq<Event> {
    if n == 0 || events == [] then []
    else Newest(events[..|events| - 1], n - 1) + [events[|events| - 1]]
  }

  lemma {:induction false} NewestIsSuffix(events: seq<Event>, n: nat)
    ensures Newest(events, n) == Suffix(events, n)
    ensures |Newest(events, n)| == if |events| <= n then |events| else n
  {
    if n > 0 && events != [] {
      var init, last := events[..|events| - 1], events[|events| - 1];
      NewestIsSuffix(init, n - 1);
      if |events| <= n {
        assert init + [last] == events;
      } else {
        assert init[|init| - (n - 1)..] + [last] == events[|events| - n..];
      }
    }
  }

  lemma HistoryTakes(replayBuffer: nat, steps: seq<Step>, t: Task, e: Event)
    ensures Suffix(HistoryOf(Run(replayBuffer, steps), t) + [e], replayBuffer)
         == Newest(PublishedIn(steps, t) + [e], replayBuffer)
  {
    ReplayIsBoundedSuffix(replayBuffer, steps, t);
    NewestIsSuffix(PublishedIn(steps, t), replayBuffer);
    NewestIsSuffix(PublishedIn(steps, t) + [e], replayBuffer);
    SuffixAppend(PublishedIn(steps, t), e, replayBuffer);
  }

  // ---- Subscriptions ----

  /** Call `i` subscribes a new queue to the task. */
  ghost predicate SubscribesAt(steps: seq<Step>, i: nat, t: Task, q: QueueId) {
    i < |steps| && steps[i] == DoSubscribe(t, q) && !UsedIn(steps[..i], q)
  }

  ghost predicate UsedIn(steps: seq<Step>, q: QueueId) {
    exists t :: DoSubscribe(t, q) in steps
  }

  /** The call that ends the subscription made by call `i`, if one does. */
  ghost function EndOf(steps: seq<Step>, i: nat, t: Task, q: QueueId): (j: Option<nat>)
    ensures j.Some? ==> i < j.value < |steps|
  {
    if |steps| <= i + 1 then None
    else
      var earlier := EndOf(steps[..|steps| - 1], i, t, q);
      if earlier.Some? then earlier
      else if steps[|steps| - 1] == DoUnsubscribe(t, q) then Some(|steps| - 1)
      else None
  }

  lemma {:induction false} QueuesAreSubscribed(replayBuffer: nat, steps: seq<Step>, q: QueueId)
    ensures q in Run(replayBuffer, steps).queues <==> UsedIn(steps, q)
  {
    if steps != [] {
      var init, s := steps[..|steps| - 1], steps[|steps| - 1];
      assert steps == init + [s];
      QueuesAreSubscribed(replayBuffer, init, q);
      if UsedIn(init, q) {
        var t :| DoSubscribe(t, q) in init;
        assert DoSubscribe(t, q) in steps;
      }
      if s.DoSubscribe? && s.q == q {
        assert DoSubscribe(s.task, q) in steps;
      }
    }
  }

  /** The queue is registered with no task but its own, and with that one until its subscription ends. */
  ghost predicate IsRegistered(b: Bus, q: QueueId)
    requires q in b.queues
  {
    var k := b.queues[q];
    RegisteredOnlyWith(b, q, k.task) && (k.upto.None? <==> q in SubscribersOf(b, k.task))
  }

  lemma SoundIsRegistered(b: Bus, q: QueueId)
    requires Sound(b) && q in b.queues
    ensures IsRegistered(b, q)
  {
    RegisteredWithOwnTask(b, q);
    assert QueueOk(b, q);
  }

  /** A step ends a subscription only by unsubscribing its queue from its task. */
  lemma StepAndSubscription(b: Bus, s: Step, q: QueueId)
    requires q in b.queues && IsRegistered(b, q)
    ensures var c, k := Apply(b, s), b.queues[q];
      && q in c.queues && c.queues[q].task == k.task && c.queues[q].from == k.from
      && c.queues[q].upto ==
           if s == DoUnsubscribe(k.task, q) && k.upto.None? then Some(|LogOf(b, k.task)|) else k.upto
  {
  }

  /** The subscription of a queue as the calls tell it. */
  ghost predicate SubscriptionIs(steps: seq<Step>, i: nat, t: Task, q: QueueId, k: Queue)
    requires i < |steps|
  {
    && k.task == t && k.from == |AnnouncedIn(steps[..i], t)|
    && k.upto ==
         if DoClose(t) in steps[..i] then Some(k.from)
         else
           var j := EndOf(steps, i, t, q);
           if j.Some? then Some(|AnnouncedIn(steps[..j.value], t)|) else None
  }

  lemma SubscriptionStarts(replayBuffer: nat, steps: seq<Step>, i: nat, t: Task, q: QueueId)
    requires SubscribesAt(steps, i, t, q) && i + 1 == |steps|
    ensures HasSubscription(Run(replayBuffer, steps), steps, i, t, q)
  {
    var b := Run(replayBuffer, steps[..i]);
    QueuesAreSubscribed(replayBuffer, steps[..i], q);
    LogIsAnnounced(replayBuffer, steps[..i], t);
    ClosedByCall(replayBuffer, steps[..i], t);
    assert Run(replayBuffer, steps) == Subscribe(b, t, q);
  }

  /** The queue exists in the bus and its subscription is as the calls tell it. */
  ghost predicate HasSubscription(b: Bus, steps: seq<Step>, i: nat, t: Task, q: QueueId)
    requires i < |steps|
  {
    q in b.queues && SubscriptionIs(steps, i, t, q, b.queues[q])
  }

  lemma SubscriptionStep(b: Bus, steps: seq<Step>, i: nat, t: Task, q: QueueId)
    requires i + 1 < |steps| && q in b.queues && IsRegistered(b, q)
    requires var init := steps[..|steps| - 1]; HasSubscription(b, init, i, t, q) && LogOf(b, t) == AnnouncedIn(init, t)
    ensures HasSubscription(Apply(b, steps[|steps| - 1]), steps, i, t, q)
  {
    assert steps[..|steps| - 1][..i] == steps[..i];
    StepAndSubscription(b, steps[|steps| - 1], q);
    SubscriptionGoesOn(steps, i, t, q, b.queues[q], Apply(b, steps[|steps| - 1]).queues[q]);
  }

  lemma SubscriptionGoesOn(steps: seq<Step>, i: nat, t: Task, q: QueueId, before: Queue, after: Queue)
    requires i + 1 < |steps| && SubscriptionIs(steps[..|steps| - 1], i, t, q, before)
    requires after.task == before.task && after.from == before.from
    requires after.upto ==
      if steps[|steps| - 1] == DoUnsubscribe(t, q) && before.upto.None?
      then Some(|AnnouncedIn(steps[..|steps| - 1], t)|) else before.upto
    ensures SubscriptionIs(steps, i, t, q, after)
  {
    assert steps[..|steps| - 1][..i] == steps[..i];
    EndIsEarlier(steps, i, t, q);
  }

  lemma {:induction false} SubscriptionFollowsCalls(replayBuffer: nat, steps: seq<Step>, i: nat, t: Task, q: QueueId)
    requires SubscribesAt(steps, i, t, q)
    ensures HasSubscription(Run(replayBuffer, steps), steps, i, t, q)
  {
    if i + 1 == |steps| {
      SubscriptionStarts(replayBuffer, steps, i, t, q);
    } else {
      var init, last := steps[..|steps| - 1], steps[|steps| - 1];
      var b := Run(replayBuffer, init);
      assert init[..i] == steps[..i];
      SubscriptionFollowsCalls(replayBuffer, init, i, t, q);
      RunIsSound(replayBuffer, init);
      LogIsAnnounced(replayBuffer, init, t);
      SoundIsRegistered(b, q);
      SubscriptionStep(b, steps, i, t, q);
      assert HasSubscription(Apply(b, last), steps, i, t, q);
    }
  }

  lemma EndIsEarlier(steps: seq<Step>, i: nat, t: Task, q: QueueId)
    requires |steps| > 0
    ensures var init := steps[..|steps| - 1];
      forall j :: EndOf(init, i, t, q) == Some(j) ==>
        EndOf(steps, i, t, q) == Some(j) && init[..j] == steps[..j]
  {
  }

  // ---- Delivery ----

  /** What a subscriber is owed, read off the calls: the replay of the events before its
      subscription, and the announcements from there to its end. */
  ghost function OwedIn(replayBuffer: nat, steps: seq<Step>, i: nat, t: Task, q: QueueId): seq<Item>
    requires i < |steps|
  {
    var j := EndOf(steps, i, t, q);
    var start := Items(Newest(PublishedIn(steps[..i], t), replayBuffer));
    if DoClose(t) in steps[..i] then start + [Stop]
    else start + AnnouncedSince(steps, i, if j.Some? then j.value else |steps|, t)
  }

  /** Announcements by the calls from `i` up to `j`. */
  ghost function AnnouncedSince(steps: seq<Step>, i: nat, j: nat, t: Task): seq<Item>
    requires i <= j <= |steps|
  {
    var all, n := AnnouncedIn(steps[..j], t), |AnnouncedIn(steps[..i], t)|;
    if n <= |all| then all[n..] else []
  }

  lemma OwedAsCalled(replayBuffer: nat, steps: seq<Step>, i: nat, t: Task, q: QueueId, k: Queue)
    requires i < |steps| && SubscriptionIs(steps, i, t, q, k)
    requires Owes(replayBuffer, AnnouncedIn(steps, t), k)
    ensures k.owed == OwedIn(replayBuffer, steps, i, t, q)
  {
    var log, j := AnnouncedIn(steps, t), EndOf(steps, i, t, q);
    var end := if j.Some? then j.value else |steps|;
    AnnouncedGrows(steps, i, t);
    assert log[..k.from] == AnnouncedIn(steps[..i], t);
    StartAsCalled(replayBuffer, steps[..i], t);
    var start := StartFor(replayBuffer, log[..k.from]);
    if DoClose(t) in steps[..i] {
      assert log[k.from..k.from] == [] && start + [] == start;
    } else {
      AnnouncedBetween(steps, i, end, t);
      if j.None? {
        assert steps[..|steps|] == steps && log[k.from..] == log[k.from..|log|];
      }
    }
  }

  /** The replay a subscriber starts with, read off the calls before it. */
  lemma StartAsCalled(replayBuffer: nat, steps: seq<Step>, t: Task)
    ensures var replayed := Items(Newest(PublishedIn(steps, t), replayBuffer));
      StartFor(replayBuffer, AnnouncedIn(steps, t)) == if DoClose(t) in steps then replayed + [Stop] else replayed
  {
    AnnouncedMeans(steps, t);
    NewestIsSuffix(PublishedIn(steps, t), replayBuffer);
    var replayed := Items(Newest(PublishedIn(steps, t), replayBuffer));
    assert replayed + [] == replayed;
  }

  lemma AnnouncedBetween(steps: seq<Step>, i: nat, j: nat, t: Task)
    requires i <= j <= |steps|
    ensures var log, m, n := AnnouncedIn(steps, t), |AnnouncedIn(steps[..i], t)|, |AnnouncedIn(steps[..j], t)|;
      m <= n <= |log| && AnnouncedSince(steps, i, j, t) == log[m..n]
  {
    var log, m, n := AnnouncedIn(steps, t), |AnnouncedIn(steps[..i], t)|, |AnnouncedIn(steps[..j], t)|;
    AnnouncedGrows(steps, j, t);
    AnnouncedGrows(steps[..j], i, t);
    assert steps[..j][..i] == steps[..i];
    assert log[..n] == AnnouncedIn(steps[..j], t) && log[..n][m..] == log[m..n];
  }

  /** On every run a subscriber sees an ordered subsequence of what the calls made it owed, and
      exactly that unless it was owed more than 512 items and its queue filled. */
  lemma Delivery(replayBuffer: nat, steps: seq<Step>, i: nat, t: Task, q: QueueId)
    requires SubscribesAt(steps, i, t, q)
    ensures q in Run(replayBuffer, steps).queues
    ensures var k, owed := Run(replayBuffer, steps).queues[q], OwedIn(replayBuffer, steps, i, t, q);
      && k.task == t && k.owed == owed
      && IsSubsequence(k.Stream(), owed)
      && (!k.dropped || |owed| <= 512 ==> k.Stream() == owed)
  {
    RunIsSound(replayBuffer, steps);
    SubscriptionFollowsCalls(replayBuffer, steps, i, t, q);
    LogIsAnnounced(replayBuffer, steps, t);
    assert QueueOk(Run(replayBuffer, steps), q);
    OwedAsCalled(replayBuffer, steps, i, t, q, Run(replayBuffer, steps).queues[q]);
  }

  // ---- The sentinel ----

  /** A step that neither closes the task of the queue nor comes before its close leaves open
      whether the queue ever carried the sentinel. */
  lemma StepAndSentinel(b: Bus, s: Step, q: QueueId)
    requires q in b.queues && RegisteredOnlyWith(b, q, b.queues[q].task) && b.queues[q].task in b.closed
    ensures var c := Apply(b, s);
      && q in c.queues && c.queues[q].task == b.queues[q].task && c.queues[q].task in c.closed
      && (Stop in c.queues[q].Stream() <==> Stop in b.queues[q].Stream())
  {
    if s.DoGet? && s.q == q && b.queues[q].items != [] {
      var k := b.queues[q];
      assert (k.received + [k.items[0]]) + k.items[1..] == k.Stream();
    }
  }

  /** A subscriber registered when its task is closed gets the sentinel, then or ever, if and
      only if its queue has room at that moment: a full queue drops it, and closing again does
      nothing. */
  lemma {:induction false} SentinelIffRoom(replayBuffer: nat, steps: seq<Step>, k: nat, t: Task, q: QueueId)
    requires k < |steps| && steps[k] == DoClose(t) && t !in Run(replayBuffer, steps[..k]).closed
    requires q in SubscribersOf(Run(replayBuffer, steps[..k]), t) && q in Run(replayBuffer, steps[..k]).queues
    ensures var b, c := Run(replayBuffer, steps[..k]), Run(replayBuffer, steps);
      && q in c.queues && c.queues[q].task == t && t in c.closed
      && (Stop in c.queues[q].Stream() <==> |b.queues[q].items| < QUEUE_SIZE)
  {
    var init := steps[..|steps| - 1];
    if k == |init| {
      RunIsSound(replayBuffer, init);
      CloseOffersSentinel(Run(replayBuffer, init), t, q);
    } else {
      assert init[..k] == steps[..k];
      SentinelIffRoom(replayBuffer, init, k, t, q);
      RunIsSound(replayBuffer, init);
      RegisteredWithOwnTask(Run(replayBuffer, init), q);
      StepAndSentinel(Run(replayBuffer, init), steps[|steps| - 1], q);
    }
  }

  /** A subscriber that arrives after the close gets it iff its replay leaves room. */
  lemma LateSentinelIffRoom(b: Bus, t: Task, q: QueueId)
    requires q !in b.queues && t in b.closed
    ensures var c := Subscribe(b, t, q);
      q in c.queues && (Stop in c.queues[q].Stream() <==> |HistoryOf(b, t)| < QUEUE_SIZE)
  {
    var past := HistoryOf(b, t);
    var k := Queue(t, Replayed(past), [], |past| > QUEUE_SIZE, Items(past), |LogOf(b, t)|, None);
    assert k.Stream() == Replayed(past);
    PutAndStop(k);
    assert Subscribe(b, t, q).queues[q] == Put(k, Stop).(upto := Some(|LogOf(b, t)|));
  }

  lemma CloseOffersSentinel(b: Bus, t: Task, q: QueueId)
    requires Sound(b) && t !in b.closed && q in SubscribersOf(b, t) && q in b.queues
    ensures var c := Close(b, t);
      && q in c.queues && c.queues[q].task == t && t in c.closed
      && (Stop in c.queues[q].Stream() <==> |b.queues[q].items| < QUEUE_SIZE)
  {
    var k := b.queues[q];
    RegisteredOnce(b, q, t);
    assert TaskOk(b, t) && QueueOk(b, q);
    OwedWithoutStop(b.replayBuffer, LogOf(b, t), k);
    if Stop in k.Stream() {
      SubsequenceMembers(k.Stream(), k.owed, Stop);
    }
    assert Close(b, t).queues[q] == Put(k, Stop);
    PutAndStop(k);
  }

  lemma PutAndStop(k: Queue)
    requires Stop !in k.Stream()
    ensures Stop in Put(k, Stop).Stream() <==> |k.items| < QUEUE_SIZE
  {
    if |k.items| < QUEUE_SIZE {
      assert k.received + (k.items + [Stop]) == k.Stream() + [Stop];
      assert Stop in k.Stream() + [Stop];
    }
  }

  lemma OwedWithoutStop(replayBuffer: nat, log: seq<Item>, k: Queue)
    requires Owes(replayBuffer, log, k) && Stop !in log
    ensures Stop !in k.owed
  {
  }

  lemma {:induction false} SubsequenceMembers(a: seq<Item>, b: seq<Item>, x: Item)
    requires IsSubsequence(a, b) && x in a
    ensures x in b
  {
    var init, last := b[..|b| - 1], b[|b| - 1];
    if a[|a| - 1] == last {
      if x != last {
        assert a == a[..|a| - 1] + [last];
        SubsequenceMembers(a[..|a| - 1], init, x);
      }
    } else {
      SubsequenceMembers(a, init, x);
    }
  }

  /** Nothing was announced after the close. */
  ghost predicate StopIsLast(log: seq<Item>) {
    forall i :: 0 <= i < |log| - 1 ==> log[i] != Stop
  }

  lemma {:induction false} OnlyEvents(log: seq<Item>)
    requires Stop !in log
    ensures log == Items(EventsOf(log))
  {
    if log != [] {
      var init, x := log[..|log| - 1], log[|log| - 1];
      assert log == init + [x];
      OnlyEvents(init);
    }
  }

  lemma EventsThenStop(log: seq<Item>)
    requires StopIsLast(log)
    ensures log == Items(EventsOf(log)) + (if Stop in log then [Stop] else [])
  {
    if Stop in log {
      var init := log[..|log| - 1];
      assert log == init + [Stop];
      OnlyEvents(init);
    } else {
      OnlyEvents(log);
    }
  }

  /** No call publishes an event of the task after one that closes it. */
  ghost predicate NoneAfterClose(steps: seq<Step>, t: Task) {
    forall a, b :: 0 <= a < b < |steps| && steps[a] == DoClose(t) ==> !(steps[b].DoPublish? && steps[b].task == t)
  }

  lemma {:induction false} CloseIsLast(steps: seq<Step>, t: Task)
    requires NoneAfterClose(steps, t)
    ensures StopIsLast(AnnouncedIn(steps, t))
  {
    if steps != [] {
      var init, s := steps[..|steps| - 1], steps[|steps| - 1];
      CloseIsLast(init, t);
      AnnouncedMeans(init, t);
      if s.DoPublish? && s.task == t {
        assert DoClose(t) !in init;
      }
    }
  }

  /** On runs that never publish a task's event after closing it, a subscriber that nothing
      unsubscribes, and whose queue never fills, receives exactly the last
      min(replay buffer, n) of the n earlier events, then every later event in order, then
      one sentinel if and only if some call closed the task. */
  lemma ExactDelivery(replayBuffer: nat, steps: seq<Step>, i: nat, t: Task, q: QueueId)
    requires SubscribesAt(steps, i, t, q) && NoneAfterClose(steps, t)
    requires EndOf(steps, i, t, q).None? || DoClose(t) in steps[..i]
    ensures q in Run(replayBuffer, steps).queues
    ensures var k := Run(replayBuffer, steps).queues[q];
      var owed := Items(Newest(PublishedIn(steps[..i], t), replayBuffer))
                  + Items(PublishedIn(steps[i..], t))
                  + (if DoClose(t) in steps then [Stop] else []);
      !k.dropped || |owed| <= 512 ==> k.Stream() == owed
  {
    Delivery(replayBuffer, steps, i, t, q);
    ExactlyOwed(replayBuffer, steps, i, t, q);
  }

  lemma ExactlyOwed(replayBuffer: nat, steps: seq<Step>, i: nat, t: Task, q: QueueId)
    requires i < |steps| && NoneAfterClose(steps, t)
    requires EndOf(steps, i, t, q).None? || DoClose(t) in steps[..i]
    ensures OwedIn(replayBuffer, steps, i, t, q) ==
      Items(Newest(PublishedIn(steps[..i], t), replayBuffer))
      + Items(PublishedIn(steps[i..], t))
      + (if DoClose(t) in steps then [Stop] else [])
  {
    LaterAnnouncements(steps, i, t);
    var start, later := Items(Newest(PublishedIn(steps[..i], t), replayBuffer)), Items(PublishedIn(steps[i..], t));
    var stop := if DoClose(t) in steps then [Stop] else [];
    assert start + (later + stop) == start + later + stop;
    assert DoClose(t) in steps[..i] ==> later == [] && start + [] == start;
  }

  /** The announcements from call `i` on are the events published from there on, and the close. */
  lemma LaterAnnouncements(steps: seq<Step>, i: nat, t: Task)
    requires i < |steps| && NoneAfterClose(steps, t)
    ensures DoClose(t) in steps[..i] ==> DoClose(t) in steps && PublishedIn(steps[i..], t) == []
    ensures DoClose(t) !in steps[..i] ==>
      AnnouncedSince(steps, i, |steps|, t)
      == Items(PublishedIn(steps[i..], t)) + (if DoClose(t) in steps then [Stop] else [])
  {
    var log, n := AnnouncedIn(steps, t), |AnnouncedIn(steps[..i], t)|;
    AnnouncedGrows(steps, i, t);
    AnnouncedMeans(steps, t);
    AnnouncedMeans(steps[..i], t);
    CloseIsLast(steps, t);
    LogSplits(log, n);
    LaterEvents(steps, i, t);
    assert log[..n] == AnnouncedIn(steps[..i], t);
    if DoClose(t) in steps[..i] {
      assert log[n..] == [];
    } else {
      EventsThenStop(log[n..]);
      assert steps[..|steps|] == steps;
    }
  }

  lemma LaterEvents(steps: seq<Step>, i: nat, t: Task)
    requires i < |steps|
    ensures var log, n := AnnouncedIn(steps, t), |AnnouncedIn(steps[..i], t)|;
      n <= |log| && PublishedIn(steps[i..], t) == EventsOf(log[n..])
  {
    var log, n := AnnouncedIn(steps, t), |AnnouncedIn(steps[..i], t)|;
    AnnouncedGrows(steps, i, t);
    AnnouncedMeans(steps, t);
    AnnouncedMeans(steps[..i], t);
    PublishedSplits(steps, i, t);
    EventsSplit(log, n);
    assert log[..n] == AnnouncedIn(steps[..i], t);
    SameRest(PublishedIn(steps[..i], t), PublishedIn(steps[i..], t), EventsOf(log[n..]));
  }

  lemma SameRest(a: seq<Event>, b: seq<Event>, c: seq<Event>)
    requires a + b == a + c
    ensures b == c
  {
    assert b == (a + b)[|a|..] && c == (a + c)[|a|..];
  }

  lemma {:induction false} EventsSplit(log: seq<Item>, n: nat)
    requires n <= |log|
    ensures EventsOf(log) == EventsOf(log[..n]) + EventsOf(log[n..])
  {
    if n == |log| {
      assert log[..n] == log;
    } else {
      var init := log[..|log| - 1];
      EventsSplit(init, n);
      assert init[..n] == log[..n] && log[n..][..|log[n..]| - 1] == init[n..];
    }
  }

  lemma LogSplits(log: seq<Item>, n: nat)
    requires StopIsLast(log) && n <= |log|
    ensures Stop in log[..n] ==> n == |log|
    ensures Stop in log <==> Stop in log[..n] || Stop in log[n..]
    ensures StopIsLast(log[n..])
  {
    assert log == log[..n] + log[n..];
    if Stop in log[..n] {
      var i :| 0 <= i < n && log[..n][i] == Stop;
      assert log[i] == Stop;
    }
    forall i | 0 <= i < |log[n..]| - 1
      ensures log[n..][i] != Stop
    {
      assert log[n..][i] == log[n + i];
    }
  }

  // ---- The bus ----

  lemma RunExtends(replayBuffer: nat, steps: seq<Step>, s: Step)
    ensures Run(replayBuffer, steps + [s]) == Apply(Run(replayBuffer, steps), s)
  {
    assert (steps + [s])[..|steps|] == steps;
  }

  lemma SubscribersHaveQueues(replayBuffer: nat, steps: seq<Step>, t: Task)
    ensures SubscribersOf(Run(replayBuffer, steps), t) <= Run(replayBuffer, steps).queues.Keys
  {
    RunIsSound(replayBuffer, steps);
    assert TaskOk(Run(replayBuffer, steps), t);
  }

  /** The bus object. `steps` is its history of calls; its fields are always what the run of
      that history gives, so every property of runs holds of the object. */
  class BusService {
    const replayBuffer: nat
    var history: map<Task, seq<Event>>
    var subscribers: map<Task, set<QueueId>>
    var closed: set<Task>
    var queues: map<QueueId, seq<Item>>
    ghost var records: map<QueueId, Queue>
    ghost var log: map<Task, seq<Item>>
    ghost var steps: seq<Step>

    ghost function View(): Bus
      reads this
    {
      Bus(replayBuffer, history, subscribers, closed, records, log)
    }

    ghost predicate Valid()
      reads this
    {
      View() == Run(replayBuffer, steps) && Recorded(queues, records)
    }

    constructor (replayBuffer: nat)
      ensures Valid() && this.replayBuffer == replayBuffer && steps == []
    {
      this.replayBuffer := replayBuffer;
      history, subscribers, closed, queues, records, log := map[], map[], {}, map[], map[], map[];
      steps := [];
    }

    method PutToSubscribers(t: Task, x: Item)
      requires Valid()
      modifies this`queues, this`records
      ensures records == PutAll(old(records), SubscribersOf(old(View()), t), x)
      ensures Recorded(queues, records) && Offered(old(queues), queues, SubscribersOf(old(View()), t), x)
    {
      SubscribersHaveQueues(replayBuffer, steps, t);
      ghost var before, recorded := queues, records;
      var subs := if t in subscribers then subscribers[t] else {};
      queues, records := PutToEach(queues, records, subs, x);
      PutAllOffers(before, recorded, subs, x, queues);
    }

    /** The replay buffer of the task takes the event and drops its oldest beyond the bound. */
    method Remember(t: Task, e: Event)
      modifies this`history
      ensures history == old(history)[t := Suffix(HistoryOf(old(View()), t) + [e], replayBuffer)]
    {
      var buf := if t in history then history[t] else [];
      buf := buf + [e];
      if |buf| > replayBuffer {
        buf := buf[|buf| - replayBuffer..];
      }
      history := history[t := buf];
    }

    method Publish(t: Task, e: Event)
      requires Valid()
      modifies this
      ensures Valid() && steps == old(steps) + [DoPublish(t, e)]
      ensures history == old(history)[t := Newest(PublishedIn(old(steps), t) + [e], replayBuffer)]
      ensures Offered(old(queues), queues, SubscribersOf(old(View()), t), Ev(e))
    {
      RunExtends(replayBuffer, steps, DoPublish(t, e));
      HistoryTakes(replayBuffer, steps, t, e);
      ghost var before := View();
      PutToSubscribers(t, Ev(e));
      Remember(t, e);
      log := log[t := LogOf(before, t) + [Ev(e)]];
      steps := steps + [DoPublish(t, e)];
      assert View() == Apply(before, DoPublish(t, e));
    }

    method Close(t: Task)
      requires Valid()
      modifies this
      ensures Valid() && steps == old(steps) + [DoClose(t)]
      ensures t in closed
      ensures Offered(old(queues), queues, if t in old(closed) then {} else SubscribersOf(old(View()), t), Stop)
    {
      RunExtends(replayBuffer, steps, DoClose(t));
      ghost var before := View();
      if t !in closed {
        PutToSubscribers(t, Stop);
        closed := closed + {t};
        log := log[t := LogOf(before, t) + [Stop]];
      }
      steps := steps + [DoClose(t)];
      assert View() == Apply(before, DoClose(t));
    }

    /** The replay returned to a caller holds the newest of the events published so far. */
    method Replay(t: Task) returns (events: seq<Event>)
      requires Valid()
      ensures events == Newest(PublishedIn(steps, t), replayBuffer)
    {
      ReplayIsBoundedSuffix(replayBuffer, steps, t);
      events := if t in history then history[t] else [];
    }

    /** Adds a filled queue, and registers it unless the task is closed. */
    method AddQueue(t: Task, q: QueueId, items: seq<Item>, ghost record: Queue)
      requires Recorded(queues, records) && record.items == items
      modifies this`queues, this`records, this`subscribers
      ensures View() == WithQueue(old(View()), t, q, record, t !in closed) && Recorded(queues, records)
    {
      queues, records := queues[q := items], records[q := record];
      if t !in closed {
        subscribers := subscribers[t := (if t in subscribers then subscribers[t] else {}) + {q}];
      }
    }

    /** Subscribes with a new queue object; its id is one no queue has. */
    method Subscribe(t: Task, q: QueueId)
      requires Valid() && q !in queues
      modifies this
      ensures Valid() && steps == old(steps) + [DoSubscribe(t, q)]
    {
      RunExtends(replayBuffer, steps, DoSubscribe(t, q));
      ghost var before := View();
      var past := if t in history then history[t] else [];
      var items := Prefill(past, t in closed);
      ghost var record := NewQueue(t, past, t in closed, |LogOf(before, t)|);
      assert Apply(before, DoSubscribe(t, q)) == WithQueue(before, t, q, record, t !in closed);
      AddQueue(t, q, items, record);
      steps := steps + [DoSubscribe(t, q)];
    }

    method Unsubscribe(t: Task, q: QueueId)
      requires Valid()
      modifies this
      ensures Valid() && steps == old(steps) + [DoUnsubscribe(t, q)]
    {
      RunExtends(replayBuffer, steps, DoUnsubscribe(t, q));
      SubscribersHaveQueues(replayBuffer, steps, t);
      ghost var before := View();
      if t in subscribers && q in subscribers[t] {
        var subs := subscribers[t] - {q};
        subscribers := if subs == {} then subscribers - {t} else subscribers[t := subs];
        records := records[q := records[q].(upto := Some(|LogOf(before, t)|))];
      }
      steps := steps + [DoUnsubscribe(t, q)];
      assert View() == Apply(before, DoUnsubscribe(t, q));
    }

    /** The consumer's side of a queue. */
    method GetNext(q: QueueId) returns (x: Option<Item>)
      requires Valid() && q in queues
      modifies this
      ensures Valid() && steps == old(steps) + [DoGet(q)]
      ensures x == if old(queues)[q] == [] then None else Some(old(queues)[q][0])
    {
      RunExtends(replayBuffer, steps, DoGet(q));
      ghost var before := View();
      steps := steps + [DoGet(q)];
      if queues[q] == [] {
        return None;
      }
      x := Some(queues[q][0]);
      records := records[q := records[q].Taken()];
      queues := queues[q := queues[q][1..]];
      assert View() == Apply(before, DoGet(q));
    }
  }

  /** Each subscribed queue with room took the item at its end; no other queue changed. */
  ghost predicate Offered(before: map<QueueId, seq<Item>>, after: map<QueueId, seq<Item>>, subs: set<QueueId>,
                          x: Item) {
    && after.Keys == before.Keys
    && forall q :: q in before ==>
         after[q] == if q in subs && |before[q]| < 512 then before[q] + [x] else before[q]
  }

  lemma PutAllOffers(queues: map<QueueId, seq<Item>>, records: map<QueueId, Queue>, subs: set<QueueId>, x: Item,
                     filled: map<QueueId, seq<Item>>)
    requires Recorded(queues, records) && Recorded(filled, PutAll(records, subs, x))
    ensures Offered(queues, filled, subs, x)
  {
  }

  lemma PutAllStep(queues: map<QueueId, Queue>, done: set<QueueId>, q: QueueId, x: Item)
    requires q in queues && q !in done
    ensures PutAll(queues, done, x)[q] == queues[q]
    ensures PutAll(queues, done + {q}, x) == PutAll(queues, done, x)[q := Put(queues[q], x)]
  {
  }

  ghost predicate Recorded(queues: map<QueueId, seq<Item>>, records: map<QueueId, Queue>) {
    queues.Keys == records.Keys && forall q :: q in queues ==> records[q].items == queues[q]
  }

  /** The loop over the subscribers of a task: in any order it offers `x` once to each of
      them and to no other queue. */
  method PutToEach(queues: map<QueueId, seq<Item>>, ghost records: map<QueueId, Queue>, subs: set<QueueId>, x: Item)
    returns (filled: map<QueueId, seq<Item>>, ghost offered: map<QueueId, Queue>)
    requires Recorded(queues, records) && subs <= queues.Keys
    ensures offered == PutAll(records, subs, x) && Recorded(filled, offered)
  {
    filled, offered := queues, records;
    var todo := subs;
    while todo != {}
      invariant todo <= subs
      invariant offered == PutAll(records, subs - todo, x) && Recorded(filled, offered)
      decreases todo
    {
      var q :| q in todo;
      PutAllStep(records, subs - todo, q, x);
      if |filled[q]| < QUEUE_SIZE {
        filled := filled[q := filled[q] + [x]];
      }
      offered := offered[q := Put(offered[q], x)];
      assert (subs - todo) + {q} == subs - (todo - {q});
      todo := todo - {q};
    }
    assert subs - {} == subs;
  }

  /** The contents of a new queue. */
  method Prefill(history: seq<Event>, isClosed: bool) returns (items: seq<Item>)
    ensures forall t, n :: items == NewQueue(t, history, isClosed, n).items
  {
    items := [];
    for i := 0 to |history|
      invariant i <= QUEUE_SIZE && items == Items(history)[..i]
    {
      if |items| >= QUEUE_SIZE {
        break;
      }
      items := items + [Ev(history[i])];
    }
    assert Items(history)[..|history|] == Items(history);
    if isClosed {
      if |items| < QUEUE_SIZE {
        items := items + [Stop];
      }
    }
  }
}
