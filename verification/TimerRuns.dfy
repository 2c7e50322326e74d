/** Timer objects, the ordered index over them and the timerfd (src/muduo/net/Timer.h, TimerQueue.h). */
module Timers {

  type Addr = nat

  const UINTPTR_MAX := 0xFFFF_FFFF_FFFF_FFFF

  datatype Timer = Timer(expiration: int, interval: real, sequence: nat) {
    predicate Repeat() {
      interval > 0.0
    }

    /** addTime truncates the interval to whole microseconds. */
    function Restarted(now: int): Timer {
      if Repeat() then this.(expiration := now + (interval * 1000000.0).Floor)
      else this.(expiration := 0)
    }
  }

  /** `expiration` is the interval after `now`, short of it by less than a microsecond. */
  predicate OneIntervalLater(interval: real, now: int, expiration: int) {
    0.0 <= interval - (expiration - now) as real / 1000000.0 < 0.000001
  }

  lemma WholeMicroseconds(interval: real, now: int)
    ensures OneIntervalLater(interval, now, now + (interval * 1000000.0).Floor)
  {
    var x := interval * 1000000.0;
    assert x.Floor as real <= x < x.Floor as real + 1.0;
  }

  datatype Entry = Entry(when: int, timer: Addr)

  datatype ActiveTimer = ActiveTimer(timer: Addr, sequence: nat)

  datatype Alarm = Disarmed | Armed(deadline: int, armedAt: int)

  /** The relative time given to timerfd_settime at `clock`, as an absolute deadline. */
  function AlarmFor(expiration: int, clock: int): Alarm {
    var microseconds := if expiration - clock < 100 then 100 else expiration - clock;
    Armed(clock + microseconds, clock)
  }

  /** Order of std::pair<Timestamp, Timer*>. */
  predicate Earlier(a: Entry, b: Entry) {
    a.when < b.when || (a.when == b.when && a.timer < b.timer)
  }

  ghost predicate Sorted(ts: seq<Entry>) {
    forall i, j | 0 <= i < j < |ts| :: Earlier(ts[i], ts[j])
  }

  function Elems(ts: seq<Entry>): set<Entry> {
    set e | e in ts
  }

  function InsertEntry(ts: seq<Entry>, e: Entry): seq<Entry> {
    if ts == [] || Earlier(e, ts[0]) then [e] + ts else [ts[0]] + InsertEntry(ts[1..], e)
  }

  function EraseEntry(ts: seq<Entry>, e: Entry): seq<Entry> {
    if ts == [] then [] else if ts[0] == e then ts[1..] else [ts[0]] + EraseEntry(ts[1..], e)
  }

  /** How many entries come before (now, UINTPTR_MAX): std::set::lower_bound. */
  function ExpiredCount(ts: seq<Entry>, now: int): (n: nat)
    ensures n <= |ts|
  {
    if ts != [] && Earlier(ts[0], Entry(now, UINTPTR_MAX)) then 1 + ExpiredCount(ts[1..], now) else 0
  }

  lemma {:induction false} InsertKeepsOrder(ts: seq<Entry>, e: Entry)
    requires Sorted(ts) && e !in ts
    ensures Sorted(InsertEntry(ts, e))
    ensures Elems(InsertEntry(ts, e)) == Elems(ts) + {e}
    ensures InsertEntry(ts, e) != []
    ensures InsertEntry(ts, e)[0] == if ts == [] || Earlier(e, ts[0]) then e else ts[0]
  {
    if ts != [] && !Earlier(e, ts[0]) {
      var rest := ts[1..];
      InsertKeepsOrder(rest, e);
      var r := InsertEntry(rest, e);
      assert forall x :: x in r <==> x in Elems(r);
      assert forall x | x in rest :: Earlier(ts[0], x);
    }
  }

  lemma {:induction false} EraseKeepsOrder(ts: seq<Entry>, e: Entry)
    requires Sorted(ts)
    ensures Sorted(EraseEntry(ts, e))
    ensures Elems(EraseEntry(ts, e)) == Elems(ts) - {e}
    ensures EraseEntry(ts, e) != [] ==> !Earlier(EraseEntry(ts, e)[0], ts[0])
  {
    if ts != [] && ts[0] != e {
      var rest := ts[1..];
      EraseKeepsOrder(rest, e);
      var r := EraseEntry(rest, e);
      assert forall x :: x in r <==> x in Elems(r);
      assert forall x | x in rest :: Earlier(ts[0], x);
    }
  }

  lemma {:induction false} ExpiredSplit(ts: seq<Entry>, now: int)
    requires Sorted(ts) && forall e | e in ts :: e.timer < UINTPTR_MAX
    ensures var n := ExpiredCount(ts, now);
            && (forall i | 0 <= i < n :: ts[i].when <= now)
            && (forall i | n <= i < |ts| :: now < ts[i].when)
  {
    if ts != [] && Earlier(ts[0], Entry(now, UINTPTR_MAX)) {
      ExpiredSplit(ts[1..], now);
      var n := ExpiredCount(ts[1..], now);
      forall i | 0 <= i < n + 1 ensures ts[i].when <= now {
        if i > 0 { assert ts[i] == ts[1..][i - 1]; }
      }
      forall i | n + 1 <= i < |ts| ensures now < ts[i].when {
        assert ts[i] == ts[1..][i - 1];
      }
    }
  }

  lemma SplitElems(ts: seq<Entry>, n: nat)
    requires Sorted(ts) && n <= |ts|
    ensures Sorted(ts[..n]) && Sorted(ts[n..])
    ensures Elems(ts[..n]) + Elems(ts[n..]) == Elems(ts) && Elems(ts[..n]) !! Elems(ts[n..])
  {
  }
}

/**
 * The timer queue as a state machine over the calls made in its loop thread. A batch of expired
 * timers runs between Begin and End; callbacks may create, add and cancel timers in between.
 */
module TimerRuns {
  import opened Timers

  /** One execution of a timer's callback, in batch number `batch`, at that batch's `now`. */
  datatype Run = Run(sequence: nat, expiration: int, now: int, batch: nat, repeats: bool)

  datatype Queue = Queue(
    timers: seq<Entry>,             // pending timers by expiration
    active: set<ActiveTimer>,       // the same timers by address and sequence
    calling: bool,                  // inside a batch
    canceling: set<ActiveTimer>,    // ids cancelled during the batch
    heap: map<Addr, Timer>,         // live Timer objects
    queued: set<Addr>,               // created, not yet added in the loop thread
    now: int,                       // of the current batch
    toRun: seq<Entry>,              // expired timers whose callbacks have not run yet
    done: seq<Entry>,               // expired timers whose callbacks have run
    alarm: Alarm,                   // the timerfd
    history: History)

  datatype History = History(
    created: map<nat, Addr>,        // every sequence number ever given out, and its address
    inserted: set<nat>,             // sequence numbers added in the loop thread
    freed: seq<nat>,                // sequence numbers of deleted timers, in order
    cancelled: map<nat, nat>,       // cancelled while pending or in the batch, and in which batch
    ran: seq<Run>,
    batches: nat)

  datatype Step =
    | Create(addr: Addr, when: int, interval: real)
    | AddInLoop(addr: Addr, clock: int)
    | Cancel(id: ActiveTimer)
    | Begin(now: int, consumed: bool)
    | RunNext
    | End(clock: int)

  function Init(): Queue {
    Queue([], {}, false, {}, map[], {}, 0, [], [], Disarmed, History(map[], {}, [], map[], [], 0))
  }

  /** What the callers of each operation guarantee; an allocated address is one not in use. */
  predicate Enabled(q: Queue, step: Step) {
    match step
    case Create(a, _, _) => a !in q.heap && a < UINTPTR_MAX
    case AddInLoop(a, _) => a in q.queued
    case Cancel(_) => true
    case Begin(now, _) => !q.calling && now > 0
    case RunNext => q.calling && q.toRun != []
    case End(_) => q.calling && q.toRun == []
  }

  function EntryOf(heap: map<Addr, Timer>, a: Addr): Entry
    requires a in heap
  {
    Entry(heap[a].expiration, a)
  }

  function ActiveOf(heap: map<Addr, Timer>, a: Addr): ActiveTimer
    requires a in heap
  {
    ActiveTimer(a, heap[a].sequence)
  }

  function AfterCreate(q: Queue, a: Addr, when: int, interval: real): Queue {
    var seqNo := |q.history.created| + 1;
    q.(heap := q.heap[a := Timer(when, interval, seqNo)],
       queued := q.queued + {a},
       history := q.history.(created := q.history.created[seqNo := a]))
  }

  function Inserted(q: Queue, a: Addr): Queue
    requires a in q.heap
  {
    q.(timers := InsertEntry(q.timers, EntryOf(q.heap, a)),
       active := q.active + {ActiveOf(q.heap, a)})
  }

  predicate EarliestChanges(q: Queue, when: int) {
    q.timers == [] || when < q.timers[0].when
  }

  function AfterAdd(q: Queue, a: Addr, clock: int): Queue
    requires a in q.heap
  {
    Inserted(q, a).(
      queued := q.queued - {a},
      alarm := if EarliestChanges(q, q.heap[a].expiration) then AlarmFor(q.heap[a].expiration, clock) else q.alarm,
      history := q.history.(inserted := q.history.inserted + {q.heap[a].sequence}))
  }

  /** The id names a timer that has been added and is still live. */
  predicate Current(h: History, id: ActiveTimer) {
    && id.sequence in h.inserted
    && id.sequence !in h.freed
    && id.sequence in h.created && h.created[id.sequence] == id.timer
  }

  function NoteCancel(h: History, id: ActiveTimer): History {
    if Current(h, id) && id.sequence !in h.cancelled
    then h.(cancelled := h.cancelled[id.sequence := h.batches])
    else h
  }

  function AfterCancel(q: Queue, id: ActiveTimer): Queue {
    var h := NoteCancel(q.history, id);
    if id in q.active && id.timer in q.heap then
      q.(timers := EraseEntry(q.timers, EntryOf(q.heap, id.timer)),
         active := q.active - {id},
         heap := q.heap - {id.timer},
         history := h.(freed := h.freed + [id.sequence]))
    else if q.calling then
      q.(canceling := q.canceling + {id}, history := h)
    else
      q.(history := h)
  }

  /** The pairs that getExpired erases from the second index. */
  function ActiveAmong(heap: map<Addr, Timer>, es: seq<Entry>): set<ActiveTimer> {
    set e | e in es && e.timer in heap :: ActiveOf(heap, e.timer)
  }

  function AfterBegin(q: Queue, now: int, consumed: bool): Queue {
    var n := ExpiredCount(q.timers, now);
    q.(timers := q.timers[n..],
       active := q.active - ActiveAmong(q.heap, q.timers[..n]),
       calling := true,
       canceling := {},
       now := now,
       toRun := q.timers[..n],
       done := [],
       alarm := if consumed then Disarmed else q.alarm,
       history := q.history.(batches := q.history.batches + 1))
  }

  function AfterRun(q: Queue): Queue
    requires q.toRun != [] && q.toRun[0].timer in q.heap
  {
    var e := q.toRun[0];
    var t := q.heap[e.timer];
    q.(toRun := q.toRun[1..],
       done := q.done + [e],
       history := q.history.(
         ran := q.history.ran + [Run(t.sequence, t.expiration, q.now, q.history.batches, t.Repeat())]))
  }

  /** reset() on the first timer of the finished batch: restart it or delete it. */
  function RecycleFirst(q: Queue): Queue
    requires q.done != [] && q.done[0].timer in q.heap
  {
    var a := q.done[0].timer;
    var t := q.heap[a];
    var rest := q.(done := q.done[1..]);
    if t.Repeat() && ActiveOf(q.heap, a) !in q.canceling then
      Inserted(rest.(heap := q.heap[a := t.Restarted(q.now)]), a)
    else
      rest.(heap := q.heap - {a}, history := q.history.(freed := q.history.freed + [t.sequence]))
  }

  /** Every timer of the finished batch is live, and no two share an address. */
  ghost predicate Recyclable(q: Queue) {
    && (forall e | e in q.done :: e.timer in q.heap)
    && (forall i, j | 0 <= i < j < |q.done| :: q.done[i].timer != q.done[j].timer)
  }

  ghost function RecycleAll(q: Queue): Queue
    requires Recyclable(q)
    decreases |q.done|
  {
    if q.done == [] then q else RecycleAll(RecycleFirst(q))
  }

  predicate FirstLive(q: Queue) {
    q.timers != [] ==> q.timers[0].timer in q.heap
  }

  /** The rest of reset(): arm for the expiration of the first pending timer, if it is valid. */
  function Rearmed(q: Queue, clock: int): Queue
    requires FirstLive(q)
  {
    var nextExpire := if q.timers != [] then q.heap[q.timers[0].timer].expiration else 0;
    q.(calling := false, alarm := if nextExpire > 0 then AlarmFor(nextExpire, clock) else q.alarm)
  }

  /** The step reads no deleted timer. */
  ghost predicate MemorySafe(q: Queue, step: Step) {
    match step
    case Create(_, _, _) => true
    case AddInLoop(a, _) => a in q.heap
    case Cancel(id) => id in q.active ==> id.timer in q.heap
    case Begin(now, _) => forall e | e in q.timers[..ExpiredCount(q.timers, now)] :: e.timer in q.heap
    case RunNext => q.toRun != [] && q.toRun[0].timer in q.heap
    case End(_) => Recyclable(q) && FirstLive(RecycleAll(q))
  }

  ghost function Next(q: Queue, step: Step): Queue
    requires Enabled(q, step) && MemorySafe(q, step)
  {
    match step
    case Create(a, when, interval) => AfterCreate(q, a, when, interval)
    case AddInLoop(a, clock) => AfterAdd(q, a, clock)
    case Cancel(id) => AfterCancel(q, id)
    case Begin(now, consumed) => AfterBegin(q, now, consumed)
    case RunNext => AfterRun(q)
    case End(clock) => Rearmed(RecycleAll(q), clock)
  }
}
