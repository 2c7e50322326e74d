/** What every step keeps. */
module TimerInvariant {
  import opened Timers
  import opened TimerRuns

  /** Every live timer is in exactly one place, under its current expiration. */
  ghost predicate Located(heap: map<Addr, Timer>, pending: set<Entry>, batch: set<Entry>, queued: set<Addr>) {
    && (forall e | e in pending :: e.timer in heap && heap[e.timer].expiration == e.when)
    && (forall e | e in batch :: e.timer in heap && heap[e.timer].expiration == e.when)
    && pending !! batch
    && (forall a | a in queued :: a in heap && EntryOf(heap, a) !in pending && EntryOf(heap, a) !in batch)
    && (forall a | a in heap :: a in queued || EntryOf(heap, a) in pending || EntryOf(heap, a) in batch)
    && (forall a | a in heap :: a < UINTPTR_MAX)
  }

  /** The index by address holds exactly the pending timers. */
  ghost predicate IndexesAgree(heap: map<Addr, Timer>, pending: set<Entry>, active: set<ActiveTimer>) {
    forall x :: x in active <==>
      x.timer in heap && heap[x.timer].sequence == x.sequence && EntryOf(heap, x.timer) in pending
  }

  /** Sequence numbers name timers for good; addresses only while the timer lives. */
  ghost predicate Named(heap: map<Addr, Timer>, created: map<nat, Addr>, freed: seq<nat>) {
    && (forall k | k in created :: 1 <= k <= |created|)
    && (forall a | a in heap :: heap[a].sequence in created && created[heap[a].sequence] == a
                                && heap[a].sequence !in freed)
    && (forall k | k in created :: k in freed || (created[k] in heap && heap[created[k]].sequence == k))
    && (forall k | k in freed :: k in created)
  }

  ghost predicate Distinct(s: seq<nat>) {
    forall i, j | 0 <= i < j < |s| :: s[i] != s[j]
  }

  ghost predicate OneShotRan(ran: seq<Run>, k: nat) {
    exists r | r in ran :: r.sequence == k && !r.repeats
  }

  /** Only added timers are deleted, each once, and only if cancelled or if a one-shot that ran. */
  ghost predicate FreedRightly(heap: map<Addr, Timer>, queued: set<Addr>, h: History) {
    && h.inserted <= h.created.Keys
    && (forall a | a in heap :: a in queued <==> heap[a].sequence !in h.inserted)
    && (forall k | k in h.freed :: k in h.inserted)
    && Distinct(h.freed)
    && (forall k | k in h.freed :: k in h.cancelled || OneShotRan(h.ran, k))
  }

  ghost predicate CancelKept(heap: map<Addr, Timer>, pending: set<Entry>, batch: set<Entry>,
                             canceling: set<ActiveTimer>, h: History) {
    && h.cancelled.Keys <= h.inserted
    && (forall e | e in pending && e.timer in heap :: heap[e.timer].sequence !in h.cancelled)
    && (forall e | e in batch && e.timer in heap ::
          heap[e.timer].sequence in h.cancelled <==> ActiveOf(heap, e.timer) in canceling)
    && (forall e | e in batch && e.timer in heap && heap[e.timer].sequence in h.cancelled ::
          h.cancelled[heap[e.timer].sequence] == h.batches)
    && (forall r | r in h.ran && r.sequence in h.cancelled :: r.batch <= h.cancelled[r.sequence])
  }

  /** No run is early, a one-shot runs once, and a repeating timer once in a batch. */
  ghost predicate RunsRight(h: History) {
    && (forall r | r in h.ran :: r.expiration <= r.now && r.sequence in h.inserted && r.batch <= h.batches)
    && (forall i, j | 0 <= i < j < |h.ran| && h.ran[i].sequence == h.ran[j].sequence ::
          h.ran[i].repeats && h.ran[i].batch < h.ran[j].batch)
  }

  ghost predicate RunsMatch(heap: map<Addr, Timer>, pending: set<Entry>, toRun: seq<Entry>, done: seq<Entry>,
                            h: History) {
    && (forall a, r | a in heap && r in h.ran && r.sequence == heap[a].sequence :: r.repeats == heap[a].Repeat())
    && (forall e, r | e in pending && e.timer in heap && r in h.ran && r.sequence == heap[e.timer].sequence :: r.repeats)
    && (forall e, r | e in toRun && e.timer in heap && r in h.ran && r.sequence == heap[e.timer].sequence ::
          r.repeats && r.batch < h.batches)
    && (forall e | e in done && e.timer in heap :: heap[e.timer].Repeat() || OneShotRan(h.ran, heap[e.timer].sequence))
  }

  /** Armed no later than the earliest expiration or 100 microseconds after arming, whichever is later. */
  predicate ArmedInTime(q: Queue)
    requires q.timers != []
  {
    && q.alarm.Armed?
    && q.alarm.deadline <= (if q.timers[0].when > q.alarm.armedAt + 100 then q.timers[0].when else q.alarm.armedAt + 100)
  }

  /** Inside a batch only an expiration that End would not arm for must already be armed. */
  predicate AlarmKept(q: Queue) {
    && (q.calling ==> q.now > 0)
    && (q.timers != [] && (q.calling ==> q.timers[0].when <= 0) ==> ArmedInTime(q))
  }

  ghost predicate Ordered(q: Queue) {
    && Sorted(q.timers)
    && Sorted(q.done + q.toRun)
    && (!q.calling ==> q.toRun == [] && q.done == [])
    && (forall e | e in q.done + q.toRun :: e.when <= q.now)
  }

  function Batch(q: Queue): set<Entry> {
    Elems(q.done + q.toRun)
  }

  ghost predicate Placed(q: Queue) {
    && Ordered(q)
    && Located(q.heap, Elems(q.timers), Batch(q), q.queued)
    && IndexesAgree(q.heap, Elems(q.timers), q.active)
    && Named(q.heap, q.history.created, q.history.freed)
  }

  ghost predicate Accounted(q: Queue) {
    && FreedRightly(q.heap, q.queued, q.history)
    && CancelKept(q.heap, Elems(q.timers), Batch(q), q.canceling, q.history)
    && RunsRight(q.history)
    && RunsMatch(q.heap, Elems(q.timers), q.toRun, q.done, q.history)
  }

  ghost predicate Inv(q: Queue) {
    Placed(q) && Accounted(q) && AlarmKept(q)
  }

  // ---- creation

  lemma NewName(created: map<nat, Addr>)
    requires forall k | k in created :: 1 <= k <= |created|
    ensures |created| + 1 !in created
  {
  }

  lemma CreateNamed(heap: map<Addr, Timer>, created: map<nat, Addr>, freed: seq<nat>, a: Addr, t: Timer)
    requires Named(heap, created, freed) && a !in heap && t.sequence == |created| + 1
    ensures Named(heap[a := t], created[t.sequence := a], freed)
  {
  }

  lemma CreateLocated(heap: map<Addr, Timer>, pending: set<Entry>, batch: set<Entry>, queued: set<Addr>, a: Addr, t: Timer)
    requires Located(heap, pending, batch, queued) && a !in heap && a < UINTPTR_MAX
    ensures Located(heap[a := t], pending, batch, queued + {a})
  {
  }

  lemma CreateIndexes(heap: map<Addr, Timer>, pending: set<Entry>, active: set<ActiveTimer>, a: Addr, t: Timer)
    requires IndexesAgree(heap, pending, active) && a !in heap
    requires forall e | e in pending :: e.timer in heap
    ensures IndexesAgree(heap[a := t], pending, active)
  {
  }

  lemma CreatePlaced(q: Queue, a: Addr, when: int, interval: real)
    requires Placed(q) && a !in q.heap && a < UINTPTR_MAX
    ensures Placed(AfterCreate(q, a, when, interval))
  {
    hide Located, Named, IndexesAgree, Ordered, Elems;
    var t := Timer(when, interval, |q.history.created| + 1);
    PendingLive(q.heap, Elems(q.timers), Batch(q), q.queued);
    CreateIndexes(q.heap, Elems(q.timers), q.active, a, t);
    CreateLocated(q.heap, Elems(q.timers), Batch(q), q.queued, a, t);
    CreateNamed(q.heap, q.history.created, q.history.freed, a, t);
    SameOrder(q, AfterCreate(q, a, when, interval));
  }

  lemma SameOrder(q: Queue, q': Queue)
    requires Ordered(q) && q'.timers == q.timers && q'.done == q.done && q'.toRun == q.toRun
    requires q'.calling == q.calling && q'.now == q.now
    ensures Ordered(q')
  {
  }

  lemma CreateFreed(q: Queue, a: Addr, t: Timer)
    requires Named(q.heap, q.history.created, q.history.freed) && FreedRightly(q.heap, q.queued, q.history)
    requires a !in q.heap && t.sequence == |q.history.created| + 1
    ensures FreedRightly(q.heap[a := t], q.queued + {a},
                         q.history.(created := q.history.created[t.sequence := a]))
  {
  }

  lemma CreateCancel(q: Queue, a: Addr, t: Timer)
    requires Located(q.heap, Elems(q.timers), Batch(q), q.queued) && a !in q.heap
    requires CancelKept(q.heap, Elems(q.timers), Batch(q), q.canceling, q.history)
    ensures CancelKept(q.heap[a := t], Elems(q.timers), Batch(q), q.canceling,
                       q.history.(created := q.history.created[t.sequence := a]))
  {
  }

  lemma CreateRuns(q: Queue, a: Addr, t: Timer)
    requires Located(q.heap, Elems(q.timers), Batch(q), q.queued) && a !in q.heap
    requires forall r | r in q.history.ran :: r.sequence != t.sequence
    requires RunsMatch(q.heap, Elems(q.timers), q.toRun, q.done, q.history)
    ensures RunsMatch(q.heap[a := t], Elems(q.timers), q.toRun, q.done,
                      q.history.(created := q.history.created[t.sequence := a]))
  {
  }

  lemma RunsCreated(heap: map<Addr, Timer>, queued: set<Addr>, h: History)
    requires FreedRightly(heap, queued, h) && RunsRight(h)
    ensures forall r | r in h.ran :: r.sequence in h.created
  {
  }

  lemma CreateAccounted(q: Queue, a: Addr, when: int, interval: real)
    requires Placed(q) && Accounted(q) && a !in q.heap && a < UINTPTR_MAX
    ensures Accounted(AfterCreate(q, a, when, interval))
  {
    hide FreedRightly, CancelKept, RunsMatch, RunsRight, Located, IndexesAgree, Ordered, Elems;
    var t := Timer(when, interval, |q.history.created| + 1);
    NewName(q.history.created);
    RunsCreated(q.heap, q.queued, q.history);
    hide Named;
    CreateFreed(q, a, t);
    CreateCancel(q, a, t);
    CreateRuns(q, a, t);
    SameRuns(q.history, q.history.(created := q.history.created[t.sequence := a]));
  }

  lemma SameRuns(h: History, h': History)
    requires RunsRight(h) && h'.ran == h.ran && h'.inserted >= h.inserted && h'.batches >= h.batches
    ensures RunsRight(h')
  {
  }

  lemma CreateInv(q: Queue, a: Addr, when: int, interval: real)
    requires Inv(q) && a !in q.heap && a < UINTPTR_MAX
    ensures Inv(AfterCreate(q, a, when, interval))
  {
    hide Placed, Accounted;
    CreatePlaced(q, a, when, interval);
    CreateAccounted(q, a, when, interval);
  }

  // ---- addition

  lemma AddPlaced(q: Queue, a: Addr, clock: int)
    requires Placed(q) && a in q.queued
    ensures a in q.heap && Placed(AfterAdd(q, a, clock))
    ensures Elems(AfterAdd(q, a, clock).timers) == Elems(q.timers) + {EntryOf(q.heap, a)}
  {
    var e := EntryOf(q.heap, a);
    InsertKeepsOrder(q.timers, e);
    assert IndexesAgree(q.heap, Elems(q.timers) + {e}, q.active + {ActiveOf(q.heap, a)});
    assert Located(q.heap, Elems(q.timers) + {e}, Batch(q), q.queued - {a});
    hide Located, Named, IndexesAgree, InsertEntry;
  }

  lemma AddCancel(q: Queue, a: Addr, h: History)
    requires CancelKept(q.heap, Elems(q.timers), Batch(q), q.canceling, q.history)
    requires a in q.heap && q.heap[a].sequence !in q.history.inserted
    requires h == q.history.(inserted := q.history.inserted + {q.heap[a].sequence})
    ensures CancelKept(q.heap, Elems(q.timers) + {EntryOf(q.heap, a)}, Batch(q), q.canceling, h)
  {
  }

  lemma AddRuns(q: Queue, a: Addr, h: History)
    requires RunsMatch(q.heap, Elems(q.timers), q.toRun, q.done, q.history) && RunsRight(q.history)
    requires a in q.heap && q.heap[a].sequence !in q.history.inserted
    requires h == q.history.(inserted := q.history.inserted + {q.heap[a].sequence})
    ensures RunsMatch(q.heap, Elems(q.timers) + {EntryOf(q.heap, a)}, q.toRun, q.done, h)
  {
  }

  lemma QueuedFacts(q: Queue, a: Addr)
    requires Located(q.heap, Elems(q.timers), Batch(q), q.queued) && FreedRightly(q.heap, q.queued, q.history)
    requires a in q.queued
    ensures a in q.heap && q.heap[a].sequence !in q.history.inserted
  {
  }

  lemma AddAccounted(q: Queue, a: Addr, clock: int)
    requires Placed(q) && Accounted(q) && a in q.queued && a in q.heap
    ensures Accounted(AfterAdd(q, a, clock))
  {
    hide FreedRightly, CancelKept, RunsMatch, RunsRight, Located, IndexesAgree, Ordered, Named, Elems, InsertEntry;
    QueuedFacts(q, a);
    var h := q.history.(inserted := q.history.inserted + {q.heap[a].sequence});
    AddPlaced(q, a, clock);
    AddFreed(q, a);
    AddCancel(q, a, h);
    AddRuns(q, a, h);
    SameRuns(q.history, h);
  }

  lemma AddFreed(q: Queue, a: Addr)
    requires Named(q.heap, q.history.created, q.history.freed) && FreedRightly(q.heap, q.queued, q.history)
    requires a in q.queued && a in q.heap
    ensures FreedRightly(q.heap, q.queued - {a},
                         q.history.(inserted := q.history.inserted + {q.heap[a].sequence}))
  {
  }

  lemma AddAlarm(q: Queue, a: Addr, clock: int)
    requires Placed(q) && AlarmKept(q) && a in q.queued
    ensures AlarmKept(AfterAdd(q, a, clock))
  {
  }

  lemma AddInv(q: Queue, a: Addr, clock: int)
    requires Inv(q) && a in q.queued
    ensures a in q.heap && Inv(AfterAdd(q, a, clock))
  {
    assert a in q.heap;
    hide Placed, Accounted, AlarmKept;
    AddPlaced(q, a, clock);
    AddAccounted(q, a, clock);
    AddAlarm(q, a, clock);
  }

  // ---- removing a live timer

  lemma RemoveLocated(heap: map<Addr, Timer>, pending: set<Entry>, batch: set<Entry>, queued: set<Addr>, a: Addr)
    requires Located(heap, pending, batch, queued) && a in heap && a !in queued
    ensures Located(heap - {a}, pending - {EntryOf(heap, a)}, batch - {EntryOf(heap, a)}, queued)
  {
  }

  lemma RemoveIndexes(heap: map<Addr, Timer>, pending: set<Entry>, active: set<ActiveTimer>, a: Addr)
    requires IndexesAgree(heap, pending, active) && a in heap
    ensures IndexesAgree(heap - {a}, pending - {EntryOf(heap, a)}, active - {ActiveOf(heap, a)})
  {
  }

  lemma RemoveNamed(heap: map<Addr, Timer>, created: map<nat, Addr>, freed: seq<nat>, a: Addr)
    requires Named(heap, created, freed) && a in heap
    ensures Named(heap - {a}, created, freed + [heap[a].sequence])
  {
  }

  lemma RemoveFreed(heap: map<Addr, Timer>, queued: set<Addr>, h: History, a: Addr)
    requires FreedRightly(heap, queued, h) && Named(heap, h.created, h.freed)
    requires a in heap && a !in queued
    requires heap[a].sequence in h.cancelled || OneShotRan(h.ran, heap[a].sequence)
    ensures FreedRightly(heap - {a}, queued, h.(freed := h.freed + [heap[a].sequence]))
  {
  }

  /** Dropping timers keeps what the run history says about the others. */
  lemma RunsShrink(heap: map<Addr, Timer>, pending: set<Entry>, toRun: seq<Entry>, done: seq<Entry>, h: History,
                   heap': map<Addr, Timer>, pending': set<Entry>, done': seq<Entry>, h': History)
    requires RunsMatch(heap, pending, toRun, done, h)
    requires forall a | a in heap' :: a in heap && heap'[a] == heap[a]
    requires pending' <= pending && h'.ran == h.ran && h'.batches == h.batches
    requires forall e | e in done' :: e in done
    ensures RunsMatch(heap', pending', toRun, done', h')
  {
  }

  lemma CancelShrink(heap: map<Addr, Timer>, pending: set<Entry>, batch: set<Entry>, canceling: set<ActiveTimer>, h: History,
                     heap': map<Addr, Timer>, pending': set<Entry>, batch': set<Entry>, h': History)
    requires CancelKept(heap, pending, batch, canceling, h)
    requires forall a | a in heap' :: a in heap && heap'[a] == heap[a]
    requires pending' <= pending && batch' <= batch
    requires h'.ran == h.ran && h'.batches == h.batches && h'.cancelled == h.cancelled && h'.inserted == h.inserted
    ensures CancelKept(heap', pending', batch', canceling, h')
  {
  }

  // ---- cancellation

  lemma {:induction false} ActiveIsLive(q: Queue, id: ActiveTimer)
    requires Placed(q) && FreedRightly(q.heap, q.queued, q.history) && id in q.active
    ensures id.timer in q.heap && id == ActiveOf(q.heap, id.timer) && id.timer !in q.queued
    ensures EntryOf(q.heap, id.timer) in Elems(q.timers) && EntryOf(q.heap, id.timer) !in Batch(q)
    ensures Current(q.history, id) && id.sequence in q.history.inserted
  {
  }

  lemma CancelPendingPlaced(q: Queue, id: ActiveTimer)
    requires Placed(q) && id.timer in q.heap && id == ActiveOf(q.heap, id.timer) && id.timer !in q.queued
    requires EntryOf(q.heap, id.timer) !in Batch(q) && id in q.active
    ensures Placed(AfterCancel(q, id))
    ensures Elems(AfterCancel(q, id).timers) == Elems(q.timers) - {EntryOf(q.heap, id.timer)}
  {
    hide Located, Named, IndexesAgree, Elems, EraseEntry;
    var a, e := id.timer, EntryOf(q.heap, id.timer);
    EraseKeepsOrder(q.timers, e);
    RemoveLocated(q.heap, Elems(q.timers), Batch(q), q.queued, a);
    RemoveIndexes(q.heap, Elems(q.timers), q.active, a);
    RemoveNamed(q.heap, q.history.created, q.history.freed, a);
    assert Batch(q) - {e} == Batch(q);
  }

  lemma NoteFreed(heap: map<Addr, Timer>, queued: set<Addr>, h: History, id: ActiveTimer)
    requires FreedRightly(heap, queued, h)
    ensures FreedRightly(heap, queued, NoteCancel(h, id))
  {
  }

  lemma CancelPendingKept(q: Queue, id: ActiveTimer)
    requires CancelKept(q.heap, Elems(q.timers), Batch(q), q.canceling, q.history) && RunsRight(q.history)
    requires Named(q.heap, q.history.created, q.history.freed)
    requires id.timer in q.heap && id == ActiveOf(q.heap, id.timer)
    requires EntryOf(q.heap, id.timer) in Elems(q.timers) && Current(q.history, id)
    ensures var h := NoteCancel(q.history, id);
            CancelKept(q.heap - {id.timer}, Elems(q.timers) - {EntryOf(q.heap, id.timer)}, Batch(q), q.canceling,
                       h.(freed := h.freed + [id.sequence]))
  {
  }

  lemma CancelPendingAccounted(q: Queue, id: ActiveTimer)
    requires Placed(q) && Accounted(q) && id in q.active
    ensures Accounted(AfterCancel(q, id))
  {
    hide FreedRightly, CancelKept, RunsMatch, RunsRight, Located, IndexesAgree, Ordered, Named, Elems, EraseEntry, Batch;
    ActiveIsLive(q, id);
    CancelPendingPlaced(q, id);
    var h := NoteCancel(q.history, id);
    var h' := h.(freed := h.freed + [id.sequence]);
    NoteFreed(q.heap, q.queued, q.history, id);
    RemoveFreed(q.heap, q.queued, h, id.timer);
    CancelPendingKept(q, id);
    SameRuns(q.history, h');
    RunsShrink(q.heap, Elems(q.timers), q.toRun, q.done, q.history,
               q.heap - {id.timer}, Elems(q.timers) - {EntryOf(q.heap, id.timer)}, q.done, h');
    SameBatch(q, AfterCancel(q, id));
  }

  lemma SameBatch(q: Queue, q': Queue)
    requires q'.done == q.done && q'.toRun == q.toRun
    ensures Batch(q') == Batch(q)
  {
  }

  /** A current id that is not pending names a timer of the running batch. */
  lemma CurrentNotPending(q: Queue, id: ActiveTimer)
    requires Placed(q) && FreedRightly(q.heap, q.queued, q.history) && id !in q.active
    ensures Current(q.history, id) ==>
              && id.timer in q.heap && id == ActiveOf(q.heap, id.timer)
              && EntryOf(q.heap, id.timer) in Batch(q) && q.calling
    ensures forall e | e in Batch(q) :: e.timer in q.heap && Current(q.history, ActiveOf(q.heap, e.timer))
    ensures forall e | e in Elems(q.timers) :: e.timer in q.heap && ActiveOf(q.heap, e.timer) != id
    ensures forall a | a in q.heap && q.heap[a].sequence == id.sequence ::
              id.sequence in q.history.created && q.history.created[id.sequence] == a
  {
  }

  lemma CancelBatchKept(q: Queue, id: ActiveTimer)
    requires CancelKept(q.heap, Elems(q.timers), Batch(q), q.canceling, q.history) && RunsRight(q.history)
    requires forall e | e in Batch(q) :: e.timer in q.heap && Current(q.history, ActiveOf(q.heap, e.timer))
    requires forall e | e in Elems(q.timers) :: e.timer in q.heap && ActiveOf(q.heap, e.timer) != id
    requires forall a | a in q.heap && q.heap[a].sequence == id.sequence ::
               id.sequence in q.history.created && q.history.created[id.sequence] == a
    ensures CancelKept(q.heap, Elems(q.timers), Batch(q), q.canceling + {id}, NoteCancel(q.history, id))
  {
  }

  lemma CancelOtherInv(q: Queue, id: ActiveTimer)
    requires Placed(q) && Accounted(q) && id !in q.active
    ensures Placed(AfterCancel(q, id)) && Accounted(AfterCancel(q, id))
  {
    hide FreedRightly, CancelKept, RunsMatch, RunsRight, Located, IndexesAgree, Ordered, Named, Elems, Batch;
    CurrentNotPending(q, id);
    var h, q' := NoteCancel(q.history, id), AfterCancel(q, id);
    SameBatch(q, q');
    if q.calling {
      SameOrder(q, q');
      NoteFreed(q.heap, q.queued, q.history, id);
      CancelBatchKept(q, id);
      SameRuns(q.history, h);
      RunsShrink(q.heap, Elems(q.timers), q.toRun, q.done, q.history, q.heap, Elems(q.timers), q.done, h);
    } else {
      assert q' == q;
    }
  }

  lemma CancelAlarm(q: Queue, id: ActiveTimer)
    requires Sorted(q.timers) && AlarmKept(q)
    ensures AlarmKept(AfterCancel(q, id))
  {
  }

  lemma CancelInv(q: Queue, id: ActiveTimer)
    requires Inv(q)
    ensures Inv(AfterCancel(q, id)) && (id in q.active ==> id.timer in q.heap)
  {
    hide AlarmKept, FreedRightly, CancelKept, RunsMatch, RunsRight, Located, IndexesAgree, Named, AfterCancel;
    CancelAlarm(q, id);
    if id in q.active {
      ActiveIsLive(q, id);
      CancelPendingPlaced(q, id);
      CancelPendingAccounted(q, id);
    } else {
      CancelOtherInv(q, id);
    }
  }

  // ---- start of a batch

  lemma MoveLocated(heap: map<Addr, Timer>, pending: set<Entry>, expired: set<Entry>, queued: set<Addr>)
    requires Located(heap, pending, {}, queued) && expired <= pending
    ensures Located(heap, pending - expired, expired, queued)
  {
  }

  lemma MoveIndexes(heap: map<Addr, Timer>, pending: set<Entry>, active: set<ActiveTimer>, es: seq<Entry>)
    requires IndexesAgree(heap, pending, active) && Elems(es) <= pending
    requires forall e | e in pending :: e.timer in heap && heap[e.timer].expiration == e.when
    ensures IndexesAgree(heap, pending - Elems(es), active - ActiveAmong(heap, es))
  {
  }

  lemma BeginSplit(q: Queue, now: int)
    requires Ordered(q) && !q.calling && (forall e | e in Elems(q.timers) :: e.timer < UINTPTR_MAX)
    ensures var n := ExpiredCount(q.timers, now);
            && Elems(q.timers[..n]) <= Elems(q.timers)
            && Elems(q.timers[n..]) == Elems(q.timers) - Elems(q.timers[..n])
            && Sorted(q.timers[..n]) && Sorted(q.timers[n..])
            && (forall e | e in q.timers[..n] :: e.when <= now)
            && (n < |q.timers| ==> now < q.timers[n..][0].when)
            && Batch(q) == {}
  {
    assert forall e | e in q.timers :: e in Elems(q.timers);
    ExpiredSplit(q.timers, now);
    SplitElems(q.timers, ExpiredCount(q.timers, now));
  }

  lemma PendingLive(heap: map<Addr, Timer>, pending: set<Entry>, batch: set<Entry>, queued: set<Addr>)
    requires Located(heap, pending, batch, queued)
    ensures forall e | e in pending :: e.timer in heap && heap[e.timer].expiration == e.when && e.timer < UINTPTR_MAX
    ensures forall e | e in batch :: e.timer in heap && heap[e.timer].expiration == e.when
    ensures forall e | e in pending :: e.timer !in queued
    ensures forall e | e in batch :: e.timer !in queued
  {
  }

  lemma BeginPlaced(q: Queue, now: int, consumed: bool)
    requires Placed(q) && !q.calling
    ensures Placed(AfterBegin(q, now, consumed))
  {
    hide Located, IndexesAgree, Named, Elems, ActiveAmong, ExpiredCount;
    var n := ExpiredCount(q.timers, now);
    PendingLive(q.heap, Elems(q.timers), Batch(q), q.queued);
    BeginSplit(q, now);
    MoveLocated(q.heap, Elems(q.timers), Elems(q.timers[..n]), q.queued);
    MoveIndexes(q.heap, Elems(q.timers), q.active, q.timers[..n]);
    assert [] + q.timers[..n] == q.timers[..n];
  }

  lemma BeginCancel(heap: map<Addr, Timer>, pending: set<Entry>, canceling: set<ActiveTimer>, h: History,
                    expired: set<Entry>)
    requires CancelKept(heap, pending, {}, canceling, h) && expired <= pending
    ensures CancelKept(heap, pending - expired, expired, {}, h.(batches := h.batches + 1))
  {
  }

  lemma BeginRuns(heap: map<Addr, Timer>, pending: set<Entry>, h: History, pending': set<Entry>, toRun: seq<Entry>)
    requires RunsMatch(heap, pending, [], [], h) && RunsRight(h)
    requires pending' <= pending && forall e | e in toRun :: e in pending
    ensures RunsMatch(heap, pending', toRun, [], h.(batches := h.batches + 1))
  {
  }

  lemma BeginFreed(heap: map<Addr, Timer>, queued: set<Addr>, h: History)
    requires FreedRightly(heap, queued, h)
    ensures FreedRightly(heap, queued, h.(batches := h.batches + 1))
  {
  }

  lemma BeginAccounted(q: Queue, now: int, consumed: bool)
    requires Placed(q) && Accounted(q) && !q.calling
    ensures Accounted(AfterBegin(q, now, consumed))
  {
    hide Located, IndexesAgree, Named, ActiveAmong, ExpiredCount, FreedRightly, CancelKept, RunsRight, RunsMatch;
    var n, h := ExpiredCount(q.timers, now), q.history;
    PendingLive(q.heap, Elems(q.timers), Batch(q), q.queued);
    BeginSplit(q, now);
    BeginFreed(q.heap, q.queued, h);
    BeginCancel(q.heap, Elems(q.timers), q.canceling, h, Elems(q.timers[..n]));
    BeginRuns(q.heap, Elems(q.timers), h, Elems(q.timers[n..]), q.timers[..n]);
    SameRuns(h, h.(batches := h.batches + 1));
    assert [] + q.timers[..n] == q.timers[..n];
  }

  lemma BeginInv(q: Queue, now: int, consumed: bool)
    requires Inv(q) && !q.calling && now > 0
    ensures Inv(AfterBegin(q, now, consumed))
    ensures forall e | e in q.timers[..ExpiredCount(q.timers, now)] :: e.timer in q.heap
  {
    hide Located, IndexesAgree, Named, ExpiredCount, Accounted;
    PendingLive(q.heap, Elems(q.timers), Batch(q), q.queued);
    BeginSplit(q, now);
    BeginPlaced(q, now, consumed);
    BeginAccounted(q, now, consumed);
    assert forall e | e in q.timers[..ExpiredCount(q.timers, now)] :: e in Elems(q.timers);
    hide Placed;
  }

  // ---- one callback

  lemma RunMoves(q: Queue)
    requires q.toRun != []
    ensures (q.done + [q.toRun[0]]) + q.toRun[1..] == q.done + q.toRun
  {
  }

  lemma RunPlaced(q: Queue)
    requires Placed(q) && q.toRun != [] && q.calling
    ensures q.toRun[0].timer in q.heap && Placed(AfterRun(q))
  {
    hide IndexesAgree, Named;
    assert q.toRun[0] in Batch(q);
    PendingLive(q.heap, Elems(q.timers), Batch(q), q.queued);
    RunMoves(q);
    hide Located;
  }

  lemma RunFreed(heap: map<Addr, Timer>, queued: set<Addr>, h: History, r: Run)
    requires FreedRightly(heap, queued, h)
    ensures FreedRightly(heap, queued, h.(ran := h.ran + [r]))
  {
  }

  lemma RunCancel(q: Queue, r: Run, e: Entry)
    requires CancelKept(q.heap, Elems(q.timers), Batch(q), q.canceling, q.history)
    requires e in Batch(q) && e.timer in q.heap && r.sequence == q.heap[e.timer].sequence
    requires r.batch == q.history.batches
    ensures CancelKept(q.heap, Elems(q.timers), Batch(q), q.canceling, q.history.(ran := q.history.ran + [r]))
  {
  }

  lemma RunRight(h: History, r: Run)
    requires RunsRight(h) && r.expiration <= r.now && r.sequence in h.inserted && r.batch == h.batches
    requires forall x | x in h.ran && x.sequence == r.sequence :: x.repeats && x.batch < h.batches
    ensures RunsRight(h.(ran := h.ran + [r]))
  {
  }

  /** The only timer with the sequence number of the one that runs is that one. */
  lemma RunAlone(q: Queue, e: Entry)
    requires Placed(q) && q.toRun != [] && e == q.toRun[0]
    ensures e.timer in q.heap && q.heap[e.timer].expiration == e.when && e.when <= q.now && e.timer !in q.queued
    ensures forall a | a in q.heap && q.heap[a].sequence == q.heap[e.timer].sequence :: a == e.timer
    ensures forall x | x in Elems(q.timers) :: x.timer != e.timer
    ensures forall x | x in q.toRun[1..] :: x.timer != e.timer
    ensures e in Batch(q)
  {
    hide IndexesAgree;
    assert e in q.done + q.toRun;
    forall x | x in q.toRun[1..] ensures x.timer != e.timer {
      var i :| 0 <= i < |q.toRun[1..]| && q.toRun[1..][i] == x;
      var all := q.done + q.toRun;
      assert all[|q.done|] == e && all[|q.done| + 1 + i] == x;
      assert Earlier(e, x) && x in Batch(q);
    }
  }

  lemma RunMatches(q: Queue, r: Run, e: Entry)
    requires RunsMatch(q.heap, Elems(q.timers), q.toRun, q.done, q.history)
    requires q.toRun != [] && e == q.toRun[0] && e.timer in q.heap
    requires r.sequence == q.heap[e.timer].sequence && r.repeats == q.heap[e.timer].Repeat()
    requires forall a | a in q.heap && q.heap[a].sequence == r.sequence :: a == e.timer
    requires forall x | x in Elems(q.timers) :: x.timer != e.timer
    requires forall x | x in q.toRun[1..] :: x.timer != e.timer
    ensures RunsMatch(q.heap, Elems(q.timers), q.toRun[1..], q.done + [e], q.history.(ran := q.history.ran + [r]))
  {
  }

  lemma RunAccounted(q: Queue)
    requires Placed(q) && Accounted(q) && q.toRun != [] && q.calling
    ensures q.toRun[0].timer in q.heap && Accounted(AfterRun(q))
  {
    hide FreedRightly, CancelKept, RunsMatch, RunsRight, Located, IndexesAgree, Named, Ordered, Elems;
    var e := q.toRun[0];
    RunAlone(q, e);
    var t := q.heap[e.timer];
    var r := Run(t.sequence, t.expiration, q.now, q.history.batches, t.Repeat());
    RunFacts(q, e);
    RunMoves(q);
    RunFreed(q.heap, q.queued, q.history, r);
    RunCancel(q, r, e);
    RunRight(q.history, r);
    RunMatches(q, r, e);
  }

  lemma RunFacts(q: Queue, e: Entry)
    requires FreedRightly(q.heap, q.queued, q.history)
    requires RunsMatch(q.heap, Elems(q.timers), q.toRun, q.done, q.history)
    requires q.toRun != [] && e == q.toRun[0] && e.timer in q.heap && e.timer !in q.queued
    ensures q.heap[e.timer].sequence in q.history.inserted
    ensures forall x | x in q.history.ran && x.sequence == q.heap[e.timer].sequence ::
              x.repeats && x.batch < q.history.batches
  {
  }

  lemma RunInv(q: Queue)
    requires Inv(q) && q.toRun != [] && q.calling
    ensures q.toRun[0].timer in q.heap && Inv(AfterRun(q))
  {
    hide Placed, Accounted;
    RunPlaced(q);
    RunAccounted(q);
  }

  // ---- end of a batch

  lemma DoneFirst(q: Queue)
    requires Placed(q) && q.done != []
    ensures var e := q.done[0];
            && e in Batch(q) && e.timer in q.heap && EntryOf(q.heap, e.timer) == e && e.timer !in q.queued
            && Elems(q.done[1..] + q.toRun) == Batch(q) - {e}
            && Sorted(q.done[1..] + q.toRun)
            && e !in Elems(q.timers)
  {
    hide IndexesAgree, Named;
    var e, rest := q.done[0], q.done[1..] + q.toRun;
    assert q.done + q.toRun == [e] + rest;
    forall x | x in rest ensures x != e {
      var i :| 0 <= i < |rest| && rest[i] == x;
      assert Earlier((q.done + q.toRun)[0], (q.done + q.toRun)[i + 1]);
    }
    forall i, j | 0 <= i < j < |rest| ensures Earlier(rest[i], rest[j]) {
      assert rest[i] == (q.done + q.toRun)[i + 1] && rest[j] == (q.done + q.toRun)[j + 1];
    }
  }

  lemma RestartLocated(heap: map<Addr, Timer>, pending: set<Entry>, batch: set<Entry>, queued: set<Addr>, a: Addr, t: Timer)
    requires Located(heap, pending, batch, queued) && a in heap && EntryOf(heap, a) in batch
    ensures Located(heap[a := t], pending + {Entry(t.expiration, a)}, batch - {EntryOf(heap, a)}, queued)
    ensures Entry(t.expiration, a) !in pending
  {
  }

  lemma RestartIndexes(heap: map<Addr, Timer>, pending: set<Entry>, active: set<ActiveTimer>, a: Addr, t: Timer)
    requires IndexesAgree(heap, pending, active) && a in heap && t.sequence == heap[a].sequence
    requires forall x | x in pending :: x.timer != a
    ensures IndexesAgree(heap[a := t], pending + {Entry(t.expiration, a)}, active + {ActiveTimer(a, t.sequence)})
  {
  }

  lemma RestartNamed(heap: map<Addr, Timer>, created: map<nat, Addr>, freed: seq<nat>, a: Addr, t: Timer)
    requires Named(heap, created, freed) && a in heap && t.sequence == heap[a].sequence
    ensures Named(heap[a := t], created, freed)
  {
  }

  lemma RestartPlaced(q: Queue, t: Timer)
    requires Placed(q) && q.done != [] && q.calling && q.done[0].timer in q.heap
    requires t.sequence == q.heap[q.done[0].timer].sequence
    ensures var a := q.done[0].timer;
            var q' := Inserted(q.(done := q.done[1..], heap := q.heap[a := t]), a);
            && Placed(q') && Elems(q'.timers) == Elems(q.timers) + {Entry(t.expiration, a)}
            && Batch(q') == Batch(q) - {q.done[0]}
  {
    hide Located, Named, IndexesAgree, Elems, InsertEntry;
    var a := q.done[0].timer;
    DoneFirst(q);
    PendingLive(q.heap, Elems(q.timers), Batch(q), q.queued);
    NotPending(q.heap, Elems(q.timers), Batch(q), q.queued, q.done[0]);
    RestartLocated(q.heap, Elems(q.timers), Batch(q), q.queued, a, t);
    RestartIndexes(q.heap, Elems(q.timers), q.active, a, t);
    RestartNamed(q.heap, q.history.created, q.history.freed, a, t);
    ElemsIn(q.timers, Entry(t.expiration, a));
    InsertKeepsOrder(q.timers, Entry(t.expiration, a));
    RestOrdered(q);
  }

  lemma ElemsIn(ts: seq<Entry>, e: Entry)
    ensures e in Elems(ts) <==> e in ts
  {
  }

  lemma RestOrdered(q: Queue)
    requires q.done != []
    ensures forall e | e in q.done[1..] + q.toRun :: e in q.done + q.toRun
  {
  }

  lemma NotPending(heap: map<Addr, Timer>, pending: set<Entry>, batch: set<Entry>, queued: set<Addr>, e: Entry)
    requires Located(heap, pending, batch, queued) && e in batch
    ensures forall x | x in pending :: x.timer != e.timer
  {
  }

  lemma RestartFreed(heap: map<Addr, Timer>, queued: set<Addr>, h: History, a: Addr, t: Timer)
    requires FreedRightly(heap, queued, h) && a in heap && t.sequence == heap[a].sequence
    ensures FreedRightly(heap[a := t], queued, h)
  {
  }

  lemma RestartCancel(q: Queue, e: Entry, t: Timer)
    requires CancelKept(q.heap, Elems(q.timers), Batch(q), q.canceling, q.history)
    requires e in Batch(q) && e.timer in q.heap && t.sequence == q.heap[e.timer].sequence
    requires ActiveOf(q.heap, e.timer) !in q.canceling
    ensures CancelKept(q.heap[e.timer := t], Elems(q.timers) + {Entry(t.expiration, e.timer)}, Batch(q) - {e},
                       q.canceling, q.history)
  {
  }

  lemma RestartRuns(q: Queue, e: Entry, t: Timer)
    requires RunsMatch(q.heap, Elems(q.timers), q.toRun, q.done, q.history)
    requires q.done != [] && e == q.done[0] && e.timer in q.heap
    requires t.sequence == q.heap[e.timer].sequence && t.Repeat() && q.heap[e.timer].Repeat()
    ensures RunsMatch(q.heap[e.timer := t], Elems(q.timers) + {Entry(t.expiration, e.timer)}, q.toRun, q.done[1..],
                      q.history)
  {
  }

  lemma RestartInv(q: Queue)
    requires Inv(q) && q.done != [] && q.calling && q.done[0].timer in q.heap
    requires q.heap[q.done[0].timer].Repeat() && ActiveOf(q.heap, q.done[0].timer) !in q.canceling
    ensures Inv(RecycleFirst(q))
  {
    hide FreedRightly, CancelKept, RunsMatch, RunsRight, Located, IndexesAgree, Named, Ordered, Elems, AlarmKept, Batch, InsertEntry;
    var e := q.done[0];
    var t := q.heap[e.timer].Restarted(q.now);
    DoneFirst(q);
    RestartPlaced(q, t);
    RestartFreed(q.heap, q.queued, q.history, e.timer, t);
    RestartCancel(q, e, t);
    RestartRuns(q, e, t);
    RestartAlarm(q, t);
  }

  lemma RestartAlarm(q: Queue, t: Timer)
    requires Placed(q) && AlarmKept(q) && q.done != [] && q.calling && q.done[0].timer in q.heap
    requires t == q.heap[q.done[0].timer].Restarted(q.now) && t.Repeat()
    ensures AlarmKept(Inserted(q.(done := q.done[1..], heap := q.heap[q.done[0].timer := t]), q.done[0].timer))
  {
  }

  lemma DropPlaced(q: Queue)
    requires Placed(q) && q.done != [] && q.calling && q.done[0].timer in q.heap
    ensures var a := q.done[0].timer;
            var q' := q.(done := q.done[1..], heap := q.heap - {a},
                         history := q.history.(freed := q.history.freed + [q.heap[a].sequence]));
            Placed(q') && Batch(q') == Batch(q) - {q.done[0]}
  {
    hide Located, Named, IndexesAgree, Elems;
    var a := q.done[0].timer;
    DoneFirst(q);
    RestOrdered(q);
    RemoveLocated(q.heap, Elems(q.timers), Batch(q), q.queued, a);
    RemoveIndexes(q.heap, Elems(q.timers), q.active, a);
    RemoveNamed(q.heap, q.history.created, q.history.freed, a);
    assert Elems(q.timers) - {q.done[0]} == Elems(q.timers);
    NotActive(q, a);
    assert q.active - {ActiveOf(q.heap, a)} == q.active;
  }

  lemma NotActive(q: Queue, a: Addr)
    requires IndexesAgree(q.heap, Elems(q.timers), q.active) && a in q.heap
    requires EntryOf(q.heap, a) !in Elems(q.timers)
    ensures ActiveOf(q.heap, a) !in q.active
  {
  }

  lemma DropReason(q: Queue)
    requires CancelKept(q.heap, Elems(q.timers), Batch(q), q.canceling, q.history)
    requires RunsMatch(q.heap, Elems(q.timers), q.toRun, q.done, q.history)
    requires q.done != [] && q.done[0] in Batch(q) && q.done[0].timer in q.heap
    requires !q.heap[q.done[0].timer].Repeat() || ActiveOf(q.heap, q.done[0].timer) in q.canceling
    ensures q.heap[q.done[0].timer].sequence in q.history.cancelled
            || OneShotRan(q.history.ran, q.heap[q.done[0].timer].sequence)
  {
  }

  lemma DropInv(q: Queue)
    requires Inv(q) && q.done != [] && q.calling && q.done[0].timer in q.heap
    requires !q.heap[q.done[0].timer].Repeat() || ActiveOf(q.heap, q.done[0].timer) in q.canceling
    ensures Inv(RecycleFirst(q))
  {
    hide FreedRightly, CancelKept, RunsMatch, RunsRight, Located, IndexesAgree, Named, Ordered, Elems, Batch;
    var e, h := q.done[0], q.history;
    var h' := h.(freed := h.freed + [q.heap[e.timer].sequence]);
    DoneFirst(q);
    DropPlaced(q);
    DropReason(q);
    RemoveFreed(q.heap, q.queued, h, e.timer);
    CancelShrink(q.heap, Elems(q.timers), Batch(q), q.canceling, h,
                 q.heap - {e.timer}, Elems(q.timers), Batch(q) - {e}, h');
    RunsShrink(q.heap, Elems(q.timers), q.toRun, q.done, h, q.heap - {e.timer}, Elems(q.timers), q.done[1..], h');
    SameRuns(h, h');
  }

  lemma BatchRecyclable(q: Queue)
    requires Placed(q)
    ensures Recyclable(q)
  {
    hide IndexesAgree, Named;
    forall e | e in q.done ensures e.timer in q.heap && q.heap[e.timer].expiration == e.when {
      assert e in Batch(q);
    }
    forall i, j | 0 <= i < j < |q.done| ensures q.done[i].timer != q.done[j].timer {
      var all := q.done + q.toRun;
      assert Earlier(all[i], all[j]) && q.done[i] in q.done && q.done[j] in q.done;
    }
  }

  lemma {:induction false} RecycleInv(q: Queue)
    requires Inv(q) && q.calling && q.toRun == []
    ensures Recyclable(q) && Inv(RecycleAll(q))
    ensures RecycleAll(q).calling && RecycleAll(q).toRun == [] && RecycleAll(q).done == []
    ensures RecycleAll(q).history.ran == q.history.ran
    decreases |q.done|
  {
    hide Placed, Accounted, AlarmKept;
    BatchRecyclable(q);
    if q.done != [] {
      assert q.done[0] in q.done;
      var a := q.done[0].timer;
      if q.heap[a].Repeat() && ActiveOf(q.heap, a) !in q.canceling {
        RestartInv(q);
      } else {
        DropInv(q);
      }
      RecycleInv(RecycleFirst(q));
    }
  }

  lemma RearmInv(q: Queue, clock: int)
    requires Inv(q) && q.calling && q.toRun == [] && q.done == []
    ensures FirstLive(q) && Inv(Rearmed(q, clock))
  {
    if q.timers != [] {
      assert q.timers[0] in Elems(q.timers);
    }
  }

  // ---- runs

  /** Every step the caller may take is safe and keeps the invariant. */
  lemma StepInv(q: Queue, step: Step)
    requires Inv(q) && Enabled(q, step)
    ensures MemorySafe(q, step) && Inv(Next(q, step))
  {
    hide Inv, AfterCreate, AfterAdd, AfterCancel, AfterBegin, AfterRun, RecycleAll, Rearmed, Recyclable, FirstLive;
    match step
    case Create(a, when, interval) => CreateInv(q, a, when, interval);
    case AddInLoop(a, clock) => AddInv(q, a, clock);
    case Cancel(id) => CancelInv(q, id);
    case Begin(now, consumed) => BeginInv(q, now, consumed);
    case RunNext => RunInv(q);
    case End(clock) => RecycleInv(q); RearmInv(RecycleAll(q), clock);
  }

  lemma InitInv()
    ensures Inv(Init())
  {
  }

  /** The queue after a run of steps; a step the callers may not take ends the run. */
  ghost function Exec(q: Queue, steps: seq<Step>): Queue
    decreases |steps|
  {
    if steps == [] || !Enabled(q, steps[0]) || !MemorySafe(q, steps[0]) then q
    else Exec(Next(q, steps[0]), steps[1..])
  }

  lemma {:induction false} ExecInv(q: Queue, steps: seq<Step>)
    requires Inv(q)
    ensures Inv(Exec(q, steps))
    decreases |steps|
  {
    hide Inv, Next;
    if steps != [] && Enabled(q, steps[0]) {
      StepInv(q, steps[0]);
      ExecInv(Next(q, steps[0]), steps[1..]);
    }
  }
}
