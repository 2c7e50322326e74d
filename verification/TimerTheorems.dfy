/** What the invariant means for every run from the empty queue. */
module TimerTheorems {
  import opened Timers
  import opened TimerRuns
  import opened TimerInvariant

  ghost function Reached(steps: seq<Step>): Queue {
    Exec(Init(), steps)
  }

  lemma ReachedInv(steps: seq<Step>)
    ensures Inv(Reached(steps))
  {
    hide Inv, Exec;
    InitInv();
    ExecInv(Init(), steps);
  }

  /** No reachable step touches a deleted timer. */
  lemma NeverTouchesDeleted(steps: seq<Step>, step: Step)
    requires Enabled(Reached(steps), step)
    ensures MemorySafe(Reached(steps), step)
  {
    hide Inv, Exec, MemorySafe, Enabled;
    ReachedInv(steps);
    StepInv(Reached(steps), step);
  }

  /** The pairs that stand for a sorted list of entries in the index by address. */
  function Pairs(heap: map<Addr, Timer>, ts: seq<Entry>): set<ActiveTimer> {
    set e | e in ts && e.timer in heap :: ActiveOf(heap, e.timer)
  }

  lemma {:induction false} PairsCount(heap: map<Addr, Timer>, ts: seq<Entry>)
    requires Sorted(ts) && forall e | e in ts :: e.timer in heap && heap[e.timer].expiration == e.when
    ensures |Pairs(heap, ts)| == |ts|
  {
    if ts != [] {
      var last, rest := ts[|ts| - 1], ts[..|ts| - 1];
      assert ts == rest + [last];
      PairsCount(heap, rest);
      forall e | e in rest ensures e.timer != last.timer {
        var i :| 0 <= i < |rest| && rest[i] == e;
        assert Earlier(ts[i], last) && last in ts && e in ts;
      }
      assert ActiveOf(heap, last.timer) !in Pairs(heap, rest);
      assert Pairs(heap, ts) == Pairs(heap, rest) + {ActiveOf(heap, last.timer)};
    }
  }

  /** The two indexes hold the same timers under their current expirations, and have the same size. */
  lemma IndexesHoldTheSame(steps: seq<Step>)
    ensures var q := Reached(steps);
            && (forall e | e in q.timers :: e.timer in q.heap && q.heap[e.timer].expiration == e.when
                                            && ActiveOf(q.heap, e.timer) in q.active)
            && (forall x | x in q.active :: x.timer in q.heap && x == ActiveOf(q.heap, x.timer)
                                            && EntryOf(q.heap, x.timer) in q.timers)
            && |q.timers| == |q.active|
  {
    hide Exec, Accounted, AlarmKept, Named;
    ReachedInv(steps);
    var q := Reached(steps);
    assert forall e :: e in q.timers <==> e in Elems(q.timers);
    PairsCount(q.heap, q.timers);
    assert forall x | x in q.active :: EntryOf(q.heap, x.timer) in q.timers && x == ActiveOf(q.heap, EntryOf(q.heap, x.timer).timer);
    assert Pairs(q.heap, q.timers) == q.active;
  }

  /** A running batch shares no timer with the pending ones, and all of its timers were due. */
  lemma BatchIsApart(steps: seq<Step>)
    ensures var q := Reached(steps);
            forall e | e in q.done + q.toRun ::
              e.when <= q.now && e.timer in q.heap && ActiveOf(q.heap, e.timer) !in q.active
              && forall x | x in q.timers :: x.timer != e.timer
  {
    hide Exec, Accounted, AlarmKept, Named;
    ReachedInv(steps);
    var q := Reached(steps);
    forall e | e in q.done + q.toRun
      ensures e.timer in q.heap && ActiveOf(q.heap, e.timer) !in q.active
      ensures forall x | x in q.timers :: x.timer != e.timer
    {
      assert e in Batch(q);
      forall x | x in q.timers ensures x.timer != e.timer {
        assert x in Elems(q.timers);
      }
    }
  }

  /** No callback runs before its expiration; a one-shot runs at most once, any timer once a batch. */
  lemma RunsAreRight(steps: seq<Step>)
    ensures var ran := Reached(steps).history.ran;
            && (forall r | r in ran :: r.expiration <= r.now)
            && (forall i, j | 0 <= i < j < |ran| && ran[i].sequence == ran[j].sequence ::
                  ran[i].repeats && ran[j].repeats && ran[i].batch < ran[j].batch)
  {
    hide Exec, Placed, AlarmKept, CancelKept, RunsMatch, FreedRightly;
    ReachedInv(steps);
    var ran := Reached(steps).history.ran;
    forall i, j | 0 <= i < j < |ran| && ran[i].sequence == ran[j].sequence
      ensures ran[j].repeats
    {
      SameTimerSameKind(steps, i, j);
    }
  }

  ghost predicate KindsAgree(ran: seq<Run>) {
    forall i, j | 0 <= i < j < |ran| && ran[i].sequence == ran[j].sequence :: ran[i].repeats == ran[j].repeats
  }

  lemma SameTimerSameKind(steps: seq<Step>, i: nat, j: nat)
    requires i < j < |Reached(steps).history.ran|
    requires Reached(steps).history.ran[i].sequence == Reached(steps).history.ran[j].sequence
    ensures Reached(steps).history.ran[i].repeats == Reached(steps).history.ran[j].repeats
  {
    hide Inv, Exec;
    InitInv();
    KindsKept(Init(), steps);
  }

  lemma {:induction false} KindsKept(q: Queue, steps: seq<Step>)
    requires Inv(q) && KindsAgree(q.history.ran)
    ensures KindsAgree(Exec(q, steps).history.ran)
    decreases |steps|
  {
    hide Inv, Next, KindsAgree;
    if steps != [] && Enabled(q, steps[0]) {
      StepInv(q, steps[0]);
      KindsStep(q, steps[0]);
      KindsKept(Next(q, steps[0]), steps[1..]);
    }
  }

  lemma KindsRun(q: Queue)
    requires Inv(q) && Enabled(q, RunNext) && MemorySafe(q, RunNext) && KindsAgree(q.history.ran)
    ensures KindsAgree(AfterRun(q).history.ran)
  {
    hide Placed, AlarmKept, CancelKept, FreedRightly, OneShotRan, Elems;
    var ran, ran' := q.history.ran, AfterRun(q).history.ran;
    forall i, j | 0 <= i < j < |ran'| && ran'[i].sequence == ran'[j].sequence
      ensures ran'[i].repeats == ran'[j].repeats
    {
      assert ran'[i] == ran[i] && ran[i] in ran;
    }
  }

  lemma KindsStep(q: Queue, step: Step)
    requires Inv(q) && Enabled(q, step) && MemorySafe(q, step) && KindsAgree(q.history.ran)
    ensures KindsAgree(Next(q, step).history.ran)
  {
    hide Inv, KindsAgree;
    if step.RunNext? {
      KindsRun(q);
    } else if step.End? {
      RecycleInv(q);
    }
  }

  /** Later histories extend earlier ones. */
  ghost predicate Extends(h: History, h': History) {
    && h.ran <= h'.ran && h.freed <= h'.freed && h.inserted <= h'.inserted && h.batches <= h'.batches
    && (forall k | k in h.cancelled :: k in h'.cancelled && h'.cancelled[k] == h.cancelled[k])
  }

  lemma {:induction false} RecycleExtends(q: Queue)
    requires Recyclable(q)
    ensures Extends(q.history, RecycleAll(q).history)
    decreases |q.done|
  {
    if q.done != [] {
      assert q.done[0] in q.done;
      RecycleExtends(RecycleFirst(q));
    }
  }

  lemma StepExtends(q: Queue, step: Step)
    requires Enabled(q, step) && MemorySafe(q, step)
    ensures Extends(q.history, Next(q, step).history)
  {
    if step.End? {
      RecycleExtends(q);
    }
  }

  lemma {:induction false} ExecExtends(q: Queue, steps: seq<Step>)
    ensures Extends(q.history, Exec(q, steps).history)
    decreases |steps|
  {
    hide Next, MemorySafe, Enabled;
    if steps != [] && Enabled(q, steps[0]) && MemorySafe(q, steps[0]) {
      StepExtends(q, steps[0]);
      ExecExtends(Next(q, steps[0]), steps[1..]);
    }
  }

  /** A timer cancelled after it was added never runs in a later batch, whatever happens next. */
  lemma CancelledStaysOut(before: seq<Step>, id: ActiveTimer, later: seq<Step>)
    requires Current(Reached(before).history, id)
    ensures var q := Reached(before);
            forall r | r in Exec(AfterCancel(q, id), later).history.ran && r.sequence == id.sequence ::
              r.batch <= q.history.batches
  {
    hide Exec, Placed, FreedRightly, RunsMatch, AlarmKept;
    ReachedInv(before);
    var q := Reached(before);
    CancelInv(q, id);
    CancelNoted(q, id);
    var q' := AfterCancel(q, id);
    ExecExtends(q', later);
    ExecInv(q', later);
  }

  lemma CancelNoted(q: Queue, id: ActiveTimer)
    requires Inv(q) && Current(q.history, id)
    ensures id.sequence in AfterCancel(q, id).history.cancelled
    ensures AfterCancel(q, id).history.cancelled[id.sequence] <= q.history.batches
  {
  }

  /** A timer is deleted at most once, only if cancelled or a one-shot that ran, and lives until then. */
  lemma DeletedExactlyOnce(steps: seq<Step>, k: nat)
    requires k in Reached(steps).history.inserted
    ensures var q := Reached(steps);
            && Distinct(q.history.freed)
            && (k in q.history.freed ==> k in q.history.cancelled || OneShotRan(q.history.ran, k))
            && (k in q.history.freed <==> forall e | e in q.timers + q.done + q.toRun ::
                                            e.timer in q.heap && q.heap[e.timer].sequence != k)
  {
    hide Exec, AlarmKept, RunsMatch, RunsRight, OneShotRan, CancelKept, Ordered, Distinct;
    ReachedInv(steps);
    var q := Reached(steps);
    forall e | e in q.timers + q.done + q.toRun
      ensures e.timer in q.heap
    {
      assert e in Elems(q.timers) || e in Batch(q);
    }
    if k !in q.history.freed {
      var a := q.history.created[k];
      assert a in q.heap && q.heap[a].sequence == k && a !in q.queued;
      assert EntryOf(q.heap, a) in q.timers + q.done + q.toRun;
    }
  }

  /** Whenever no batch is running and a timer is pending, the timerfd is armed early enough for it. */
  lemma AlarmInTime(steps: seq<Step>)
    ensures var q := Reached(steps);
            !q.calling && q.timers != [] ==> ArmedInTime(q)
  {
    hide Exec, Placed, Accounted;
    ReachedInv(steps);
  }

  /** The same queue, but for ids in cancelingTimers_ that name no timer of the batch. */
  ghost predicate SameBut(q: Queue, p: Queue) {
    && p == q.(canceling := p.canceling)
    && forall e | e in q.done + q.toRun && e.timer in q.heap ::
         ActiveOf(q.heap, e.timer) in q.canceling <==> ActiveOf(q.heap, e.timer) in p.canceling
  }

  lemma BatchLive(q: Queue, e: Entry)
    requires Placed(q) && e in q.done + q.toRun
    ensures e.timer in q.heap
  {
    assert e in Batch(q);
  }

  lemma SameCreate(q: Queue, p: Queue, a: Addr, when: int, interval: real)
    requires Placed(q) && SameBut(q, p) && a !in q.heap
    ensures SameBut(AfterCreate(q, a, when, interval), AfterCreate(p, a, when, interval))
  {
    hide Placed;
    forall e | e in q.done + q.toRun
      ensures e.timer in q.heap
    {
      BatchLive(q, e);
    }
  }

  lemma SameCancel(q: Queue, p: Queue, id: ActiveTimer)
    requires SameBut(q, p)
    ensures SameBut(AfterCancel(q, id), AfterCancel(p, id))
  {
  }

  lemma SameRun(q: Queue, p: Queue)
    requires SameBut(q, p) && q.toRun != [] && q.toRun[0].timer in q.heap
    ensures SameBut(AfterRun(q), AfterRun(p))
  {
    assert forall e | e in (q.done + [q.toRun[0]]) + q.toRun[1..] :: e in q.done + q.toRun;
  }

  lemma RestOfBatch(q: Queue, e: Entry)
    requires Recyclable(q) && q.done != [] && e in q.done[1..]
    ensures e in q.done && e.timer != q.done[0].timer && e.timer in q.heap
  {
    var i: nat :| i < |q.done| - 1 && q.done[1..][i] == e;
    assert q.done[i + 1] == e;
  }

  lemma StillRecyclable(q: Queue)
    requires Recyclable(q) && q.done != [] && q.done[0].timer in q.heap
    ensures Recyclable(RecycleFirst(q))
  {
    forall e | e in q.done[1..]
      ensures e.timer != q.done[0].timer && e.timer in q.heap
    {
      RestOfBatch(q, e);
    }
  }

  /** The timer is kept or deleted alike, and the others keep their ids. */
  lemma SameRecycle(q: Queue, p: Queue)
    requires SameBut(q, p) && Recyclable(q) && q.done != [] && q.done[0].timer in q.heap && q.toRun == []
    ensures SameBut(RecycleFirst(q), RecycleFirst(p))
  {
    assert q.done + q.toRun == q.done && q.done[1..] + q.toRun == q.done[1..] && q.done[0] in q.done;
    forall e | e in q.done[1..]
      ensures e in q.done && e.timer != q.done[0].timer && e.timer in q.heap
    {
      RestOfBatch(q, e);
    }
    hide Recyclable;
  }

  lemma {:induction false} SameRecycleAll(q: Queue, p: Queue)
    requires SameBut(q, p) && Recyclable(q) && q.toRun == []
    ensures Recyclable(p) && SameBut(RecycleAll(q), RecycleAll(p))
    ensures RecycleAll(q).done == [] && RecycleAll(q).toRun == []
    decreases |q.done|
  {
    if q.done != [] {
      assert q.done[0] in q.done;
      SameRecycle(q, p);
      StillRecyclable(q);
      hide SameBut, Recyclable;
      SameRecycleAll(RecycleFirst(q), RecycleFirst(p));
    }
  }

  lemma SameEnd(q: Queue, p: Queue, clock: int)
    requires SameBut(q, p) && q.calling && q.toRun == [] && MemorySafe(q, End(clock))
    ensures MemorySafe(p, End(clock)) && SameBut(Next(q, End(clock)), Next(p, End(clock)))
  {
    hide RecycleAll, Recyclable;
    SameRecycleAll(q, p);
  }

  lemma SameStep(q: Queue, p: Queue, step: Step)
    requires Inv(q) && SameBut(q, p)
    ensures Enabled(q, step) <==> Enabled(p, step)
    ensures Enabled(q, step) ==> MemorySafe(q, step) && MemorySafe(p, step) && SameBut(Next(q, step), Next(p, step))
  {
    hide Placed, Accounted, AlarmKept, AfterCreate, AfterCancel, AfterRun, RecycleAll, Recyclable;
    if Enabled(q, step) {
      StepInv(q, step);
      match step
      case Create(a, when, interval) => SameCreate(q, p, a, when, interval);
      case Cancel(id) => SameCancel(q, p, id);
      case RunNext => SameRun(q, p);
      case End(clock) => SameEnd(q, p, clock);
      case _ =>
    }
  }

  lemma {:induction false} SameExec(q: Queue, p: Queue, steps: seq<Step>)
    requires Inv(q) && SameBut(q, p)
    ensures SameBut(Exec(q, steps), Exec(p, steps))
    decreases |steps|
  {
    hide Inv, SameBut, Next, Enabled, MemorySafe;
    if steps != [] {
      SameStep(q, p, steps[0]);
      if Enabled(q, steps[0]) {
        StepInv(q, steps[0]);
        SameExec(Next(q, steps[0]), Next(p, steps[0]), steps[1..]);
      }
    }
  }

  lemma StaleNamesNone(q: Queue, id: ActiveTimer)
    requires Inv(q) && !Current(q.history, id)
    ensures SameBut(q, AfterCancel(q, id))
    ensures forall a | a in q.heap && a !in q.queued :: ActiveOf(q.heap, a) != id
  {
    hide AlarmKept, RunsMatch, RunsRight, OneShotRan, CancelKept;
    if id in q.active {
      ActiveIsLive(q, id);
    }
    forall e | e in q.done + q.toRun && e.timer in q.heap
      ensures ActiveOf(q.heap, e.timer) != id
    {
      assert e in Batch(q);
    }
  }

  /**
   * Cancelling with an id that is not current has no effect, now or later: the same run follows, even if the
   * address is in use again or comes to be.
   */
  lemma StaleIdIsInert(steps: seq<Step>, id: ActiveTimer, later: seq<Step>)
    requires !Current(Reached(steps).history, id)
    ensures var q, p := Exec(Reached(steps), later), Exec(AfterCancel(Reached(steps), id), later);
            p == q.(canceling := p.canceling)
  {
    hide Inv, Exec, AfterCancel, Current;
    ReachedInv(steps);
    var q := Reached(steps);
    StaleNamesNone(q, id);
    SameExec(q, AfterCancel(q, id), later);
  }
}
