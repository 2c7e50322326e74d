/** The queue as the source writes it: methods that update the two indexes in place. */
module TimerQueue {
  import opened Timers
  import opened TimerRuns
  import opened TimerInvariant

  /** Every step of the list is one its callers may take when its turn comes. */
  ghost predicate Legal(q: Queue, steps: seq<Step>)
    decreases |steps|
  {
    steps == [] || (Enabled(q, steps[0]) && MemorySafe(q, steps[0]) && Legal(Next(q, steps[0]), steps[1..]))
  }

  lemma {:induction false} LegalSplit(q: Queue, first: seq<Step>, rest: seq<Step>)
    requires Legal(q, first + rest)
    ensures Legal(q, first) && Legal(Exec(q, first), rest)
    ensures Exec(q, first + rest) == Exec(Exec(q, first), rest)
    decreases |first|
  {
    hide Next, Enabled, MemorySafe;
    if first == [] {
      assert first + rest == rest;
    } else {
      assert (first + rest)[1..] == first[1..] + rest;
      LegalSplit(Next(q, first[0]), first[1..], rest);
    }
  }

  lemma ExecOne(q: Queue, step: Step)
    requires Legal(q, [step])
    ensures Enabled(q, step) && MemorySafe(q, step) && Exec(q, [step]) == Next(q, step)
  {
  }

  predicate CallbackStep(step: Step) {
    step.Create? || step.AddInLoop? || step.Cancel?
  }

  /** The steps of a batch: each callback runs and then does what its script says. */
  function BatchSteps(scripts: seq<seq<Step>>): seq<Step> {
    if scripts == [] then [] else [RunNext] + scripts[0] + BatchSteps(scripts[1..])
  }

  method HowMuchTimeFromNow(when: int, now: int) returns (seconds: int, nanoseconds: int)
    ensures 0 <= nanoseconds < 1_000_000_000
    ensures nanoseconds % 1000 == 0
    ensures seconds * 1_000_000 + nanoseconds / 1000 == if when - now >= 100 then when - now else 100
  {
    var microseconds := when - now;
    if microseconds < 100 {
      microseconds := 100;
    }
    seconds := microseconds / 1_000_000;
    nanoseconds := (microseconds % 1_000_000) * 1000;
  }

  class TimerQueue {
    var timers: seq<Entry>
    var activeTimers: set<ActiveTimer>
    var callingExpiredTimers: bool
    var cancelingTimers: set<ActiveTimer>
    var heap: map<Addr, Timer>
    var numCreated: nat
    var alarm: Alarm

    ghost var queued: set<Addr>
    ghost var now: int
    ghost var toRun: seq<Entry>
    ghost var done: seq<Entry>
    ghost var history: History

    ghost function View(): Queue
      reads this
    {
      Queue(timers, activeTimers, callingExpiredTimers, cancelingTimers, heap, queued, now, toRun, done, alarm, history)
    }

    ghost predicate Valid()
      reads this
    {
      Inv(View()) && numCreated == |history.created|
    }

    constructor ()
      ensures View() == Init() && Valid()
    {
      timers, activeTimers, callingExpiredTimers, cancelingTimers := [], {}, false, {};
      heap, numCreated, alarm := map[], 0, Disarmed;
      queued, now, toRun, done := {}, 0, [], [];
      history := History(map[], {}, [], map[], [], 0);
      new;
      InitInv();
      hide Inv;
    }

    /** Timer::Timer at a free address; the sequence number is the next one. */
    method CreateTimer(a: Addr, when: int, interval: real)
      requires Valid() && Enabled(View(), Create(a, when, interval))
      modifies this
      ensures Valid() && View() == AfterCreate(old(View()), a, when, interval)
    {
      hide Inv;
      StepInv(View(), Create(a, when, interval));
      CreatedCount(View(), a, when, interval);
      numCreated := numCreated + 1;
      heap := heap[a := Timer(when, interval, numCreated)];
      queued := queued + {a};
      history := history.(created := history.created[numCreated := a]);
    }

    method Insert(a: Addr) returns (earliestChanged: bool)
      requires a in heap
      modifies this`timers, this`activeTimers
      ensures View() == Inserted(old(View()), a)
      ensures earliestChanged == EarliestChanges(old(View()), heap[a].expiration)
    {
      earliestChanged := false;
      var when := heap[a].expiration;
      if timers == [] || when < timers[0].when {
        earliestChanged := true;
      }
      timers := InsertEntry(timers, Entry(when, a));
      activeTimers := activeTimers + {ActiveTimer(a, heap[a].sequence)};
    }

    method AddTimerInLoop(a: Addr, clock: int)
      requires Valid() && a in queued && a in heap
      modifies this
      ensures Valid() && View() == AfterAdd(old(View()), a, clock)
    {
      hide Inv, InsertEntry;
      StepInv(View(), AddInLoop(a, clock));
      var earliestChanged := Insert(a);
      if earliestChanged {
        alarm := AlarmFor(heap[a].expiration, clock);
      }
      queued := queued - {a};
      history := history.(inserted := history.inserted + {heap[a].sequence});
    }

    method CancelInLoop(id: ActiveTimer)
      requires Valid()
      modifies this
      ensures Valid() && View() == AfterCancel(old(View()), id)
    {
      hide Inv, EraseEntry, NoteCancel;
      StepInv(View(), Cancel(id));
      NoteKeepsNames(history, id);
      history := NoteCancel(history, id);
      if id in activeTimers {
        timers := EraseEntry(timers, Entry(heap[id.timer].expiration, id.timer));
        heap := heap - {id.timer};
        activeTimers := activeTimers - {id};
        history := history.(freed := history.freed + [id.sequence]);
      } else if callingExpiredTimers {
        cancelingTimers := cancelingTimers + {id};
      }
    }

    /** Moves the expired timers out of both indexes. */
    method GetExpired(now': int) returns (expired: seq<Entry>)
      requires forall e | e in timers[..ExpiredCount(timers, now')] :: e.timer in heap
      modifies this`timers, this`activeTimers
      ensures expired == old(timers[..ExpiredCount(timers, now')])
      ensures timers == old(timers[ExpiredCount(timers, now')..])
      ensures activeTimers == old(activeTimers) - ActiveAmong(heap, expired)
    {
      var end := ExpiredCount(timers, now');
      expired := timers[..end];
      timers := timers[end..];
      for i := 0 to |expired|
        invariant activeTimers == old(activeTimers) - ActiveAmong(heap, expired[..i])
        invariant timers == old(timers[end..])
      {
        assert expired[..i + 1] == expired[..i] + [expired[i]];
        assert expired[i] in expired;
        activeTimers := activeTimers - {ActiveTimer(expired[i].timer, heap[expired[i].timer].sequence)};
      }
      assert expired[..|expired|] == expired;
    }

    /** One pass of the loop in reset(): restart the timer or delete it. */
    method Recycle(a: Addr, now': int)
      requires now' == now && done != [] && done[0].timer == a && a in heap
      modifies this
      ensures View() == RecycleFirst(old(View()))
      ensures if old(heap[a].interval) > 0.0 && ActiveTimer(a, old(heap[a].sequence)) !in cancelingTimers
              then a in heap && OneIntervalLater(old(heap[a].interval), now', heap[a].expiration)
              else a !in heap
      ensures numCreated == old(numCreated) && history.created == old(history.created)
    {
      hide InsertEntry, OneIntervalLater;
      WholeMicroseconds(heap[a].interval, now');
      if heap[a].Repeat() && ActiveTimer(a, heap[a].sequence) !in cancelingTimers {
        heap := heap[a := heap[a].Restarted(now')];
        done := done[1..];
        var _ := Insert(a);
      } else {
        history := history.(freed := history.freed + [heap[a].sequence]);
        heap := heap - {a};
        done := done[1..];
      }
    }

    method Reset(expired: seq<Entry>, now': int, clock: int)
      requires now' == now && expired == done && Recyclable(View()) && FirstLive(RecycleAll(View()))
      modifies this
      ensures View() == Rearmed(RecycleAll(old(View())), clock)
      ensures numCreated == old(numCreated) && history.created == old(history.created)
    {
      for i := 0 to |expired|
        invariant done == expired[i..] && now == now'
        invariant Recyclable(View()) && RecycleAll(View()) == RecycleAll(old(View()))
        invariant numCreated == old(numCreated) && history.created == old(history.created)
      {
        hide RecycleAll, RecycleFirst;
        assert expired[i] in View().done;
        RecycleStep(View());
        Recycle(expired[i].timer, now');
      }
      var nextExpire := 0;
      if timers != [] {
        nextExpire := heap[timers[0].timer].expiration;
      }
      if nextExpire > 0 {
        alarm := AlarmFor(nextExpire, clock);
      }
      callingExpiredTimers := false;
    }

    /** What one callback does, given as a script of the calls it makes. */
    method RunScript(script: seq<Step>)
      requires Valid() && Legal(View(), script) && forall step | step in script :: CallbackStep(step)
      modifies this
      ensures Valid() && View() == Exec(old(View()), script)
    {
      hide Inv, Next, Enabled, MemorySafe;
      for i := 0 to |script|
        invariant Valid() && View() == Exec(old(View()), script[..i]) && Legal(View(), script[i..])
      {
        ghost var q := View();
        assert script[i..] == [script[i]] + script[i + 1..];
        LegalSplit(q, [script[i]], script[i + 1..]);
        ExecOne(q, script[i]);
        assert script[i] in script;
        CallbackNext(q, script[i]);
        match script[i] {
          case Create(a, when, interval) => CreateTimer(a, when, interval);
          case AddInLoop(a, clock) => AddTimerInLoop(a, clock);
          case Cancel(id) => CancelInLoop(id);
        }
        ExtendExec(old(View()), script, i);
      }
      assert script[..|script|] == script;
    }

    /** Timer::run on the first timer of the batch that has not run yet. */
    ghost method NoteRun(e: Entry)
      requires Valid() && callingExpiredTimers && toRun != [] && e == toRun[0] && e.timer in heap
      modifies this`toRun, this`done, this`history
      ensures Valid() && View() == AfterRun(old(View()))
    {
      hide Inv;
      RunInv(View());
      var t := heap[e.timer];
      history := history.(ran := history.ran + [Run(t.sequence, t.expiration, now, history.batches, t.Repeat())]);
      toRun, done := toRun[1..], done + [e];
    }

    /** handleRead() up to its first callback. */
    method StartBatch(now': int, consumed: bool) returns (expired: seq<Entry>)
      requires Valid() && !callingExpiredTimers && now' > 0
      modifies this
      ensures Valid() && View() == AfterBegin(old(View()), now', consumed) && expired == toRun
    {
      hide Inv, ExpiredCount, ActiveAmong;
      BeginInv(View(), now', consumed);
      expired := GetExpired(now');
      if consumed {
        alarm := Disarmed;
      }
      callingExpiredTimers := true;
      cancelingTimers := {};
      now, toRun, done := now', expired, [];
      history := history.(batches := history.batches + 1);
    }

    /** One callback of the batch and the calls it makes. */
    method RunOne(e: Entry, script: seq<Step>)
      requires Valid() && callingExpiredTimers && toRun != [] && e == toRun[0] && e.timer in heap
      requires Legal(AfterRun(View()), script) && forall step | step in script :: CallbackStep(step)
      modifies this
      ensures Valid() && View() == Exec(AfterRun(old(View())), script)
      ensures toRun == old(toRun)[1..] && done == old(done) + [e] && callingExpiredTimers && now == old(now)
    {
      hide Inv, Next, MemorySafe, Enabled, Legal, Exec;
      ghost var q := AfterRun(View());
      NoteRun(e);
      RunScript(script);
      ScriptKeepsBatch(q, script);
    }

    /** A whole batch: its callbacks, in order, each followed by what its script does, then reset(). */
    method HandleRead(now': int, consumed: bool, scripts: seq<seq<Step>>, clock: int)
      requires Valid() && !callingExpiredTimers && now' > 0
      requires |scripts| == ExpiredCount(timers, now')
      requires forall i, step | 0 <= i < |scripts| && step in scripts[i] :: CallbackStep(step)
      requires Legal(AfterBegin(View(), now', consumed), BatchSteps(scripts) + [End(clock)])
      modifies this
      ensures Valid()
      ensures View() == Exec(AfterBegin(old(View()), now', consumed), BatchSteps(scripts) + [End(clock)])
    {
      hide Inv, Next, MemorySafe, Enabled, Legal, Exec, BatchSteps, ExpiredCount, AfterRun;
      ghost var begin := AfterBegin(View(), now', consumed);
      var expired := StartBatch(now', consumed);
      hide AfterBegin;
      NoSteps(begin, scripts);
      for i := 0 to |expired|
        invariant Valid() && callingExpiredTimers && now == now'
        invariant toRun == expired[i..] && done == expired[..i]
        invariant View() == Exec(begin, BatchSteps(scripts[..i]))
        invariant Legal(View(), BatchSteps(scripts[i..]) + [End(clock)])
      {
        NextInBatch(View(), scripts[i..], [End(clock)]);
        BatchStepsUpTo(begin, scripts, i, [End(clock)]);
        RunOne(expired[i], scripts[i]);
      }
      assert scripts[..|expired|] == scripts;
      LastInBatch(begin, View(), scripts, scripts[|expired|..], clock);
      EndKeepsNames(View());
      Reset(expired, now', clock);
    }
  }

  lemma CallbackNext(q: Queue, step: Step)
    requires Enabled(q, step) && MemorySafe(q, step) && CallbackStep(step)
    ensures match step
            case Create(a, when, interval) =>
              Enabled(q, Create(a, when, interval)) && Next(q, step) == AfterCreate(q, a, when, interval)
            case AddInLoop(a, clock) => a in q.queued && a in q.heap && Next(q, step) == AfterAdd(q, a, clock)
            case Cancel(id) => Next(q, step) == AfterCancel(q, id)
            case _ => true
  {
  }

  lemma NoSteps(q: Queue, scripts: seq<seq<Step>>)
    ensures Exec(q, BatchSteps(scripts[..0])) == q && scripts[0..] == scripts
  {
  }

  lemma NextInBatch(q: Queue, scripts: seq<seq<Step>>, rest: seq<Step>)
    requires scripts != [] && Legal(q, BatchSteps(scripts) + rest) && Inv(q)
    ensures q.toRun != [] && q.toRun[0].timer in q.heap
    ensures Enabled(q, RunNext) && MemorySafe(q, RunNext) && Next(q, RunNext) == AfterRun(q)
    ensures Legal(AfterRun(q), scripts[0])
    ensures Legal(Exec(AfterRun(q), scripts[0]), BatchSteps(scripts[1..]) + rest)
  {
    hide Inv, Exec;
    var tail := BatchSteps(scripts[1..]) + rest;
    assert BatchSteps(scripts) + rest == [RunNext] + (scripts[0] + tail);
    assert ([RunNext] + (scripts[0] + tail))[1..] == scripts[0] + tail;
    LegalSplit(AfterRun(q), scripts[0], tail);
  }

  lemma LastInBatch(begin: Queue, q: Queue, scripts: seq<seq<Step>>, none: seq<seq<Step>>, clock: int)
    requires none == [] && Legal(q, BatchSteps(none) + [End(clock)]) && Inv(q)
    requires q == Exec(begin, BatchSteps(scripts)) && Legal(begin, BatchSteps(scripts) + [End(clock)])
    ensures Recyclable(q) && FirstLive(RecycleAll(q)) && Inv(Rearmed(RecycleAll(q), clock))
    ensures Exec(begin, BatchSteps(scripts) + [End(clock)]) == Rearmed(RecycleAll(q), clock)
  {
    hide Inv, RecycleAll, Rearmed, FirstLive;
    assert BatchSteps(none) + [End(clock)] == [End(clock)];
    LegalSplit(begin, BatchSteps(scripts), [End(clock)]);
    ExecOne(q, End(clock));
    StepInv(q, End(clock));
  }

  lemma {:induction false} BatchStepsAppend(scripts: seq<seq<Step>>, script: seq<Step>)
    ensures BatchSteps(scripts + [script]) == BatchSteps(scripts) + ([RunNext] + script)
  {
    if scripts != [] {
      assert (scripts + [script])[1..] == scripts[1..] + [script];
      BatchStepsAppend(scripts[1..], script);
    }
  }

  lemma {:induction false} BatchStepsSplit(first: seq<seq<Step>>, rest: seq<seq<Step>>)
    ensures BatchSteps(first + rest) == BatchSteps(first) + BatchSteps(rest)
  {
    if first == [] {
      assert first + rest == rest;
    } else {
      assert (first + rest)[1..] == first[1..] + rest;
      BatchStepsSplit(first[1..], rest);
    }
  }

  /** Running callback `i` and its script extends the run of the batch by just those steps. */
  lemma BatchStepsUpTo(begin: Queue, scripts: seq<seq<Step>>, i: nat, rest: seq<Step>)
    requires i < |scripts| && Legal(begin, BatchSteps(scripts) + rest)
    ensures var q := Exec(begin, BatchSteps(scripts[..i]));
            && Enabled(q, RunNext) && MemorySafe(q, RunNext)
            && Exec(begin, BatchSteps(scripts[..i + 1])) == Exec(Next(q, RunNext), scripts[i])
  {
    hide Next, MemorySafe, Enabled;
    var first := BatchSteps(scripts[..i]);
    assert scripts == scripts[..i + 1] + scripts[i + 1..] && scripts[..i + 1] == scripts[..i] + [scripts[i]];
    BatchStepsSplit(scripts[..i + 1], scripts[i + 1..]);
    BatchStepsAppend(scripts[..i], scripts[i]);
    assert BatchSteps(scripts) + rest
           == (first + ([RunNext] + scripts[i])) + (BatchSteps(scripts[i + 1..]) + rest);
    LegalSplit(begin, first + ([RunNext] + scripts[i]), BatchSteps(scripts[i + 1..]) + rest);
    LegalSplit(begin, first, [RunNext] + scripts[i]);
    assert ([RunNext] + scripts[i])[1..] == scripts[i];
  }

  lemma {:induction false} ScriptKeepsBatch(q: Queue, script: seq<Step>)
    requires Legal(q, script) && forall step | step in script :: CallbackStep(step)
    ensures var q' := Exec(q, script);
            q'.toRun == q.toRun && q'.done == q.done && q'.calling == q.calling && q'.now == q.now
    decreases |script|
  {
    if script != [] {
      assert script[0] in script;
      ScriptKeepsBatch(Next(q, script[0]), script[1..]);
    }
  }

  lemma {:induction false} EndKeepsNames(q: Queue)
    requires Recyclable(q)
    ensures RecycleAll(q).history.created == q.history.created
    decreases |q.done|
  {
    if q.done != [] {
      assert q.done[0] in q.done;
      EndKeepsNames(RecycleFirst(q));
    }
  }

  lemma CreatedCount(q: Queue, a: Addr, when: int, interval: real)
    requires Inv(q)
    ensures |AfterCreate(q, a, when, interval).history.created| == |q.history.created| + 1
  {
  }

  lemma NoteKeepsNames(h: History, id: ActiveTimer)
    ensures NoteCancel(h, id).created == h.created && NoteCancel(h, id).freed == h.freed
  {
  }

  lemma RecycleStep(q: Queue)
    requires Recyclable(q) && q.done != [] && q.done[0].timer in q.heap
    ensures RecycleFirst(q).done == q.done[1..] && RecycleFirst(q).now == q.now
    ensures Recyclable(RecycleFirst(q)) && RecycleAll(RecycleFirst(q)) == RecycleAll(q)
  {
  }

  lemma ExtendExec(q: Queue, steps: seq<Step>, i: nat)
    requires i < |steps| && Legal(q, steps)
    ensures Exec(q, steps[..i + 1]) == Exec(Exec(q, steps[..i]), [steps[i]])
  {
    hide Next, Enabled, MemorySafe;
    assert steps == steps[..i + 1] + steps[i + 1..];
    LegalSplit(q, steps[..i + 1], steps[i + 1..]);
    assert steps[..i + 1] == steps[..i] + [steps[i]];
    LegalSplit(q, steps[..i], [steps[i]]);
  }
}
