/**
 * The functor queue of an event loop as interleaved atomic steps (src/muduo/net/EventLoop.cc): other
 * threads push under the mutex and then write the eventfd; the loop polls, reads the eventfd, swaps the
 * queue out under the mutex, runs what it swapped out, and destroys it.
 */
module LoopRuns {

  type Tid = nat

  /**
   * A queued functor, with the loop iteration it was pushed in, whether that was after its swap, and whether the loop
   * thread pushed it where it neither writes the eventfd nor swaps before it polls.
   */
  datatype Functor = Functor(id: nat, iteration: nat, afterSwap: bool, silent: bool)

  datatype Executed = Executed(functor: Functor, iteration: nat)

  /** Where the loop thread is. */
  datatype Phase =
    | Starting                  // loop() has not been called yet
    | Polling
    | Handling(wakeup: bool)    // channels that poll reported; the wakeup channel may be among them
    | Swapping                  // callingPendingFunctors_ is set, the queue not swapped yet
    | Running
    | Releasing                 // the flag is cleared, the functors that ran are being destroyed

  datatype Loop = Loop(
    phase: Phase,
    iteration: nat,
    pending: seq<Functor>,
    batch: seq<Functor>,          // swapped out, not run yet
    eventfd: nat,
    pushers: set<Tid>,            // other threads between their push and their wakeup
    loopPushing: bool,            // the loop thread between its push and its wakeup
    queued: seq<Functor>,         // every functor ever pushed, in order
    executed: seq<Executed>)

  datatype Step =
    | PushBeforeLoop(id: nat)     // queueInLoop in the loop thread, ahead of loop()
    | EnterLoop
    | Push(thread: Tid, id: nat)
    | Wake(thread: Tid)
    | ExtraWake                   // quit() and other writers of the eventfd
    | PollReturn(wakeup: bool)
    | HandleWakeup
    | PushFromHandler(id: nat)
    | StartFunctors
    | Swap
    | RunNext
    | PushFromFunctor(id: nat)
    | WakeFromFunctor
    | Finish
    | PushFromDestructor(id: nat) // queueInLoop in the destructor of what a functor holds
    | Return

  function Init(): Loop {
    Loop(Starting, 0, [], [], 0, {}, false, [], [])
  }

  predicate Enabled(l: Loop, step: Step) {
    match step
    case PushBeforeLoop(_) => l.phase == Starting
    case EnterLoop => l.phase == Starting
    case Push(t, _) => t !in l.pushers
    case Wake(t) => t in l.pushers
    case ExtraWake => true
    case PollReturn(wakeup) => l.phase == Polling && (wakeup ==> l.eventfd > 0)
    case HandleWakeup => l.phase == Handling(true)
    case PushFromHandler(_) => l.phase.Handling?
    case StartFunctors => l.phase == Handling(false)
    case Swap => l.phase == Swapping
    case RunNext => l.phase == Running && !l.loopPushing && l.batch != []
    case PushFromFunctor(_) => l.phase == Running && !l.loopPushing
    case WakeFromFunctor => l.loopPushing
    case Finish => l.phase == Running && !l.loopPushing && l.batch == []
    case PushFromDestructor(_) => l.phase == Releasing && RanSome(l)
    case Return => l.phase == Releasing
  }

  /** Some functor ran in this iteration. */
  predicate RanSome(l: Loop) {
    l.executed != [] && l.executed[|l.executed| - 1].iteration == l.iteration
  }

  function Pushed(l: Loop, id: nat, silent: bool): Loop {
    var f := Functor(id, l.iteration, l.phase == Running || l.phase == Releasing, silent);
    l.(pending := l.pending + [f], queued := l.queued + [f])
  }

  function Next(l: Loop, step: Step): Loop
    requires Enabled(l, step)
  {
    match step
    case PushBeforeLoop(id) => Pushed(l, id, true)
    case EnterLoop => l.(phase := Polling)
    case Push(t, id) => Pushed(l, id, false).(pushers := l.pushers + {t})
    case Wake(t) => l.(eventfd := l.eventfd + 1, pushers := l.pushers - {t})
    case ExtraWake => l.(eventfd := l.eventfd + 1)
    case PollReturn(wakeup) => l.(phase := Handling(wakeup), iteration := l.iteration + 1)
    case HandleWakeup => l.(eventfd := 0, phase := Handling(false))
    case PushFromHandler(id) => Pushed(l, id, false)
    case StartFunctors => l.(phase := Swapping)
    case Swap => l.(phase := Running, batch := l.pending, pending := [])
    case RunNext => l.(batch := l.batch[1..], executed := l.executed + [Executed(l.batch[0], l.iteration)])
    case PushFromFunctor(id) => Pushed(l, id, false).(loopPushing := true)
    case WakeFromFunctor => l.(eventfd := l.eventfd + 1, loopPushing := false)
    case Finish => l.(phase := Releasing)
    case PushFromDestructor(id) => Pushed(l, id, true)
    case Return => l.(phase := Polling)
  }

  function Exec(l: Loop, steps: seq<Step>): Loop
    decreases |steps|
  {
    if steps == [] || !Enabled(l, steps[0]) then l else Exec(Next(l, steps[0]), steps[1..])
  }
}

module LoopTheorems {
  import opened LoopRuns

  function Functors(executed: seq<Executed>): seq<Functor> {
    seq(|executed|, i requires 0 <= i < |executed| => executed[i].functor)
  }

  /** The next poll will end at once, now or when some thread gets to its wakeup. */
  predicate Roused(l: Loop) {
    l.eventfd > 0 || l.pushers != {} || l.loopPushing
  }

  /** Past the swap and up to the next return from poll, when the eventfd is not read. */
  predicate Unread(l: Loop) {
    l.phase == Starting || l.phase == Running || l.phase == Releasing || l.phase == Polling
  }

  /** Whatever is pending when the loop polls will end the poll, silent pushes left out. */
  predicate WakesForAnnounced(l: Loop) {
    && (l.loopPushing ==> l.phase == Running)
    && (Unread(l) ==> forall f | f in l.pending && !f.silent :: Roused(l))
  }

  /** The same with nothing left out. */
  predicate WillWake(l: Loop) {
    && (l.loopPushing ==> l.phase == Running)
    && (Unread(l) && l.pending != [] ==> Roused(l))
  }

  /** queueInLoop in the loop thread where it does not write the eventfd and poll comes before the swap. */
  predicate Silent(step: Step) {
    step.PushBeforeLoop? || step.PushFromDestructor?
  }

  predicate InOrder(l: Loop) {
    && Functors(l.executed) + l.batch + l.pending == l.queued
    && (l.phase != Running ==> l.batch == [])
  }

  /** A functor pushed after the swap of an iteration is not part of that iteration's batch. */
  predicate Deferred(l: Loop) {
    && (forall f | f in l.pending :: f.iteration <= l.iteration)
    && (forall f | f in l.pending && f.afterSwap && (l.phase.Handling? || l.phase == Swapping) :: f.iteration < l.iteration)
    && (forall f | f in l.batch :: f.iteration <= l.iteration && (f.afterSwap ==> f.iteration < l.iteration))
    && (forall x | x in l.executed ::
          x.functor.iteration <= x.iteration && (x.functor.afterSwap ==> x.functor.iteration < x.iteration))
  }

  predicate Inv(l: Loop) {
    WakesForAnnounced(l) && InOrder(l) && Deferred(l)
  }

  lemma StepWakes(l: Loop, step: Step)
    requires WillWake(l) && Enabled(l, step) && !Silent(step)
    ensures WillWake(Next(l, step))
  {
  }

  lemma StepWakesForAnnounced(l: Loop, step: Step)
    requires WakesForAnnounced(l) && Enabled(l, step)
    ensures WakesForAnnounced(Next(l, step))
  {
  }

  lemma StepInOrder(l: Loop, step: Step)
    requires InOrder(l) && Enabled(l, step)
    ensures InOrder(Next(l, step))
  {
  }

  lemma StepDeferred(l: Loop, step: Step)
    requires Deferred(l) && Enabled(l, step)
    ensures Deferred(Next(l, step))
  {
  }

  lemma StepInv(l: Loop, step: Step)
    requires Inv(l) && Enabled(l, step)
    ensures Inv(Next(l, step))
  {
    hide WakesForAnnounced, InOrder, Deferred, Next, Enabled;
    StepWakesForAnnounced(l, step);
    StepInOrder(l, step);
    StepDeferred(l, step);
  }

  lemma {:induction false} ExecInv(l: Loop, steps: seq<Step>)
    requires Inv(l)
    ensures Inv(Exec(l, steps))
    decreases |steps|
  {
    hide Inv, Next, Enabled;
    if steps != [] && Enabled(l, steps[0]) {
      StepInv(l, steps[0]);
      ExecInv(Next(l, steps[0]), steps[1..]);
    }
  }

  lemma {:induction false} ExecWakes(l: Loop, steps: seq<Step>)
    requires WillWake(l) && forall step | step in steps :: !Silent(step)
    ensures WillWake(Exec(l, steps))
    decreases |steps|
  {
    hide WillWake, Next, Enabled, Silent;
    if steps != [] && Enabled(l, steps[0]) {
      assert steps[0] in steps;
      StepWakes(l, steps[0]);
      ExecWakes(Next(l, steps[0]), steps[1..]);
    }
  }

  /**
   * No lost wakeup: whenever the loop is at poll with a functor pending that was not pushed silently, the eventfd is
   * readable or some thread has pushed and is about to write it.
   */
  lemma NoLostWakeup(steps: seq<Step>, f: Functor)
    ensures var l := Exec(Init(), steps);
            l.phase == Polling && f in l.pending && !f.silent ==>
              Enabled(l, PollReturn(true)) || exists t :: Enabled(l, Wake(t))
  {
    hide Exec;
    ExecInv(Init(), steps);
    var l := Exec(Init(), steps);
    if l.phase == Polling && f in l.pending && !f.silent && l.eventfd == 0 {
      var t :| t in l.pushers;
      assert Enabled(l, Wake(t));
    }
  }

  /** A functor is pending at poll, and only the poll's timeout or some other channel will end it. */
  predicate Lost(l: Loop) {
    l.phase == Polling && l.pending != [] && l.eventfd == 0 && l.pushers == {}
  }

  /** However the run goes on without silent pushes, no functor is lost at poll. */
  ghost predicate NeverLost(l: Loop) {
    forall later | (forall step | step in later :: !Silent(step)) :: !Lost(Exec(l, later))
  }

  /** The step to poll from where the loop thread can push silently. */
  function ToPoll(l: Loop): Step {
    if l.phase == Starting then EnterLoop else Return
  }

  /**
   * A functor that the loop thread queues before loop(), or while the functors of a batch are destroyed, is not woken
   * for. Going on to poll is safe, however the run goes on without further such pushes, exactly when by then nothing
   * is queued, or a wakeup is written or on its way.
   */
  lemma NeverLostExactly(before: seq<Step>)
    requires var l := Exec(Init(), before); l.phase == Starting || l.phase == Releasing
    ensures var l := Exec(Init(), before);
            NeverLost(Next(l, ToPoll(l))) <==> l.pending == [] || l.eventfd > 0 || l.pushers != {}
  {
    hide Exec;
    var l := Exec(Init(), before);
    ExecInv(Init(), before);
    var entered := Next(l, ToPoll(l));
    if l.pending == [] || l.eventfd > 0 || l.pushers != {} {
      forall later | (forall step | step in later :: !Silent(step)) ensures !Lost(Exec(entered, later)) {
        ExecWakes(entered, later);
      }
    } else {
      NoStep(entered);
      var now: seq<Step> := [];
      assert (forall step | step in now :: !Silent(step)) && Lost(Exec(entered, now));
    }
  }

  lemma NoStep(l: Loop)
    ensures Exec(l, []) == l
  {
  }

  lemma Prefixed(l: Loop, step: Step, rest: seq<Step>)
    requires Enabled(l, step)
    ensures Exec(l, [step] + rest) == Exec(Next(l, step), rest)
  {
    assert ([step] + rest)[1..] == rest;
  }

  lemma ThreeSteps(l: Loop, a: Step, b: Step, c: Step, rest: seq<Step>)
    requires Enabled(l, a) && Enabled(Next(l, a), b) && Enabled(Next(Next(l, a), b), c)
    ensures Exec(l, [a, b, c] + rest) == Exec(Next(Next(Next(l, a), b), c), rest)
  {
    hide Exec, Next, Enabled;
    assert [a, b, c] + rest == [a] + ([b] + ([c] + rest));
    Prefixed(l, a, [b] + ([c] + rest));
    Prefixed(Next(l, a), b, [c] + rest);
    Prefixed(Next(Next(l, a), b), c, rest);
  }

  /** One functor queued by the loop thread before loop(): nothing is there to end the first poll. */
  lemma LostBeforeLoop()
    ensures var l := Exec(Init(), [PushBeforeLoop(7), EnterLoop]);
            Lost(l) && !Enabled(l, PollReturn(true)) && forall t :: !Enabled(l, Wake(t))
  {
    var pushed := Next(Init(), PushBeforeLoop(7));
    var l := Next(pushed, EnterLoop);
    assert [PushBeforeLoop(7), EnterLoop][1..] == [EnterLoop] && [EnterLoop][1..] == [];
    assert Exec(l, []) == l && Exec(pushed, [EnterLoop]) == l;
  }

  /** A functor that holds an object whose destructor queues another: nothing is there to end the next poll. */
  lemma LostAfterBatch()
    ensures var l := Exec(Init(), [EnterLoop, PollReturn(false), PushFromHandler(7)]
                                  + ([StartFunctors, Swap, RunNext] + [Finish, PushFromDestructor(8), Return]));
            Lost(l) && !Enabled(l, PollReturn(true)) && forall t :: !Enabled(l, Wake(t))
  {
    hide Exec;
    var release := [Finish, PushFromDestructor(8), Return];
    var l1 := Next(Next(Next(Init(), EnterLoop), PollReturn(false)), PushFromHandler(7));
    var l2 := Next(Next(Next(l1, StartFunctors), Swap), RunNext);
    var l3 := Next(Next(Next(l2, Finish), PushFromDestructor(8)), Return);
    ThreeSteps(Init(), EnterLoop, PollReturn(false), PushFromHandler(7), [StartFunctors, Swap, RunNext] + release);
    ThreeSteps(l1, StartFunctors, Swap, RunNext, release);
    ThreeSteps(l2, Finish, PushFromDestructor(8), Return, []);
    assert release + [] == release;
    NoStep(l3);
  }

  /** Functors run in the order they were queued, each once, and none is lost. */
  lemma RunInQueueOrder(steps: seq<Step>)
    ensures var l := Exec(Init(), steps);
            && Functors(l.executed) <= l.queued
            && Functors(l.executed) + l.batch + l.pending == l.queued
            && (l.phase == Polling ==> Functors(l.executed) + l.pending == l.queued)
  {
    hide Exec;
    ExecInv(Init(), steps);
    var l := Exec(Init(), steps);
    assert l.queued == Functors(l.executed) + (l.batch + l.pending);
    if l.phase == Polling {
      assert l.batch + l.pending == l.pending;
    }
  }

  /** What is queued after the swap of an iteration, by a running functor or anyone else, runs in a later one. */
  lemma QueuedDuringBatchWaits(steps: seq<Step>)
    ensures forall x | x in Exec(Init(), steps).executed ::
              x.functor.iteration <= x.iteration && (x.functor.afterSwap ==> x.functor.iteration < x.iteration)
  {
    hide Exec;
    ExecInv(Init(), steps);
  }

  /** Everything queued by the time of a swap has run when that batch is finished. */
  lemma {:induction false} BatchRunsAll(l: Loop, steps: seq<Step>)
    requires Inv(l) && l.phase == Swapping
    requires Exec(l, steps).phase == Releasing || Exec(l, steps).phase == Polling
    ensures l.queued <= Functors(Exec(l, steps).executed)
    decreases |steps|
  {
    hide Inv, Next, Enabled;
    StepToSwap(l, steps);
    if steps[0].Swap? {
      var l' := Next(l, Swap);
      StepInv(l, Swap);
      AfterSwap(l);
      BatchRunsRest(l', steps[1..], l.queued);
    } else {
      StepInv(l, steps[0]);
      BatchRunsAll(Next(l, steps[0]), steps[1..]);
    }
  }

  lemma StepToSwap(l: Loop, steps: seq<Step>)
    requires l.phase == Swapping && Exec(l, steps).phase != Swapping
    ensures steps != [] && Enabled(l, steps[0])
    ensures Exec(l, steps) == Exec(Next(l, steps[0]), steps[1..])
    ensures !steps[0].Swap? ==> Next(l, steps[0]).phase == Swapping && l.queued <= Next(l, steps[0]).queued
  {
  }

  lemma AfterSwap(l: Loop)
    requires Inv(l) && l.phase == Swapping
    ensures var l' := Next(l, Swap);
            l'.phase == Running && Functors(l'.executed) + l'.batch == l.queued
  {
  }

  lemma {:induction false} BatchRunsRest(l: Loop, steps: seq<Step>, due: seq<Functor>)
    requires Inv(l) && (l.phase == Running ==> due <= Functors(l.executed) + l.batch)
    requires l.phase != Running ==> due <= Functors(l.executed)
    ensures Exec(l, steps).phase != Running ==> due <= Functors(Exec(l, steps).executed)
    decreases |steps|
  {
    hide Inv, Next, Enabled;
    if steps != [] && Enabled(l, steps[0]) {
      StepInv(l, steps[0]);
      DueKept(l, steps[0], due);
      BatchRunsRest(Next(l, steps[0]), steps[1..], due);
    }
  }

  lemma DueKept(l: Loop, step: Step, due: seq<Functor>)
    requires Inv(l) && Enabled(l, step)
    requires if l.phase == Running then due <= Functors(l.executed) + l.batch else due <= Functors(l.executed)
    ensures var l' := Next(l, step);
            if l'.phase == Running then due <= Functors(l'.executed) + l'.batch else due <= Functors(l'.executed)
  {
  }
}

/** Runs in which every step can happen, and how they split. */
module LoopSchedules {
  import opened LoopRuns
  import opened LoopTheorems

  /** Every step of the list can happen when its turn comes. */
  predicate Legal(l: Loop, steps: seq<Step>)
    decreases |steps|
  {
    steps != [] ==> Enabled(l, steps[0]) && Legal(Next(l, steps[0]), steps[1..])
  }

  lemma {:induction false} LegalSplit(l: Loop, first: seq<Step>, rest: seq<Step>)
    requires Legal(l, first + rest)
    ensures Legal(l, first) && Legal(Exec(l, first), rest) && Exec(l, first + rest) == Exec(Exec(l, first), rest)
    decreases |first|
  {
    if first == [] {
      assert first + rest == rest;
    } else {
      hide Next, Enabled;
      assert (first + rest)[1..] == first[1..] + rest;
      LegalSplit(Next(l, first[0]), first[1..], rest);
    }
  }

  lemma OneStep(l: Loop, step: Step)
    requires Legal(l, [step])
    ensures Enabled(l, step) && Exec(l, [step]) == Next(l, step)
  {
    assert [step][1..] == [];
  }

  /** What other threads do, and what a callback of the loop does while it runs. */
  predicate Between(step: Step) {
    step.Push? || step.Wake? || step.ExtraWake? || step.PushFromHandler? || step.PushFromFunctor? || step.WakeFromFunctor?
    || step.PushFromDestructor?
  }

  predicate AllBetween(steps: seq<Step>) {
    forall step | step in steps :: Between(step)
  }

  lemma BetweenStep(l: Loop, step: Step)
    requires Enabled(l, step) && Between(step)
    ensures var l' := Next(l, step);
            l'.phase == l.phase && l'.batch == l.batch && l'.iteration == l.iteration && l'.executed == l.executed
  {
  }

  lemma {:induction false} ScriptKeeps(l: Loop, script: seq<Step>)
    requires Legal(l, script) && AllBetween(script)
    ensures var l' := Exec(l, script);
            l'.phase == l.phase && l'.batch == l.batch && l'.iteration == l.iteration && l'.executed == l.executed
    decreases |script|
  {
    hide Next, Enabled, Between;
    if script != [] {
      assert script[0] in script;
      BetweenStep(l, script[0]);
      ScriptKeeps(Next(l, script[0]), script[1..]);
    }
  }

  /** Each functor of the batch runs, with what it and other threads do meanwhile. */
  function BatchSteps(scripts: seq<seq<Step>>): seq<Step> {
    if scripts == [] then [] else [RunNext] + scripts[0] + BatchSteps(scripts[1..])
  }

  /** doPendingFunctors: other threads do `before` between the flag and the swap, `after` is done on destruction. */
  function PendingSteps(before: seq<Step>, scripts: seq<seq<Step>>, after: seq<Step>): seq<Step> {
    [StartFunctors] + before + ([Swap] + (BatchSteps(scripts) + ([Finish] + (after + [Return]))))
  }

  ghost predicate AllScripts(scripts: seq<seq<Step>>) {
    forall i | 0 <= i < |scripts| :: AllBetween(scripts[i])
  }

  /** The next functor of the batch: its run, its script, and the rest of the batch. */
  lemma NextInBatch(l: Loop, scripts: seq<seq<Step>>, tail: seq<Step>)
    requires scripts != [] && Legal(l, BatchSteps(scripts) + tail) && AllScripts(scripts)
    ensures Enabled(l, RunNext) && Legal(Next(l, RunNext), scripts[0])
    ensures var l' := Exec(Next(l, RunNext), scripts[0]);
            && Legal(l', BatchSteps(scripts[1..]) + tail)
            && Exec(l, BatchSteps(scripts) + tail) == Exec(l', BatchSteps(scripts[1..]) + tail)
            && l'.phase == Running && l'.iteration == l.iteration && l'.batch == l.batch[1..]
            && l'.executed == l.executed + [Executed(l.batch[0], l.iteration)]
  {
    var rest := BatchSteps(scripts[1..]) + tail;
    assert BatchSteps(scripts) + tail == [RunNext] + (scripts[0] + rest);
    hide BatchSteps;
    LegalSplit(l, [RunNext], scripts[0] + rest);
    OneStep(l, RunNext);
    var ran := Next(l, RunNext);
    LegalSplit(ran, scripts[0], rest);
    ScriptKeeps(ran, scripts[0]);
  }

  lemma {:induction false} BatchCount(l: Loop, scripts: seq<seq<Step>>, tail: seq<Step>)
    requires Legal(l, BatchSteps(scripts) + ([Finish] + tail)) && AllScripts(scripts)
    ensures |l.batch| == |scripts|
    decreases |scripts|
  {
    if scripts == [] {
      assert BatchSteps(scripts) + ([Finish] + tail) == [Finish] + tail;
    } else {
      hide BatchSteps, Legal, Exec;
      NextInBatch(l, scripts, [Finish] + tail);
      BatchCount(Exec(Next(l, RunNext), scripts[0]), scripts[1..], tail);
    }
  }

  /** One pass of the loop: what others do during poll, the handlers around the wakeup channel's, the functors. */
  datatype Iteration = Iteration(
    polling: seq<Step>,
    wakeup: bool,
    first: seq<Step>,
    rest: seq<Step>,
    before: seq<Step>,
    scripts: seq<seq<Step>>,
    after: seq<Step>)

  ghost predicate Proper(it: Iteration) {
    && AllBetween(it.polling) && AllBetween(it.first) && AllBetween(it.rest)
    && AllBetween(it.before) && AllScripts(it.scripts) && AllBetween(it.after)
  }

  function HandlerSteps(it: Iteration): seq<Step> {
    it.first + ((if it.wakeup then [HandleWakeup] else []) + it.rest)
  }

  function IterationSteps(it: Iteration): seq<Step> {
    it.polling + ([PollReturn(it.wakeup)] + (HandlerSteps(it) + PendingSteps(it.before, it.scripts, it.after)))
  }

  function LoopSteps(iterations: seq<Iteration>): seq<Step> {
    if iterations == [] then [] else IterationSteps(iterations[0]) + LoopSteps(iterations[1..])
  }
}

/** The loop's methods, with what other threads do in between as a parameter. */
module EventLoop {
  import opened LoopRuns
  import opened LoopTheorems
  import opened LoopSchedules

  function Ran(batch: seq<Functor>, iteration: nat): seq<Executed> {
    seq(|batch|, i requires 0 <= i < |batch| => Executed(batch[i], iteration))
  }

  lemma OneMoreRan(functors: seq<Functor>, i: nat, iteration: nat)
    requires i < |functors|
    ensures Ran(functors[..i + 1], iteration) == Ran(functors[..i], iteration) + [Executed(functors[i], iteration)]
  {
  }

  class EventLoop {
    var pendingFunctors: seq<Functor>
    var callingPendingFunctors: bool
    var wakeupFd: nat
    var iteration: nat
    var phase: Phase
    ghost var batch: seq<Functor>
    ghost var pushers: set<Tid>
    ghost var loopPushing: bool
    ghost var queued: seq<Functor>
    ghost var executed: seq<Executed>

    ghost function View(): LoopRuns.Loop
      reads this
    {
      LoopRuns.Loop(phase, iteration, pendingFunctors, batch, wakeupFd, pushers, loopPushing, queued, executed)
    }

    ghost predicate Valid()
      reads this
    {
      Inv(View()) && (callingPendingFunctors <==> phase == Swapping || phase == Running)
    }

    constructor ()
      ensures Valid() && View() == Init()
    {
      pendingFunctors, callingPendingFunctors, wakeupFd := [], false, 0;
      phase, iteration, batch, pushers, loopPushing, queued, executed := Starting, 0, [], {}, false, [], [];
    }

    /** The locked part of queueInLoop. */
    method PushPending(id: nat, silent: bool)
      modifies this`pendingFunctors, this`queued
      ensures View() == Pushed(old(View()), id, silent)
      ensures |pendingFunctors| == |old(pendingFunctors)| + 1 && old(pendingFunctors) < pendingFunctors
      ensures pendingFunctors[|old(pendingFunctors)|].id == id
    {
      var f := Functor(id, iteration, phase == Running || phase == Releasing, silent);
      pendingFunctors := pendingFunctors + [f];
      queued := queued + [f];
    }

    method Wakeup()
      modifies this`wakeupFd
      ensures View() == old(View()).(eventfd := old(wakeupFd) + 1)
    {
      wakeupFd := wakeupFd + 1;
    }

    /** queueInLoop by another thread, up to its wakeup. */
    method QueueFromThread(thread: Tid, id: nat)
      requires Valid() && thread !in pushers
      modifies this
      ensures Valid() && View() == Next(old(View()), Push(thread, id))
      ensures |pendingFunctors| == |old(pendingFunctors)| + 1 && old(pendingFunctors) < pendingFunctors
      ensures pendingFunctors[|old(pendingFunctors)|].id == id && thread in pushers
    {
      hide Inv;
      StepInv(View(), Push(thread, id));
      PushPending(id, false);
      pushers := pushers + {thread};
    }

    method WakeupFromThread(thread: Tid)
      requires Valid() && thread in pushers
      modifies this
      ensures Valid() && View() == Next(old(View()), Wake(thread))
    {
      hide Inv;
      StepInv(View(), Wake(thread));
      Wakeup();
      pushers := pushers - {thread};
    }

    /** The push of queueInLoop by the loop thread: before loop(), in a handler, in a functor, or on its destruction. */
    ghost function LoopPush(id: nat): Step
      reads this
    {
      if phase == Starting then PushBeforeLoop(id)
      else if phase == Running then PushFromFunctor(id)
      else if phase == Releasing then PushFromDestructor(id) else PushFromHandler(id)
    }

    method PushInLoopThread(id: nat)
      requires Valid() && Enabled(View(), LoopPush(id))
      modifies this
      ensures Valid() && View() == Next(old(View()), old(LoopPush(id)))
      ensures |pendingFunctors| == |old(pendingFunctors)| + 1 && old(pendingFunctors) < pendingFunctors
      ensures pendingFunctors[|old(pendingFunctors)|].id == id
    {
      hide Inv;
      StepInv(View(), LoopPush(id));
      PushPending(id, phase == Starting || phase == Releasing);
      if phase == Running {
        loopPushing := true;
      }
    }

    method WakeFromLoopThread()
      requires Valid() && loopPushing
      modifies this
      ensures Valid() && View() == Next(old(View()), WakeFromFunctor)
    {
      hide Inv;
      StepInv(View(), WakeFromFunctor);
      Wakeup();
      loopPushing := false;
    }

    /** queueInLoop by the loop thread: it wakes itself only while it runs pending functors. */
    method QueueInLoopThread(id: nat)
      requires Valid() && Enabled(View(), LoopPush(id))
      modifies this
      ensures Valid()
      ensures View() == if old(phase) == Running then Next(Next(old(View()), PushFromFunctor(id)), WakeFromFunctor)
                        else Next(old(View()), old(LoopPush(id)))
    {
      PushInLoopThread(id);
      RunningPushes(old(View()), old(LoopPush(id)));
      hide Inv;
      if callingPendingFunctors {
        WakeFromLoopThread();
      }
    }

    method HandleRead()
      requires Valid() && phase == Handling(true)
      modifies this
      ensures Valid() && View() == Next(old(View()), HandleWakeup)
    {
      hide Inv;
      StepInv(View(), HandleWakeup);
      wakeupFd := 0;
      phase := Handling(false);
    }

    method TakeStep(step: Step)
      requires Valid() && Enabled(View(), step) && Between(step)
      modifies this
      ensures Valid() && View() == Next(old(View()), step)
    {
      hide Inv;
      match step {
        case Push(thread, id) => QueueFromThread(thread, id);
        case Wake(thread) => WakeupFromThread(thread);
        case ExtraWake => StepInv(View(), ExtraWake); Wakeup();
        case WakeFromFunctor => WakeFromLoopThread();
        case PushFromHandler(id) => PushInLoopThread(id);
        case PushFromFunctor(id) => PushInLoopThread(id);
        case PushFromDestructor(id) => PushInLoopThread(id);
      }
    }

    /** Other threads, and the callback under way, take the steps of a script. */
    method RunScript(script: seq<Step>)
      requires Valid() && Legal(View(), script) && AllBetween(script)
      modifies this
      ensures Valid() && View() == Exec(old(View()), script)
    {
      hide Inv, Next, Enabled, Between;
      ghost var last := Exec(View(), script);
      for i := 0 to |script|
        invariant Valid() && Legal(View(), script[i..]) && Exec(View(), script[i..]) == last
      {
        assert script[i..][1..] == script[i + 1..] && script[i] in script;
        TakeStep(script[i]);
      }
    }

    /** One functor of the batch, with what it and other threads do while it runs. */
    method RunFunctor(script: seq<Step>)
      requires Valid() && Enabled(View(), RunNext) && Legal(Next(View(), RunNext), script) && AllBetween(script)
      modifies this
      ensures Valid() && View() == Exec(Next(old(View()), RunNext), script)
    {
      hide Inv;
      StepInv(View(), RunNext);
      executed := executed + [Executed(batch[0], iteration)];
      batch := batch[1..];
      RunScript(script);
    }

    /**
     * Runs what was pending at the swap, in order, whatever the functors and other threads queue meanwhile, and
     * destroys it once the flag is cleared.
     */
    method DoPendingFunctors(before: seq<Step>, scripts: seq<seq<Step>>, after: seq<Step>) returns (functors: seq<Functor>)
      requires Valid() && phase == Handling(false) && AllBetween(before) && AllScripts(scripts) && AllBetween(after)
      requires Legal(View(), PendingSteps(before, scripts, after))
      modifies this
      ensures Valid() && phase == Polling && View() == Exec(old(View()), PendingSteps(before, scripts, after))
      ensures functors == Exec(old(View()), [StartFunctors] + before).pending
      ensures executed == old(executed) + Ran(functors, old(iteration))
    {
      hide Inv, Legal, Exec, BatchSteps;
      ghost var tail := after + [Return];
      functors := SwapPending(before, BatchSteps(scripts) + ([Finish] + tail));
      ghost var last := Exec(View(), BatchSteps(scripts) + ([Finish] + tail));
      BatchCount(View(), scripts, tail);
      for i := 0 to |functors|
        invariant Valid() && phase == Running && iteration == old(iteration) && batch == functors[i..]
        invariant Legal(View(), BatchSteps(scripts[i..]) + ([Finish] + tail))
        invariant Exec(View(), BatchSteps(scripts[i..]) + ([Finish] + tail)) == last
        invariant executed == old(executed) + Ran(functors[..i], iteration)
      {
        NextInBatch(View(), scripts[i..], [Finish] + tail);
        OneMoreRan(functors, i, iteration);
        assert scripts[i..][0] == scripts[i] && scripts[i..][1..] == scripts[i + 1..];
        RunFunctor(scripts[i]);
      }
      assert functors[..|functors|] == functors;
      LastInBatch(View(), scripts[|functors|..], tail);
      ReleaseFunctors(after);
    }

    /** The end of doPendingFunctors: clear the flag, then destroy the functors that ran. */
    method ReleaseFunctors(after: seq<Step>)
      requires Valid() && phase == Running && AllBetween(after) && Legal(View(), [Finish] + (after + [Return]))
      modifies this
      ensures Valid() && phase == Polling && executed == old(executed)
      ensures View() == Exec(old(View()), [Finish] + (after + [Return]))
    {
      hide Inv, Legal, Exec;
      LegalSplit(View(), [Finish], after + [Return]);
      OneStep(View(), Finish);
      StepInv(View(), Finish);
      callingPendingFunctors := false;
      phase := Releasing;
      LegalSplit(View(), after, [Return]);
      ScriptKeeps(View(), after);
      RunScript(after);
      OneStep(View(), Return);
      StepInv(View(), Return);
      phase := Polling;
    }

    /** The start of doPendingFunctors: set the flag, then swap the queue out under the mutex. */
    method SwapPending(before: seq<Step>, ghost rest: seq<Step>) returns (functors: seq<Functor>)
      requires Valid() && phase == Handling(false) && AllBetween(before)
      requires Legal(View(), [StartFunctors] + before + ([Swap] + rest))
      modifies this
      ensures Valid() && phase == Running && Legal(View(), rest) && batch == functors && executed == old(executed)
      ensures Exec(View(), rest) == Exec(old(View()), [StartFunctors] + before + ([Swap] + rest))
      ensures functors == Exec(old(View()), [StartFunctors] + before).pending && iteration == old(iteration)
    {
      hide Inv, Legal, Exec;
      ghost var start := View();
      LegalSplit(start, [StartFunctors] + before, [Swap] + rest);
      LegalSplit(start, [StartFunctors], before);
      OneStep(start, StartFunctors);
      StepInv(start, StartFunctors);
      callingPendingFunctors := true;
      phase := Swapping;
      ScriptKeeps(View(), before);
      RunScript(before);
      LegalSplit(View(), [Swap], rest);
      OneStep(View(), Swap);
      StepInv(View(), Swap);
      functors := pendingFunctors;
      pendingFunctors := [];
      batch := functors;
      phase := Running;
    }

    /** The channels that poll reported, the wakeup channel among them or not. */
    method HandleEvents(it: Iteration, ghost rest: seq<Step>)
      requires Valid() && phase == Handling(it.wakeup) && AllBetween(it.first) && AllBetween(it.rest)
      requires Legal(View(), HandlerSteps(it) + rest)
      modifies this
      ensures Valid() && phase == Handling(false) && Legal(View(), rest)
      ensures Exec(View(), rest) == Exec(old(View()), HandlerSteps(it) + rest)
    {
      hide Inv, Legal, Exec;
      ghost var wake := if it.wakeup then [HandleWakeup] else [];
      assert HandlerSteps(it) + rest == it.first + (wake + (it.rest + rest));
      LegalSplit(View(), it.first, wake + (it.rest + rest));
      ScriptKeeps(View(), it.first);
      RunScript(it.first);
      if it.wakeup {
        LegalSplit(View(), [HandleWakeup], it.rest + rest);
        OneStep(View(), HandleWakeup);
        HandleRead();
      } else {
        assert wake + (it.rest + rest) == it.rest + rest;
      }
      LegalSplit(View(), it.rest, rest);
      ScriptKeeps(View(), it.rest);
      RunScript(it.rest);
    }

    /** One pass through the body of loop(). */
    method LoopOnce(it: Iteration, ghost rest: seq<Step>)
      requires Valid() && phase == Polling && Proper(it) && Legal(View(), IterationSteps(it) + rest)
      modifies this
      ensures Valid() && phase == Polling && Legal(View(), rest)
      ensures Exec(View(), rest) == Exec(old(View()), IterationSteps(it) + rest)
    {
      hide Inv, Legal, Exec, HandlerSteps, PendingSteps;
      ghost var pending := PendingSteps(it.before, it.scripts, it.after);
      ghost var polled := PollReturn(it.wakeup);
      assert IterationSteps(it) + rest == it.polling + ([polled] + (HandlerSteps(it) + (pending + rest)));
      LegalSplit(View(), it.polling, [polled] + (HandlerSteps(it) + (pending + rest)));
      ScriptKeeps(View(), it.polling);
      RunScript(it.polling);
      LegalSplit(View(), [polled], HandlerSteps(it) + (pending + rest));
      OneStep(View(), polled);
      StepInv(View(), polled);
      iteration := iteration + 1;
      phase := Handling(it.wakeup);
      HandleEvents(it, pending + rest);
      LegalSplit(View(), pending, rest);
      var _ := DoPendingFunctors(it.before, it.scripts, it.after);
    }

    /** loop(), for any number of passes and any behaviour of poll, the handlers, the functors and other threads. */
    method Loop(iterations: seq<Iteration>)
      requires Valid() && phase == Starting && Legal(View(), [EnterLoop] + LoopSteps(iterations))
      requires forall i | 0 <= i < |iterations| :: Proper(iterations[i])
      modifies this
      ensures Valid() && phase == Polling && View() == Exec(old(View()), [EnterLoop] + LoopSteps(iterations))
    {
      hide Inv, Legal, Exec, IterationSteps;
      ghost var last := Exec(View(), [EnterLoop] + LoopSteps(iterations));
      LegalSplit(View(), [EnterLoop], LoopSteps(iterations));
      OneStep(View(), EnterLoop);
      StepInv(View(), EnterLoop);
      phase := Polling;
      for i := 0 to |iterations|
        invariant Valid() && phase == Polling && Legal(View(), LoopSteps(iterations[i..]))
        invariant Exec(View(), LoopSteps(iterations[i..])) == last
      {
        assert iterations[i..][0] == iterations[i] && iterations[i..][1..] == iterations[i + 1..];
        LoopOnce(iterations[i], LoopSteps(iterations[i + 1..]));
      }
      NothingLeft(View(), iterations[|iterations|..]);
    }
  }

  lemma NothingLeft(l: LoopRuns.Loop, none: seq<Iteration>)
    requires none == []
    ensures Exec(l, LoopSteps(none)) == l
  {
  }

  lemma RunningPushes(l: Loop, step: Step)
    requires Enabled(l, step)
    requires step.PushBeforeLoop? || step.PushFromHandler? || step.PushFromFunctor? || step.PushFromDestructor?
    ensures Next(l, step).phase == l.phase && (step.PushFromFunctor? ==> l.phase == Running && Next(l, step).loopPushing)
    ensures !step.PushFromFunctor? ==> l.phase == Starting || l.phase.Handling? || l.phase == Releasing
  {
  }

  lemma LastInBatch(l: Loop, none: seq<seq<Step>>, tail: seq<Step>)
    requires none == [] && Legal(l, BatchSteps(none) + ([Finish] + tail))
    ensures Legal(l, [Finish] + tail) && Exec(l, BatchSteps(none) + ([Finish] + tail)) == Exec(l, [Finish] + tail)
  {
    assert BatchSteps(none) + ([Finish] + tail) == [Finish] + tail;
  }
}
