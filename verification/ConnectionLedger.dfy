/** What the calls on a connection come to: which messages are handed over, where they go, and what a close does. */
module ConnectionLedger {
  import opened Bytes
  import opened ConnectionRuns
  import opened ConnectionTheorems

  /** The steps of the list that are performed: all up to the first that cannot happen. */
  function Performed(c: Connection, steps: seq<Step>): seq<Step>
    decreases |steps|
  {
    if steps == [] || !Enabled(c, steps[0]) then [] else [steps[0]] + Performed(Next(c, steps[0]), steps[1..])
  }

  /** What the steps alone say: is the connection open, which threads are inside send(), what has been handed over. */
  datatype Ledger = Ledger(open: bool, sending: map<Tid, Message>, messages: seq<Message>)

  /** A thread that proceeds either pushes its message or is one that closes; every other call but send() closes. */
  function Entered(l: Ledger, step: Step): Ledger {
    match step
    case Establish => l.(open := true)
    case Send(message, _) => if l.open then l.(messages := l.messages + [message]) else l
    case Enter(t, call) => if l.open && call.SendPassed? then l.(sending := l.sending[t := call.message]) else l
    case Proceed(t) =>
      if t in l.sending then l.(sending := l.sending - {t}, messages := l.messages + [l.sending[t]])
      else l.(open := false)
    case RunTask(_) => l
    case Writable(_) => l
    case _ => l.(open := false)
  }

  function Ledgered(l: Ledger, steps: seq<Step>): Ledger
    decreases |steps|
  {
    if steps == [] then l else Ledgered(Entered(l, steps[0]), steps[1..])
  }

  function LedgerOf(config: Config, steps: seq<Step>): Ledger {
    Ledgered(Ledger(false, map[], []), Performed(Init(config), steps))
  }

  ghost predicate Agrees(c: Connection, l: Ledger) {
    && (c.state == Connected <==> l.open)
    && c.history.accepted == l.messages
    && Inside(c.calls, l.sending)
  }

  /** The threads inside send(), past its check, and their messages. */
  ghost predicate Inside(calls: map<Tid, Call>, sending: map<Tid, Message>) {
    && (forall t :: t in sending <==> t in calls && calls[t].SendPassed?)
    && (forall t | t in sending :: calls[t].message == sending[t])
  }

  lemma SameAccepted(c: Connection, message: Message, result: WriteResult)
    requires Possible(c, |message|, result)
    ensures AfterSendInLoop(c, message, result).history.accepted == c.history.accepted
  {
  }

  lemma AgreesOnSend(c: Connection, l: Ledger, step: Step)
    requires Agrees(c, l) && Enabled(c, step) && step.Send?
    ensures Agrees(Next(c, step), Entered(l, step))
  {
    hide AfterSendInLoop;
    SameState(Noted(c, step.message), step.message, step.result);
    SameAccepted(Noted(c, step.message), step.message, step.result);
  }

  lemma AgreesOnTask(c: Connection, l: Ledger, step: Step)
    requires ShutRight(c) && Agrees(c, l) && Enabled(c, step) && step.RunTask?
    ensures Agrees(Next(c, step), Entered(l, step))
  {
    hide AfterSendInLoop;
    assert c.tasks[0] in c.tasks;
    if c.tasks[0].SendTask? {
      SameState(c.(tasks := c.tasks[1..]), c.tasks[0].message, step.result);
      SameAccepted(c.(tasks := c.tasks[1..]), c.tasks[0].message, step.result);
    }
  }

  lemma AgreesOnEnter(c: Connection, l: Ledger, t: Tid, call: Call)
    requires Agrees(c, l) && Enabled(c, Enter(t, call))
    ensures Agrees(AfterEnter(c, t, call), Entered(l, Enter(t, call)))
  {
  }

  lemma InsideLeaves(calls: map<Tid, Call>, sending: map<Tid, Message>, t: Tid, call: Call)
    requires Inside(calls, sending) && t in calls && !call.SendPassed?
    ensures t in sending <==> calls[t].SendPassed?
    ensures Inside(calls - {t}, sending - {t})
    ensures t !in sending ==> Inside(calls - {t}, sending) && Inside(calls[t := call], sending)
  {
  }

  lemma AgreesOnProceed(c: Connection, l: Ledger, t: Tid)
    requires ShutRight(c) && Agrees(c, l) && t in c.calls
    ensures Agrees(AfterProceed(c, t), Entered(l, Proceed(t)))
  {
    if t in l.sending {
      SentMessage(c, l, t);
    }
    hide Inside;
    InsideLeaves(c.calls, l.sending, t, ShutSet);
    InsideLeaves(c.calls, l.sending, t, CloseSet);
  }

  lemma SentMessage(c: Connection, l: Ledger, t: Tid)
    requires Agrees(c, l) && t in l.sending
    ensures t in c.calls && c.calls[t] == SendPassed(l.sending[t])
  {
  }

  lemma AgreesOnOther(c: Connection, l: Ledger, step: Step)
    requires Agrees(c, l) && Enabled(c, step)
    requires !step.Send? && !step.RunTask? && !step.Enter? && !step.Proceed?
    ensures Agrees(Next(c, step), Entered(l, step))
  {
  }

  lemma AgreesStep(c: Connection, l: Ledger, step: Step)
    requires Inv(c) && Agrees(c, l) && Enabled(c, step)
    ensures Agrees(Next(c, step), Entered(l, step))
  {
    hide Agrees, AfterEnter, AfterProceed, AfterSend, AfterTask, AfterWritable, Entered;
    hide ShutRight, BytesKept, MessagesKept, InterestRight;
    if step.Send? {
      AgreesOnSend(c, l, step);
    } else if step.RunTask? {
      AgreesOnTask(c, l, step);
    } else if step.Enter? {
      AgreesOnEnter(c, l, step.thread, step.call);
    } else if step.Proceed? {
      AgreesOnProceed(c, l, step.thread);
    } else {
      AgreesOnOther(c, l, step);
    }
  }

  lemma PerformedFirst(c: Connection, steps: seq<Step>)
    requires steps != [] && Enabled(c, steps[0])
    ensures var p := Performed(c, steps);
            p != [] && p[0] == steps[0] && p[1..] == Performed(Next(c, steps[0]), steps[1..])
  {
  }

  lemma {:induction false} AgreesExec(c: Connection, l: Ledger, steps: seq<Step>)
    requires Inv(c) && Agrees(c, l)
    ensures Agrees(Exec(c, steps), Ledgered(l, Performed(c, steps)))
    decreases |steps|
  {
    hide Inv, Agrees, Next, Enabled, Entered;
    if steps != [] && Enabled(c, steps[0]) {
      StepInv(c, steps[0]);
      AgreesStep(c, l, steps[0]);
      PerformedFirst(c, steps);
      AgreesExec(Next(c, steps[0]), Entered(l, steps[0]), steps[1..]);
    }
  }

  /**
   * In every run the messages handed over are those of the send() calls made in the loop thread while the connection
   * was open, and of those that other threads began while it was and have pushed, in the order of the calls and pushes;
   * it is open from connectEstablished to the first call or event that closes it; and the threads inside send() are
   * those that began while it was open and have not pushed.
   */
  lemma HandedOverExactly(config: Config, steps: seq<Step>)
    ensures var c, l := Reached(config, steps), LedgerOf(config, steps);
            && c.history.accepted == l.messages
            && (c.state == Connected <==> l.open)
            && Inside(c.calls, l.sending)
  {
    hide Exec, Inv, Performed, Ledgered;
    InitInv(config);
    AgreesExec(Init(config), Ledger(false, map[], []), steps);
  }

  // ---- where the messages go

  /** What sendInLoop makes of a message: late, dropped, or at the end of the stream, with what the kernel took. */
  lemma SendInLoopTakes(c: Connection, message: Message, result: WriteResult)
    requires Possible(c, |message|, result)
    ensures var h, h' := c.history, AfterSendInLoop(c, message, result).history;
            var late := c.state == Disconnected;
            var fault := !late && !c.writing && c.output == [] && result.Broken?;
            && h'.kernel + AfterSendInLoop(c, message, result).output
               == h.kernel + c.output + (if late || fault then [] else message)
            && |h'.kernel| == |h.kernel| + (if !late && !c.writing && c.output == [] && result.Wrote? then result.n else 0)
            && h'.late == h.late + (if late then [message] else [])
            && h'.dropped == h.dropped + (if fault then [message] else [])
  {
    if c.state != Disconnected && !(WritesDirectly(c) && result.Broken?) {
      SplitAcross(c.history.kernel, c.output, message, DirectCount(c, message, result));
    }
  }

  /** A send() in the loop thread while open puts its message at the end of the stream, unless the write breaks. */
  lemma SendTakes(c: Connection, message: Message, result: WriteResult)
    requires c.state == Connected && Enabled(c, Send(message, result))
    ensures var c' := Next(c, Send(message, result));
            !(WritesDirectly(c) && result.Broken?) ==>
              c'.history.kernel + c'.output == c.history.kernel + c.output + message
  {
    hide AfterSendInLoop;
    SendInLoopTakes(Noted(c, message), message, result);
  }

  /** A call from another thread gets past its check in the states in which it may act, and otherwise changes nothing. */
  lemma EntersExactly(c: Connection, t: Tid, call: Call)
    requires Enabled(c, Enter(t, call))
    ensures var open, closing := c.state == Connected, c.state == Disconnecting && (call.ClosePassed? || call.DelayPassed?);
            Next(c, Enter(t, call)) == if open || closing then c.(calls := c.calls[t := call]) else c
  {
  }

  /** What closes a connection: the peer, a force-close that is reached, or its owner while it is open. */
  lemma ClosesExactly(c: Connection, step: Step)
    requires Enabled(c, step)
    ensures Next(c, step).closed && !c.closed <==>
              && !c.closed
              && (|| step.PeerClosed?
                  || (step.RunTask? && c.tasks[0] == ForceCloseTask && Live(c))
                  || (step.Destroy? && c.state == Connected))
  {
    hide AfterSendInLoop;
    if step.Send? {
      SameState(Noted(c, step.message), step.message, step.result);
    } else if step.RunTask? && c.tasks[0].SendTask? {
      SameState(c.(tasks := c.tasks[1..]), c.tasks[0].message, step.result);
    }
  }

  /** handleWrite passes on as many bytes as the kernel takes, and on the last one notifies and completes a shutdown. */
  lemma WritableTakes(c: Connection, result: WriteResult)
    requires InterestRight(c) && Enabled(c, Writable(result))
    ensures var c' := Next(c, Writable(result));
            var drained := c.writing && c'.output == [];
            && c'.history.kernel + c'.output == c.history.kernel + c.output
            && |c'.output| == |c.output| - (if c.writing && result.Wrote? then result.n else 0)
            && c'.writing == (c.writing && c'.output != [])
            && c'.tasks == c.tasks + (if drained && c.config.notifyComplete then [WriteCompleteTask] else [])
            && c'.history.shutdowns == c.history.shutdowns + if drained && c.state == Disconnecting then 1 else 0
  {
    assert c.tasks + [] == c.tasks;
    if c.writing && result.Wrote? && result.n > 0 {
      assert c.history.kernel + c.output[..result.n] + c.output[result.n..] == c.history.kernel + c.output;
    }
  }

  /** No write of the list fails for good. */
  ghost predicate NoFault(steps: seq<Step>) {
    forall step | step in steps && (step.Send? || step.RunTask?) :: !step.result.Broken?
  }

  ghost predicate Unharmed(c: Connection) {
    c.history.dropped == [] && (c.history.late != [] ==> c.closed)
  }

  lemma UnharmedStep(c: Connection, step: Step)
    requires Unharmed(c) && InterestRight(c) && Enabled(c, step) && NoFault([step])
    ensures Unharmed(Next(c, step))
  {
    hide AfterSendInLoop;
    assert step in [step];
    if step.Send? && c.state == Connected {
      SendInLoopTakes(Noted(c, step.message), step.message, step.result);
      SameState(Noted(c, step.message), step.message, step.result);
    } else if step.RunTask? && c.tasks[0].SendTask? {
      SendInLoopTakes(c.(tasks := c.tasks[1..]), c.tasks[0].message, step.result);
      SameState(c.(tasks := c.tasks[1..]), c.tasks[0].message, step.result);
    }
  }

  lemma {:induction false} UnharmedExec(c: Connection, steps: seq<Step>)
    requires Inv(c) && Unharmed(c) && NoFault(steps)
    ensures Unharmed(Exec(c, steps))
    decreases |steps|
  {
    hide BytesKept, MessagesKept, ShutRight, InterestRight, Unharmed, Next, Enabled;
    if steps != [] && Enabled(c, steps[0]) {
      assert steps[0] in steps && NoFault([steps[0]]) && NoFault(steps[1..]);
      UnharmedStep(c, steps[0]);
      StepInv(c, steps[0]);
      UnharmedExec(Next(c, steps[0]), steps[1..]);
    }
  }

  /**
   * In every run in which no write fails for good, every message handed over is part of the stream or queued, and
   * none is lost, as long as the connection is not closed.
   */
  lemma NothingLost(config: Config, steps: seq<Step>)
    requires NoFault(steps) && !Reached(config, steps).closed
    ensures var c := Reached(config, steps);
            && c.history.kernel + c.output == Flatten(c.history.handled)
            && multiset(LedgerOf(config, steps).messages) == multiset(c.history.handled) + Sends(c.tasks)
  {
    hide Exec, Inv, Flatten, Sends, LedgerOf, NoFault;
    InitInv(config);
    UnharmedExec(Init(config), steps);
    StreamConserved(config, steps);
    HandedOverExactly(config, steps);
  }

  /** With every send in the loop thread and no write failing for good, the stream is exactly what was sent, in order. */
  lemma SentIsWritten(config: Config, steps: seq<Step>)
    requires NoFault(steps) && forall step | step in steps && step.Enter? :: !step.call.SendPassed?
    ensures var c := Reached(config, steps);
            c.history.kernel + c.output == Flatten(LedgerOf(config, steps).messages)
  {
    hide Exec, Inv, Flatten, LedgerOf, NoFault;
    InitInv(config);
    UnharmedExec(Init(config), steps);
    LoopStreamInOrder(config, steps);
    HandedOverExactly(config, steps);
  }

  // ---- what a shutdown and a close come to

  /** How many functors the list runs. */
  function Runs(steps: seq<Step>): nat {
    if steps == [] then 0 else (if steps[0].RunTask? then 1 else 0) + Runs(steps[1..])
  }

  /** Functors run first in, first out. */
  lemma FirstInFirstOut(c: Connection, step: Step)
    requires Enabled(c, step)
    ensures (if step.RunTask? then c.tasks[1..] else c.tasks) <= Next(c, step).tasks
  {
    hide DirectCount;
  }

  /** The half has been shut, or will be when the buffer drains, unless the connection is closed. */
  predicate Shutting(c: Connection) {
    Rank(c.state) >= 2 && (c.closed || c.writing || c.history.shutdowns > 0)
  }

  lemma ShuttingSend(c: Connection, message: Message, result: WriteResult)
    requires Shutting(c) && Possible(c, |message|, result)
    ensures Shutting(AfterSendInLoop(c, message, result))
  {
  }

  lemma ShuttingStep(c: Connection, step: Step)
    requires InterestRight(c) && Shutting(c) && Enabled(c, step)
    ensures Shutting(Next(c, step))
  {
    hide AfterSendInLoop;
    if step.RunTask? && c.tasks[0].SendTask? {
      ShuttingSend(c.(tasks := c.tasks[1..]), c.tasks[0].message, step.result);
    }
  }

  lemma {:induction false} ShuttingExec(c: Connection, steps: seq<Step>)
    requires Inv(c) && Shutting(c)
    ensures Shutting(Exec(c, steps))
    decreases |steps|
  {
    hide BytesKept, MessagesKept, ShutRight, InterestRight, Shutting, Next, Enabled;
    if steps != [] && Enabled(c, steps[0]) {
      ShuttingStep(c, steps[0]);
      StepInv(c, steps[0]);
      ShuttingExec(Next(c, steps[0]), steps[1..]);
    }
  }

  /**
   * A shutdown() in the loop thread on an open connection takes effect: however the run goes on, the half has been
   * shut, or there is still something to write, or the connection is closed.
   */
  lemma ShutdownTakesEffect(config: Config, steps: seq<Step>, later: seq<Step>)
    requires Reached(config, steps).state == Connected
    ensures var c := Exec(AfterShutdown(Reached(config, steps)), later);
            c.history.shutdowns > 0 || c.writing || c.closed
  {
    hide Exec, BytesKept, MessagesKept, ShutRight;
    ReachedInv(config, steps);
    var c := Reached(config, steps);
    StepInv(c, Shutdown);
    ShuttingExec(AfterShutdown(c), later);
  }

  /** The functor is number `k` of the queue, and the state is set. */
  predicate Due(c: Connection, task: Task, k: nat) {
    Rank(c.state) >= 2 && k < |c.tasks| && c.tasks[k] == task
  }

  lemma DueStep(c: Connection, step: Step, task: Task, k: nat)
    requires Due(c, task, k) && Enabled(c, step) && (step.RunTask? ==> k > 0)
    ensures Due(Next(c, step), task, if step.RunTask? then k - 1 else k)
  {
    hide Next, Enabled, Rank;
    FirstInFirstOut(c, step);
    StaysSet(c, step);
  }

  lemma StaysSet(c: Connection, step: Step)
    requires Rank(c.state) >= 2 && Enabled(c, step)
    ensures Rank(Next(c, step).state) >= 2
  {
    hide AfterSendInLoop;
    if step.RunTask? && c.tasks[0].SendTask? {
      SameState(c.(tasks := c.tasks[1..]), c.tasks[0].message, step.result);
    }
  }

  lemma ShutdownRuns(c: Connection, result: WriteResult)
    requires Due(c, ShutdownTask, 0)
    ensures Enabled(c, RunTask(result)) && Shutting(Next(c, RunTask(result)))
  {
  }

  lemma {:induction false} ShutdownReached(c: Connection, k: nat, steps: seq<Step>)
    requires Inv(c) && Due(c, ShutdownTask, k) && Runs(Performed(c, steps)) > k
    ensures Shutting(Exec(c, steps))
    decreases |steps|
  {
    hide Inv, Next, Enabled, Due, Shutting;
    PerformedFirst(c, steps);
    StepInv(c, steps[0]);
    if steps[0].RunTask? && k == 0 {
      ShutdownRuns(c, steps[0].result);
      ShuttingExec(Next(c, steps[0]), steps[1..]);
    } else {
      DueStep(c, steps[0], ShutdownTask, k);
      ShutdownReached(Next(c, steps[0]), if steps[0].RunTask? then k - 1 else k, steps[1..]);
    }
  }

  /**
   * A shutdown() from another thread takes effect in the same way, once the loop has run what was queued ahead of its
   * functor and the functor itself.
   */
  lemma PushedShutdownTakesEffect(config: Config, steps: seq<Step>, t: Tid, later: seq<Step>)
    requires var c := Reached(config, steps); t in c.calls && c.calls[t].ShutSet?
    requires var c := Reached(config, steps); Runs(Performed(AfterProceed(c, t), later)) > |c.tasks|
    ensures var c := Exec(AfterProceed(Reached(config, steps), t), later);
            c.history.shutdowns > 0 || c.writing || c.closed
  {
    hide Exec, BytesKept, MessagesKept, Performed, Runs;
    ReachedInv(config, steps);
    var c := Reached(config, steps);
    StepInv(c, Proceed(t));
    ShutdownReached(AfterProceed(c, t), |c.tasks|, later);
  }

  lemma CloseRuns(c: Connection, result: WriteResult)
    requires InterestRight(c) && Due(c, ForceCloseTask, 0)
    ensures Enabled(c, RunTask(result)) && Next(c, RunTask(result)).closed
    ensures Next(c, RunTask(result)).state == Disconnected
  {
  }

  lemma {:induction false} StaysClosed(c: Connection, steps: seq<Step>)
    requires c.closed
    ensures Exec(c, steps).closed
    decreases |steps|
  {
    hide AfterSendInLoop;
    if steps != [] && Enabled(c, steps[0]) {
      ClosedStep(c, steps[0]);
      hide Next, Enabled;
      StaysClosed(Next(c, steps[0]), steps[1..]);
    }
  }

  lemma ClosedStep(c: Connection, step: Step)
    requires c.closed && Enabled(c, step)
    ensures Next(c, step).closed
  {
    hide AfterSendInLoop;
    if step.Send? {
      SameState(Noted(c, step.message), step.message, step.result);
    } else if step.RunTask? && c.tasks[0].SendTask? {
      SameState(c.(tasks := c.tasks[1..]), c.tasks[0].message, step.result);
    }
  }

  lemma {:induction false} CloseReached(c: Connection, k: nat, steps: seq<Step>)
    requires Inv(c) && Due(c, ForceCloseTask, k) && Runs(Performed(c, steps)) > k
    ensures Exec(c, steps).closed
    ensures NonePoised(c) && NoForeignClose(steps) ==> Exec(c, steps).state == Disconnected
    decreases |steps|
  {
    hide BytesKept, MessagesKept, ShutRight, InterestRight, Next, Enabled, Due, Poised;
    PerformedFirst(c, steps);
    StepInv(c, steps[0]);
    var c' := Next(c, steps[0]);
    if NonePoised(c) && NoForeignClose(steps) {
      assert steps[0] in steps && NoForeignClose([steps[0]]) && NoForeignClose(steps[1..]);
      QuietForward(c, steps[0]);
    }
    if steps[0].RunTask? && k == 0 {
      CloseRuns(c, steps[0].result);
      StaysClosed(c', steps[1..]);
      if NonePoised(c) && NoForeignClose(steps) {
        ForwardExec(c', steps[1..]);
      }
    } else {
      DueStep(c, steps[0], ForceCloseTask, k);
      CloseReached(c', if steps[0].RunTask? then k - 1 else k, steps[1..]);
    }
  }

  /**
   * A forceClose() in the loop thread closes the connection as soon as the loop has run what was queued and its own
   * functor; and unless another thread is closing as well, the connection is then disconnected for good.
   */
  lemma ForceCloseTakesEffect(config: Config, steps: seq<Step>, later: seq<Step>)
    requires Live(Reached(config, steps))
    requires var c := Reached(config, steps); Runs(Performed(AfterForceClose(c), later)) > |c.tasks|
    ensures var c, c' := Reached(config, steps), Exec(AfterForceClose(Reached(config, steps)), later);
            c'.closed && (NonePoised(c) && NoForeignClose(later) ==> c'.state == Disconnected)
  {
    hide Exec, Inv, Performed, Runs;
    ReachedInv(config, steps);
    var c := Reached(config, steps);
    StepInv(c, ForceClose);
    CloseReached(AfterForceClose(c), |c.tasks|, later);
  }

  /** So does one from another thread, from the push of its functor on. */
  lemma PushedForceCloseTakesEffect(config: Config, steps: seq<Step>, t: Tid, later: seq<Step>)
    requires var c := Reached(config, steps); t in c.calls && c.calls[t].CloseSet?
    requires var c := Reached(config, steps); Runs(Performed(AfterProceed(c, t), later)) > |c.tasks|
    ensures Exec(AfterProceed(Reached(config, steps), t), later).closed
  {
    hide Exec, BytesKept, MessagesKept, Performed, Runs;
    ReachedInv(config, steps);
    var c := Reached(config, steps);
    StepInv(c, Proceed(t));
    CloseReached(AfterProceed(c, t), |c.tasks|, later);
  }
}
