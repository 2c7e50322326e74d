/** When and how often the write half of a connection is shut. */
module ConnectionShutdown {
  import opened Bytes
  import opened ConnectionRuns
  import opened ConnectionTheorems

  // ---- all calls in the loop thread

  /** The step is a call made in the loop thread, or an event of the loop. */
  predicate InLoop(step: Step) {
    !step.Enter? && !step.Proceed?
  }

  /** What runs in which every call is made in the loop thread keep. */
  ghost predicate Orderly(c: Connection) {
    && c.calls == map[]
    && ShutdownTask !in c.tasks
    && (forall m :: SendTask(m) !in c.tasks)
    && c.history.late == []
    && c.history.shutdowns <= 1
    && (c.history.shutdowns == 1 ==> c.output == [] && (c.state == Disconnecting || c.state == Disconnected))
  }

  lemma OrderlySend(c: Connection, message: Message, result: WriteResult)
    requires Inv(c) && Orderly(c) && Possible(c, |message|, result)
    ensures Orderly(AfterSend(c, message, result))
  {
    hide MessagesKept, BytesKept;
  }

  lemma OrderlyTask(c: Connection, result: WriteResult)
    requires Inv(c) && Orderly(c) && Enabled(c, RunTask(result))
    ensures Orderly(AfterTask(c, result))
  {
    hide MessagesKept, BytesKept, AfterSendInLoop;
    assert c.tasks[0] in c.tasks;
    assert forall t | t in c.tasks[1..] :: t in c.tasks;
  }

  lemma OrderlyOther(c: Connection, step: Step)
    requires Inv(c) && Orderly(c) && Enabled(c, step) && !step.Send? && !step.RunTask? && InLoop(step)
    ensures Orderly(Next(c, step))
  {
    hide MessagesKept, BytesKept;
  }

  lemma OrderlyStep(c: Connection, step: Step)
    requires Inv(c) && Orderly(c) && Enabled(c, step) && InLoop(step)
    ensures Orderly(Next(c, step))
  {
    hide Inv, Orderly, AfterSend, AfterTask;
    if step.Send? {
      OrderlySend(c, step.message, step.result);
    } else if step.RunTask? {
      OrderlyTask(c, step.result);
    } else {
      OrderlyOther(c, step);
    }
  }

  /** Once the half is shut no step adds a byte to what was taken or to what is owed. */
  lemma FrozenStep(c: Connection, step: Step)
    requires Inv(c) && Orderly(c) && c.history.shutdowns == 1 && Enabled(c, step) && InLoop(step)
    ensures Next(c, step).history.kernel == c.history.kernel
    ensures Next(c, step).history.handled == c.history.handled
    ensures Next(c, step).history.accepted == c.history.accepted
    ensures Next(c, step).history.shutdowns == 1
  {
    hide MessagesKept, BytesKept, AfterSendInLoop;
    if step.RunTask? {
      assert c.tasks[0] in c.tasks;
    }
  }

  lemma {:induction false} OrderlyExec(c: Connection, steps: seq<Step>)
    requires Inv(c) && Orderly(c) && forall step | step in steps :: InLoop(step)
    ensures Orderly(Exec(c, steps))
    ensures c.history.shutdowns == 1 ==>
              var h := Exec(c, steps).history;
              && h.kernel == c.history.kernel && h.handled == c.history.handled && h.accepted == c.history.accepted
              && h.shutdowns == 1
    decreases |steps|
  {
    hide Inv, Next, Enabled, Orderly;
    if steps != [] && Enabled(c, steps[0]) {
      assert steps[0] in steps;
      StepInv(c, steps[0]);
      OrderlyStep(c, steps[0]);
      if c.history.shutdowns == 1 {
        FrozenStep(c, steps[0]);
      }
      OrderlyExec(Next(c, steps[0]), steps[1..]);
    }
  }

  /**
   * With every call in the loop thread, the write half is shut at most once; by then every byte of every message
   * handed over is with the kernel, bar those dropped on a broken pipe, and nothing is let in afterwards.
   */
  lemma HalfCloseInOrder(config: Config, steps: seq<Step>, later: seq<Step>)
    requires forall step | step in steps + later :: InLoop(step)
    ensures var c, c' := Reached(config, steps), Exec(Reached(config, steps), later);
            && c.history.shutdowns <= 1 && c'.history.shutdowns <= 1
            && (c.history.shutdowns == 1 ==>
                  && c.history.kernel == Flatten(c.history.handled)
                  && multiset(c.history.accepted) == multiset(c.history.handled) + multiset(c.history.dropped)
                  && c'.history.kernel == c.history.kernel && c'.history.accepted == c.history.accepted)
  {
    hide Exec, Flatten, Sends;
    assert forall step | step in steps :: step in steps + later;
    assert forall step | step in later :: step in steps + later;
    InitInv(config);
    OrderlyExec(Init(config), steps);
    ReachedInv(config, steps);
    var c := Reached(config, steps);
    OrderlyExec(c, later);
    NoSends(c.tasks);
    if c.history.shutdowns == 1 {
      assert c.history.kernel + [] == c.history.kernel;
    }
  }

  lemma {:induction false} NoSends(tasks: seq<Task>)
    ensures (forall m :: SendTask(m) !in tasks) ==> Sends(tasks) == multiset{}
  {
    if tasks != [] && forall m :: SendTask(m) !in tasks {
      var last := tasks[|tasks| - 1];
      assert last in tasks;
      assert !last.SendTask?;
      NoSends(tasks[..|tasks| - 1]);
    }
  }

  // ---- what is under way

  /** The threads inside shutdown(), past its check. */
  function Shutting(calls: map<Tid, Call>): set<Tid> {
    set t | t in calls && (calls[t].ShutPassed? || calls[t].ShutSet?)
  }

  /** No send of any byte is queued. */
  ghost predicate NoBytesQueued(tasks: seq<Task>) {
    forall task | task in tasks && task.SendTask? :: task.message == []
  }

  /** No thread inside send(), past its check, has any byte to send. */
  ghost predicate NoBytesHeld(calls: map<Tid, Call>) {
    forall t | t in calls && calls[t].SendPassed? :: calls[t].message == []
  }

  /** How often the half has been shut, and how many shutdowns are on their way. */
  function Shuts(c: Connection): nat {
    c.history.shutdowns + multiset(c.tasks)[ShutdownTask] + |Shutting(c.calls)|
  }

  /** Nothing is being written, queued or held that could be buffered, and at most one shutdown is done or under way. */
  ghost predicate ShutsOnce(c: Connection) {
    !c.writing && NoBytesQueued(c.tasks) && NoBytesHeld(c.calls) && Shuts(c) <= 1
  }

  // ---- at most once

  /** The same, with the state set: nothing can be buffered or shut any more but by what is under way. */
  ghost predicate Quiet(c: Connection) {
    Rank(c.state) >= 2 && ShutsOnce(c)
  }

  lemma FirstTaskGone(tasks: seq<Task>)
    requires tasks != [] && NoBytesQueued(tasks)
    ensures NoBytesQueued(tasks[1..]) && (tasks[0].SendTask? ==> tasks[0].message == [])
    ensures multiset(tasks)[ShutdownTask] == multiset(tasks[1..])[ShutdownTask] + if tasks[0] == ShutdownTask then 1 else 0
  {
    assert tasks == [tasks[0]] + tasks[1..];
    assert tasks[0] in tasks && forall task | task in tasks[1..] :: task in tasks;
  }

  lemma LastTaskAdded(tasks: seq<Task>, task: Task)
    requires NoBytesQueued(tasks) && (task.SendTask? ==> task.message == [])
    ensures NoBytesQueued(tasks + [task])
    ensures multiset(tasks + [task])[ShutdownTask] == multiset(tasks)[ShutdownTask] + if task == ShutdownTask then 1 else 0
  {
  }

  lemma EmptySend(c: Connection, result: WriteResult)
    requires !c.writing && Possible(c, 0, result)
    ensures var c' := AfterSendInLoop(c, [], result);
            && (c'.tasks == c.tasks || c'.tasks == c.tasks + [WriteCompleteTask])
            && c'.state == c.state && !c'.writing && c'.calls == c.calls && c'.history.shutdowns == c.history.shutdowns
  {
    var none: Message := [];
    assert DirectCount(c, none, result) == 0 && none[0..] == none;
    assert c.tasks + [] == c.tasks;
  }

  lemma QuietSend(c: Connection, result: WriteResult)
    requires Quiet(c) && Possible(c, 0, result)
    ensures Quiet(AfterSendInLoop(c, [], result))
  {
    hide NoBytesQueued, NoBytesHeld, AfterSendInLoop, Shutting;
    EmptySend(c, result);
    LastTaskAdded(c.tasks, WriteCompleteTask);
  }

  lemma QuietTask(c: Connection, result: WriteResult)
    requires Quiet(c) && Enabled(c, RunTask(result))
    ensures Quiet(AfterTask(c, result))
  {
    hide AfterSendInLoop, NoBytesQueued, NoBytesHeld, Shutting;
    FirstTaskGone(c.tasks);
    if c.tasks[0].SendTask? {
      QuietSend(c.(tasks := c.tasks[1..]), result);
    }
  }

  lemma CallGone(calls: map<Tid, Call>, t: Tid)
    requires t in calls && NoBytesHeld(calls)
    ensures NoBytesHeld(calls - {t}) && (calls[t].SendPassed? ==> calls[t].message == [])
    ensures |Shutting(calls - {t})| == |Shutting(calls)| - if t in Shutting(calls) then 1 else 0
  {
    assert Shutting(calls - {t}) == Shutting(calls) - {t};
  }

  lemma CallSet(calls: map<Tid, Call>, t: Tid, call: Call)
    requires NoBytesHeld(calls) && !call.SendPassed?
    requires t in Shutting(calls) <==> call.ShutSet? || call.ShutPassed?
    ensures NoBytesHeld(calls[t := call]) && Shutting(calls[t := call]) == Shutting(calls)
  {
  }

  lemma InShutting(calls: map<Tid, Call>, t: Tid)
    requires t in calls
    ensures t in Shutting(calls) <==> calls[t].ShutPassed? || calls[t].ShutSet?
  {
  }

  lemma QuietProceed(c: Connection, t: Tid)
    requires Quiet(c) && t in c.calls
    ensures Quiet(AfterProceed(c, t))
  {
    hide NoBytesQueued, NoBytesHeld, Shutting;
    var call := c.calls[t];
    InShutting(c.calls, t);
    CallGone(c.calls, t);
    if call.ShutPassed? {
      CallSet(c.calls, t, ShutSet);
    } else if call.ClosePassed? {
      CallSet(c.calls, t, CloseSet);
    } else {
      var task := if call.SendPassed? then SendTask(call.message)
                  else if call.ShutSet? then ShutdownTask else ForceCloseTask;
      LastTaskAdded(c.tasks, task);
    }
  }

  lemma QuietEnter(c: Connection, t: Tid, call: Call)
    requires Quiet(c) && Enabled(c, Enter(t, call))
    ensures Quiet(AfterEnter(c, t, call))
  {
    if Passes(c, call) {
      assert t !in Shutting(c.calls);
      CallSet(c.calls, t, call);
    }
  }

  lemma QuietOther(c: Connection, step: Step)
    requires Quiet(c) && Enabled(c, step) && !step.RunTask? && !step.Proceed? && !step.Enter?
    ensures Quiet(Next(c, step))
  {
    hide NoBytesQueued, NoBytesHeld, Shutting;
    LastTaskAdded(c.tasks, ForceCloseTask);
  }

  lemma QuietStep(c: Connection, step: Step)
    requires Quiet(c) && Enabled(c, step)
    ensures Quiet(Next(c, step))
  {
    hide AfterTask, AfterProceed, AfterEnter, Quiet;
    if step.RunTask? {
      QuietTask(c, step.result);
    } else if step.Proceed? {
      QuietProceed(c, step.thread);
    } else if step.Enter? {
      QuietEnter(c, step.thread, step.call);
    } else {
      QuietOther(c, step);
    }
  }

  lemma {:induction false} QuietExec(c: Connection, steps: seq<Step>)
    requires Quiet(c)
    ensures Quiet(Exec(c, steps))
    decreases |steps|
  {
    hide Next, Enabled, Quiet;
    if steps != [] && Enabled(c, steps[0]) {
      QuietStep(c, steps[0]);
      QuietExec(Next(c, steps[0]), steps[1..]);
    }
  }

  // ---- twice

  /** The steps can all happen, and lead there. */
  ghost predicate LeadsTo(c: Connection, steps: seq<Step>, d: Connection) {
    forall rest :: Exec(c, steps + rest) == Exec(d, rest)
  }

  lemma OneStep(c: Connection, step: Step)
    requires Enabled(c, step)
    ensures LeadsTo(c, [step], Next(c, step))
  {
    forall rest ensures Exec(c, [step] + rest) == Exec(Next(c, step), rest) {
      Prefixed(c, step, rest);
    }
  }

  lemma NoSteps(c: Connection)
    ensures LeadsTo(c, [], c)
  {
    forall rest ensures Exec(c, [] + rest) == Exec(c, rest) {
      assert [] + rest == rest;
    }
  }

  lemma Joined(c: Connection, first: seq<Step>, d: Connection, second: seq<Step>, e: Connection)
    requires LeadsTo(c, first, d) && LeadsTo(d, second, e)
    ensures LeadsTo(c, first + second, e)
  {
    forall rest ensures Exec(c, first + second + rest) == Exec(e, rest) {
      assert first + second + rest == first + (second + rest);
      assert Exec(c, first + (second + rest)) == Exec(d, second + rest);
    }
  }

  lemma Arrived(c: Connection, steps: seq<Step>, d: Connection)
    requires LeadsTo(c, steps, d)
    ensures Exec(c, steps) == d
  {
    assert steps + [] == steps && Exec(c, steps + []) == Exec(d, []);
  }

  /** The half can come to be shut twice from here. */
  ghost predicate CanShutTwice(c: Connection) {
    exists steps, d :: LeadsTo(c, steps, d) && d.history.shutdowns >= 2
  }

  lemma Witness(c: Connection, steps: seq<Step>, d: Connection)
    requires LeadsTo(c, steps, d) && d.history.shutdowns >= 2
    ensures CanShutTwice(c)
  {
  }

  lemma After(c: Connection, steps: seq<Step>, d: Connection)
    requires LeadsTo(c, steps, d) && CanShutTwice(d)
    ensures CanShutTwice(c)
  {
    hide LeadsTo;
    var more, e :| LeadsTo(d, more, e) && e.history.shutdowns >= 2;
    Joined(c, steps, d, more, e);
  }

  lemma AfterStep(c: Connection, step: Step)
    requires Enabled(c, step) && CanShutTwice(Next(c, step))
    ensures CanShutTwice(c)
  {
    hide LeadsTo, CanShutTwice, Next, Enabled;
    OneStep(c, step);
    After(c, [step], Next(c, step));
  }

  /** With the connection closed, a queued functor runs without effect, but for a shutdown, which shuts the half. */
  lemma ClosedTask(c: Connection)
    requires c.state == Disconnected && !c.writing && c.tasks != []
    ensures Enabled(c, RunTask(Broken))
    ensures var d, one := Next(c, RunTask(Broken)), if c.tasks[0] == ShutdownTask then 1 else 0;
            && |d.tasks| < |c.tasks| && d.state == Disconnected && !d.writing
            && d.history.shutdowns == c.history.shutdowns + one
            && multiset(d.tasks)[ShutdownTask] == multiset(c.tasks)[ShutdownTask] - one
  {
    assert c.tasks == [c.tasks[0]] + c.tasks[1..];
  }

  /** With the connection closed, every queued shutdown shuts the half. */
  lemma {:induction false} ClosedShutsTwice(c: Connection)
    requires c.state == Disconnected && !c.writing
    requires c.history.shutdowns + multiset(c.tasks)[ShutdownTask] >= 2
    ensures CanShutTwice(c)
    decreases |c.tasks|
  {
    hide LeadsTo, CanShutTwice, Next;
    if c.history.shutdowns >= 2 {
      NoSteps(c);
      Witness(c, [], c);
    } else {
      ClosedTask(c);
      ClosedShutsTwice(Next(c, RunTask(Broken)));
      AfterStep(c, RunTask(Broken));
    }
  }

  /** Two shutdowns done or queued are enough: close the connection and run them. */
  lemma TwoShutTwice(c: Connection)
    requires Live(c) && c.history.shutdowns + multiset(c.tasks)[ShutdownTask] >= 2
    ensures CanShutTwice(c)
  {
    hide CanShutTwice;
    ClosedShutsTwice(AfterClose(c));
    AfterStep(c, PeerClosed);
  }

  /** Draining the buffer shuts the half, and so does the queued shutdown after it. */
  lemma DrainShutsTwice(c: Connection)
    requires c.state == Disconnecting && c.writing && c.output != [] && c.history.shutdowns == 0
    requires multiset(c.tasks)[ShutdownTask] >= 1
    ensures CanShutTwice(c)
  {
    hide CanShutTwice;
    Drained(c);
    var drain := Writable(Wrote(|c.output|));
    TwoShutTwice(Next(c, drain));
    AfterStep(c, drain);
  }

  lemma Drained(c: Connection)
    requires c.state == Disconnecting && c.writing && c.output != [] && c.history.shutdowns == 0
    ensures Enabled(c, Writable(Wrote(|c.output|)))
    ensures var d := Next(c, Writable(Wrote(|c.output|)));
            && d.state == Disconnecting && d.history.shutdowns == 1 && d.calls == c.calls
            && multiset(d.tasks)[ShutdownTask] == multiset(c.tasks)[ShutdownTask]
  {
    assert c.tasks + [] == c.tasks;
  }

  /** A queued send of some bytes that would block is buffered. */
  lemma Buffered(c: Connection)
    requires c.state == Disconnecting && !c.writing && c.tasks != [] && c.history.shutdowns == 0
    requires c.tasks[0].SendTask? && c.tasks[0].message != []
    ensures Enabled(c, RunTask(WouldBlock))
    ensures var d := Next(c, RunTask(WouldBlock));
            && d.state == Disconnecting && d.writing && d.output != [] && d.history.shutdowns == 0
            && multiset(d.tasks)[ShutdownTask] == multiset(c.tasks)[ShutdownTask]
  {
    assert c.tasks == [c.tasks[0]] + c.tasks[1..];
    assert c.tasks[0].message[0..] == c.tasks[0].message;
  }

  /** A functor that is no send of some bytes, no shutdown and no close changes nothing that matters. */
  lemma IdleTask(c: Connection)
    requires c.state == Disconnecting && !c.writing && c.tasks != [] && c.history.shutdowns == 0
    requires c.tasks[0] != ShutdownTask && c.tasks[0] != ForceCloseTask
    requires c.tasks[0].SendTask? ==> c.tasks[0].message == []
    ensures Enabled(c, RunTask(WouldBlock))
    ensures var d := Next(c, RunTask(WouldBlock));
            d.state == Disconnecting && !d.writing && d.tasks == c.tasks[1..] && d.history.shutdowns == 0
  {
    assert c.tasks[1..] + [] == c.tasks[1..];
  }

  /** Some thread that is in no call. */
  lemma {:induction false} FreeThread(busy: set<Tid>) returns (t: Tid)
    ensures t !in busy && forall u | u in busy :: u < t
  {
    if busy == {} {
      t := 0;
    } else {
      var u :| u in busy;
      var v := FreeThread(busy - {u});
      t := if u < v then v else u + 1;
      assert forall x | x in busy :: x == u || x in busy - {u};
    }
  }

  /** A thread that passes its check in forceClose() before the close brings the state back after it. */
  lemma Revived(c: Connection) returns (u: Tid, d: Connection)
    requires c.state == Disconnecting && c.tasks != [] && c.tasks[0] == ForceCloseTask
    ensures d.state == Disconnecting && !d.writing && d.tasks == c.tasks[1..] && d.history == c.history
    ensures LeadsTo(c, [Enter(u, ClosePassed), RunTask(Broken), Proceed(u)], d)
  {
    hide LeadsTo;
    u := FreeThread(c.calls.Keys);
    var c1 := Next(c, Enter(u, ClosePassed));
    var c2 := Next(c1, RunTask(Broken));
    d := Next(c2, Proceed(u));
    OneStep(c, Enter(u, ClosePassed));
    OneStep(c1, RunTask(Broken));
    OneStep(c2, Proceed(u));
    hide Next, Enabled;
    Joined(c, [Enter(u, ClosePassed)], c1, [RunTask(Broken)], c2);
    Joined(c, [Enter(u, ClosePassed)] + [RunTask(Broken)], c2, [Proceed(u)], d);
    assert [Enter(u, ClosePassed)] + [RunTask(Broken)] + [Proceed(u)]
           == [Enter(u, ClosePassed), RunTask(Broken), Proceed(u)];
  }

  /** A queued send of some bytes can be buffered before the queued shutdown is reached, whatever else is queued. */
  lemma {:induction false} QueuedSendShutsTwice(c: Connection, before: seq<Task>)
    requires c.state == Disconnecting && !c.writing && c.history.shutdowns == 0
    requires c.tasks == before + [ShutdownTask] && ShutdownTask !in before && !NoBytesQueued(before)
    ensures CanShutTwice(c)
    decreases |before|
  {
    hide LeadsTo, CanShutTwice, Next, Enabled;
    var first := before[0];
    assert c.tasks[0] == first && first in before && c.tasks[1..] == before[1..] + [ShutdownTask];
    if first.SendTask? && first.message != [] {
      Buffered(c);
      DrainShutsTwice(Next(c, RunTask(WouldBlock)));
      AfterStep(c, RunTask(WouldBlock));
    } else {
      assert before == [first] + before[1..];
      if first == ForceCloseTask {
        var u, d := Revived(c);
        QueuedSendShutsTwice(d, before[1..]);
        After(c, [Enter(u, ClosePassed), RunTask(Broken), Proceed(u)], d);
      } else {
        IdleTask(c);
        QueuedSendShutsTwice(Next(c, RunTask(WouldBlock)), before[1..]);
        AfterStep(c, RunTask(WouldBlock));
      }
    }
  }

  /** A thread inside shutdown() that sets the state if it has not yet, and pushes. */
  lemma Pushes(c: Connection, u: Tid) returns (steps: seq<Step>, d: Connection)
    requires u in Shutting(c.calls) && Rank(c.state) >= 2
    ensures LeadsTo(c, steps, d) && Rank(d.state) >= 2 && (c.state == Disconnecting ==> d.state == Disconnecting)
    ensures d.writing == c.writing && d.output == c.output && d.history == c.history
    ensures d.calls == c.calls - {u} && d.tasks == c.tasks + [ShutdownTask]
    ensures multiset(d.tasks)[ShutdownTask] == multiset(c.tasks)[ShutdownTask] + 1
  {
    hide LeadsTo, AfterTask, AfterWritable, AfterSend;
    OneStep(c, Proceed(u));
    var c1 := Next(c, Proceed(u));
    if c.calls[u].ShutSet? {
      steps, d := [Proceed(u)], c1;
    } else {
      OneStep(c1, Proceed(u));
      d := Next(c1, Proceed(u));
      steps := [Proceed(u)] + [Proceed(u)];
      Joined(c, [Proceed(u)], c1, [Proceed(u)], d);
      assert c.calls[u := ShutSet] - {u} == c.calls - {u};
    }
  }

  // ---- exactly when

  ghost predicate AtMostOnce(c: Connection) {
    forall later :: Exec(c, later).history.shutdowns <= 1
  }

  lemma TwiceIsNotOnce(c: Connection)
    requires CanShutTwice(c)
    ensures !AtMostOnce(c)
  {
    hide LeadsTo, Exec;
    var steps, d :| LeadsTo(c, steps, d) && d.history.shutdowns >= 2;
    Arrived(c, steps, d);
  }

  /** More than one shutdown is done or under way, and `t` is in one of them with the state set. */
  lemma TooManyShuts(c: Connection, t: Tid)
    requires c.state == Disconnecting && t in Shutting(c.calls) && Shuts(c) >= 2
    ensures CanShutTwice(c)
  {
    hide LeadsTo, CanShutTwice;
    var steps, d := Pushes(c, t);
    var count := c.history.shutdowns + multiset(c.tasks)[ShutdownTask];
    if count >= 1 {
      TwoShutTwice(d);
    } else {
      var u := AnotherShutting(c.calls, t);
      var more, e := Pushes(d, u);
      TwoShutTwice(e);
      After(d, more, e);
    }
    After(c, steps, d);
  }

  lemma AnotherShutting(calls: map<Tid, Call>, t: Tid) returns (u: Tid)
    requires t in Shutting(calls) && |Shutting(calls)| >= 2
    ensures u in Shutting(calls - {t})
  {
    assert |Shutting(calls) - {t}| >= 1;
    u :| u in Shutting(calls) - {t};
  }

  lemma HeldSendShutsTwice(c: Connection, t: Tid, u: Tid)
    requires c.state == Disconnecting && !c.writing && c.history.shutdowns == 0 && ShutdownTask !in c.tasks
    requires t in Shutting(c.calls) && u in c.calls && c.calls[u].SendPassed? && c.calls[u].message != []
    ensures CanShutTwice(c)
  {
    hide LeadsTo, CanShutTwice;
    var task := SendTask(c.calls[u].message);
    var d := Next(c, Proceed(u));
    assert d.tasks == c.tasks + [task] && task in d.tasks && t in Shutting(d.calls);
    QueuedThenPush(d, t);
    AfterStep(c, Proceed(u));
  }

  lemma QueuedThenPush(c: Connection, t: Tid)
    requires c.state == Disconnecting && !c.writing && c.history.shutdowns == 0 && ShutdownTask !in c.tasks
    requires t in Shutting(c.calls) && !NoBytesQueued(c.tasks)
    ensures CanShutTwice(c)
  {
    hide LeadsTo, CanShutTwice, NoBytesQueued, Shutting;
    var steps, d := Pushes(c, t);
    QueuedSendShutsTwice(d, c.tasks);
    After(c, steps, d);
  }

  lemma WritingShutsTwice(c: Connection, t: Tid)
    requires c.state == Disconnecting && c.writing && c.output != [] && c.history.shutdowns == 0
    requires t in Shutting(c.calls)
    ensures CanShutTwice(c)
  {
    hide LeadsTo, CanShutTwice, Shutting;
    var steps, d := Pushes(c, t);
    DrainShutsTwice(d);
    After(c, steps, d);
  }

  lemma HasShutting(calls: map<Tid, Call>, t: Tid)
    requires t in Shutting(calls)
    ensures |Shutting(calls)| >= 1
  {
    assert Shutting(calls) != {};
  }

  lemma NotOnce(c: Connection, t: Tid)
    requires InterestRight(c) && c.state == Disconnecting && t in Shutting(c.calls) && !ShutsOnce(c)
    ensures CanShutTwice(c)
  {
    HasShutting(c.calls, t);
    if Shuts(c) >= 2 {
      TooManyShuts(c, t);
    } else {
      assert multiset(c.tasks)[ShutdownTask] == 0;
      if c.writing {
        WritingShutsTwice(c, t);
      } else if !NoBytesQueued(c.tasks) {
        QueuedThenPush(c, t);
      } else {
        var u :| u in c.calls && c.calls[u].SendPassed? && c.calls[u].message != [];
        HeldSendShutsTwice(c, t, u);
      }
    }
  }

  lemma Once(c: Connection)
    requires Rank(c.state) >= 2 && ShutsOnce(c)
    ensures AtMostOnce(c)
  {
    forall later ensures Exec(c, later).history.shutdowns <= 1 {
      QuietExec(c, later);
    }
  }

  /** What the set of the state by a thread inside shutdown() does to all this: nothing. */
  lemma SetKeeps(c: Connection, t: Tid)
    requires t in c.calls && c.calls[t].ShutPassed?
    ensures var d := AfterProceed(c, t);
            d.state == Disconnecting && t in Shutting(d.calls) && (ShutsOnce(d) <==> ShutsOnce(c))
  {
    var d := AfterProceed(c, t);
    assert Shutting(d.calls) == Shutting(c.calls);
    assert forall u | u in c.calls && c.calls[u].SendPassed? :: u != t && d.calls[u] == c.calls[u];
    assert forall u | u in d.calls && d.calls[u].SendPassed? :: u != t && d.calls[u] == c.calls[u];
  }

  /**
   * When another thread sets the state in shutdown(), the write half is shut at most once, however the run goes on,
   * exactly when nothing is being written, no send of any byte is queued or held by a thread past its check, and no
   * other shutdown is done or under way.
   */
  lemma ShutOnceExactly(config: Config, steps: seq<Step>, t: Tid)
    requires var c := Reached(config, steps); t in c.calls && c.calls[t].ShutPassed?
    ensures var c := Reached(config, steps); AtMostOnce(AfterProceed(c, t)) <==> ShutsOnce(c)
  {
    hide Exec, BytesKept, MessagesKept, AtMostOnce, CanShutTwice, ShutsOnce;
    ReachedInv(config, steps);
    var c := Reached(config, steps);
    var d := AfterProceed(c, t);
    StepInv(c, Proceed(t));
    SetKeeps(c, t);
    if ShutsOnce(c) {
      Once(d);
    } else {
      NotOnce(d, t);
      TwiceIsNotOnce(d);
    }
  }

  // ---- called in the loop thread

  /** No shutdown is queued or under way; only the drain of the buffer can still shut the half, and only once. */
  ghost predicate Settled(c: Connection) {
    Rank(c.state) >= 2 && ShutdownTask !in c.tasks && Shutting(c.calls) == {} && c.history.shutdowns <= 1
  }

  lemma SettledStep(c: Connection, step: Step)
    requires Settled(c) && Enabled(c, step)
    ensures Settled(Next(c, step))
  {
    hide AfterSendInLoop;
    if step.RunTask? {
      assert c.tasks[0] in c.tasks && forall task | task in c.tasks[1..] :: task in c.tasks;
      if c.tasks[0].SendTask? {
        SettledSend(c.(tasks := c.tasks[1..]), c.tasks[0].message, step.result);
      }
    } else if step.Proceed? || step.Enter? {
      SettledCall(c, step);
    }
  }

  lemma SettledSend(c: Connection, message: Message, result: WriteResult)
    requires Settled(c) && Possible(c, |message|, result)
    ensures Settled(AfterSendInLoop(c, message, result))
  {
    hide Shutting;
  }

  lemma SettledCall(c: Connection, step: Step)
    requires Settled(c) && Enabled(c, step) && (step.Enter? || step.Proceed?)
    ensures Settled(Next(c, step))
  {
    var d := Next(c, step);
    assert step.Proceed? ==> step.thread !in Shutting(c.calls);
    forall u ensures u !in Shutting(d.calls) {
      assert u !in Shutting(c.calls);
    }
  }

  lemma {:induction false} SettledExec(c: Connection, steps: seq<Step>)
    requires Settled(c)
    ensures Settled(Exec(c, steps))
    decreases |steps|
  {
    hide Settled, Next, Enabled;
    if steps != [] && Enabled(c, steps[0]) {
      SettledStep(c, steps[0]);
      SettledExec(Next(c, steps[0]), steps[1..]);
    }
  }

  lemma ShutInLoopTwice(c: Connection, u: Tid)
    requires InterestRight(c) && c.state == Connected && c.history.shutdowns == 0 && u in Shutting(c.calls)
    ensures CanShutTwice(AfterShutdown(c))
  {
    hide CanShutTwice, Shutting;
    var d := AfterShutdown(c);
    if c.writing {
      WritingShutsTwice(d, u);
    } else {
      HasShutting(d.calls, u);
      TooManyShuts(d, u);
    }
  }

  /**
   * A shutdown() called in the loop thread shuts the write half at most once, however the run goes on, exactly when
   * no other thread is inside shutdown() past its check.
   */
  lemma ShutInLoopExactly(config: Config, steps: seq<Step>)
    requires Reached(config, steps).state == Connected
    ensures var c := Reached(config, steps); AtMostOnce(AfterShutdown(c)) <==> Shutting(c.calls) == {}
  {
    hide Exec, BytesKept, MessagesKept, CanShutTwice, Shutting;
    ReachedInv(config, steps);
    var c := Reached(config, steps);
    var d := AfterShutdown(c);
    if Shutting(c.calls) == {} {
      forall later ensures Exec(d, later).history.shutdowns <= 1 {
        SettledExec(d, later);
      }
    } else {
      var u :| u in Shutting(c.calls);
      ShutInLoopTwice(c, u);
      TwiceIsNotOnce(d);
    }
  }

  // ---- two runs

  lemma FourSteps(c: Connection, a: Step, b: Step, d: Step, e: Step, rest: seq<Step>)
    requires Enabled(c, a) && Enabled(Next(c, a), b) && Enabled(Next(Next(c, a), b), d)
    requires Enabled(Next(Next(Next(c, a), b), d), e)
    ensures Exec(c, [a, b, d, e] + rest) == Exec(Next(Next(Next(Next(c, a), b), d), e), rest)
  {
    hide Exec, Next, Enabled;
    assert [a, b, d, e] + rest == [a, b, d] + ([e] + rest);
    ThreeSteps(c, a, b, d, [e] + rest);
    Prefixed(Next(Next(Next(c, a), b), d), e, rest);
  }

  /** The run of a buffer that drains after the state is set and before the queued shutdown is reached. */
  lemma DrainThenTask(c: Connection)
    requires c.state == Disconnecting && c.writing && |c.output| == 1 && c.history.shutdowns == 0
    requires c.tasks == [ShutdownTask] && !c.config.notifyComplete
    ensures Exec(c, [Writable(Wrote(1)), RunTask(WouldBlock)]).history.shutdowns == 2
  {
    var c1 := Next(c, Writable(Wrote(1)));
    assert c1.tasks == [ShutdownTask];
    var c2 := Next(c1, RunTask(WouldBlock));
    hide Next, Enabled;
    var rest := [RunTask(WouldBlock)];
    assert [Writable(Wrote(1)), RunTask(WouldBlock)] == [Writable(Wrote(1))] + rest && rest == rest + [];
    Prefixed(c, Writable(Wrote(1)), rest);
    Prefixed(c1, RunTask(WouldBlock), []);
    NoStep(c2);
  }

  /** Called from another thread while a message waits to be written: the drain shuts the half, and so does the task. */
  lemma CrossThreadShutdownTwice()
    ensures Reached(Config(1, false, false),
                    [Establish, Send([7], WouldBlock), Enter(0, ShutPassed), Proceed(0)]
                    + ([Proceed(0)] + [Writable(Wrote(1)), RunTask(WouldBlock)])).history.shutdowns == 2
  {
    var c0 := Init(Config(1, false, false));
    var c1 := Next(c0, Establish);
    var c2 := Next(c1, Send([7], WouldBlock));
    assert c2.output == [7] && c2.tasks == [];
    hide AfterSend;
    var c3 := Next(c2, Enter(0, ShutPassed));
    var c4 := Next(c3, Proceed(0));
    var c5 := Next(c4, Proceed(0));
    assert c5.tasks == [ShutdownTask];
    hide Exec;
    var drain := [Writable(Wrote(1)), RunTask(WouldBlock)];
    FourSteps(c0, Establish, Send([7], WouldBlock), Enter(0, ShutPassed), Proceed(0), [Proceed(0)] + drain);
    Prefixed(c4, Proceed(0), drain);
    DrainThenTask(c5);
  }

  /** The connection is idle when the state is set, but a send is past its check and pushes afterwards. */
  lemma HeldSendShutdownTwice()
    ensures Reached(Config(1, false, false),
                    [Establish, Enter(1, SendPassed([7])), Enter(2, ShutPassed), Proceed(2)]
                    + ([Proceed(1), Proceed(2), RunTask(WouldBlock)] + [Writable(Wrote(1)), RunTask(WouldBlock)]))
            .history.shutdowns == 2
  {
    hide AfterTask, AfterWritable, AfterSend, Exec;
    var c0 := Init(Config(1, false, false));
    var c1 := Next(c0, Establish);
    var c2 := Next(c1, Enter(1, SendPassed([7])));
    var c3 := Next(c2, Enter(2, ShutPassed));
    var c4 := Next(c3, Proceed(2));
    var drain := [Writable(Wrote(1)), RunTask(WouldBlock)];
    FourSteps(c0, Establish, Enter(1, SendPassed([7])), Enter(2, ShutPassed), Proceed(2),
              [Proceed(1), Proceed(2), RunTask(WouldBlock)] + drain);
    HeldSendPushed(c4, drain);
  }

  lemma HeldSendPushed(c: Connection, drain: seq<Step>)
    requires c.state == Disconnecting && !c.writing && c.output == [] && c.history.shutdowns == 0
    requires c.calls == map[1 := SendPassed([7]), 2 := ShutSet] && c.tasks == []
    requires !c.config.notifyHighWater && !c.config.notifyComplete
    requires drain == [Writable(Wrote(1)), RunTask(WouldBlock)]
    ensures Exec(c, [Proceed(1), Proceed(2), RunTask(WouldBlock)] + drain).history.shutdowns == 2
  {
    hide Exec, AfterTask, AfterWritable;
    var c1 := Next(c, Proceed(1));
    var c2 := Next(c1, Proceed(2));
    assert c2.tasks == [SendTask([7]), ShutdownTask];
    HeldSendBuffered(c2);
    ThreeSteps(c, Proceed(1), Proceed(2), RunTask(WouldBlock), drain);
    DrainThenTask(Next(c2, RunTask(WouldBlock)));
  }

  lemma HeldSendBuffered(c: Connection)
    requires c.state == Disconnecting && !c.writing && c.output == [] && c.history.shutdowns == 0
    requires c.tasks == [SendTask([7]), ShutdownTask] && !c.config.notifyHighWater && !c.config.notifyComplete
    ensures var d := Next(c, RunTask(WouldBlock));
            && d.state == Disconnecting && d.writing && |d.output| == 1 && d.history.shutdowns == 0
            && d.tasks == [ShutdownTask] && d.config == c.config
  {
    assert c.tasks[1..] + [] == [ShutdownTask];
  }
}
