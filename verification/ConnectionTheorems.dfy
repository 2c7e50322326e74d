/** What every run of a connection keeps. */
module ConnectionTheorems {
  import opened Bytes
  import opened ConnectionRuns

  /** The messages of the queued sends, in order. */
  function Waiting(tasks: seq<Task>): seq<Message> {
    if tasks == [] then []
    else Waiting(tasks[..|tasks| - 1])
         + (if tasks[|tasks| - 1].SendTask? then [tasks[|tasks| - 1].message] else [])
  }

  function Sends(tasks: seq<Task>): multiset<Message> {
    multiset(Waiting(tasks))
  }

  lemma WaitingAppend(tasks: seq<Task>, task: Task)
    ensures Waiting(tasks + [task]) == Waiting(tasks) + (if task.SendTask? then [task.message] else [])
  {
    assert (tasks + [task])[..|tasks|] == tasks;
  }

  lemma {:induction false} WaitingFirst(tasks: seq<Task>)
    requires tasks != []
    ensures Waiting(tasks) == (if tasks[0].SendTask? then [tasks[0].message] else []) + Waiting(tasks[1..])
  {
    if |tasks| == 1 {
      assert tasks[..0] == [] && tasks[1..] == [];
    } else {
      hide Waiting;
      var front, last := tasks[..|tasks| - 1], tasks[|tasks| - 1];
      assert front + [last] == tasks && front[1..] + [last] == tasks[1..];
      WaitingFirst(front);
      WaitingAppend(front, last);
      WaitingAppend(front[1..], last);
      var a, b := if tasks[0].SendTask? then [tasks[0].message] else [], if last.SendTask? then [last.message] else [];
      assert a + Waiting(front[1..]) + b == a + (Waiting(front[1..]) + b);
    }
  }

  lemma SendsAppend(tasks: seq<Task>, task: Task)
    ensures Sends(tasks + [task]) == Sends(tasks) + (if task.SendTask? then multiset{task.message} else multiset{})
  {
    hide Waiting;
    WaitingAppend(tasks, task);
  }

  lemma SendsFirst(tasks: seq<Task>)
    requires tasks != []
    ensures Sends(tasks)
            == (if tasks[0].SendTask? then multiset{tasks[0].message} else multiset{}) + Sends(tasks[1..])
  {
    hide Waiting;
    WaitingFirst(tasks);
  }

  /** Bytes taken by the kernel, then the output buffer, are the handled messages in order. */
  predicate BytesKept(c: Connection) {
    c.history.kernel + c.output == Flatten(c.history.handled)
  }

  /** Until the connection is closed, write interest is on exactly when there is something to write. */
  predicate InterestRight(c: Connection) {
    && (c.writing ==> c.output != [])
    && (!c.closed ==> (c.writing <==> c.output != []))
    && (c.state == Disconnected ==> c.closed && !c.writing)
    && (c.state == Connected ==> !c.closed)
    && (c.state == Connecting ==> c == Init(c.config))
  }

  /** While the connection is up, nobody has shut it or is past setting its state. */
  predicate ShutRight(c: Connection) {
    c.state == Connected ==>
      && c.history.shutdowns == 0
      && ShutdownTask !in c.tasks && ForceCloseTask !in c.tasks
      && forall t | t in c.calls :: Entering(c.calls[t])
  }

  /** Every message that send() handed over is handled, dropped, late or still queued, exactly once. */
  ghost predicate MessagesKept(c: Connection) {
    multiset(c.history.accepted)
    == multiset(c.history.handled) + multiset(c.history.dropped) + multiset(c.history.late) + Sends(c.tasks)
  }

  ghost predicate Inv(c: Connection) {
    BytesKept(c) && InterestRight(c) && ShutRight(c) && MessagesKept(c)
  }

  lemma SendBytes(c: Connection, message: Message, result: WriteResult)
    requires BytesKept(c) && Possible(c, |message|, result)
    ensures BytesKept(AfterSendInLoop(c, message, result))
  {
    hide Flatten;
    FlattenAppend(c.history.handled, message);
    if c.state != Disconnected && !(WritesDirectly(c) && result.Broken?) {
      var n := DirectCount(c, message, result);
      SplitAcross(c.history.kernel, c.output, message, n);
    }
  }

  /** What is written at once comes before what is buffered, and something is written only with nothing buffered. */
  lemma SplitAcross(kernel: seq<Byte>, output: seq<Byte>, message: Message, n: nat)
    requires n <= |message| && (n == 0 || output == [])
    ensures (kernel + message[..n]) + (output + message[n..]) == (kernel + output) + message
  {
    if n == 0 {
      assert kernel + message[..0] == kernel && message[0..] == message;
      assert kernel + (output + message) == (kernel + output) + message;
    } else {
      assert output + message[n..] == message[n..] && kernel + output == kernel;
      assert (kernel + message[..n]) + message[n..] == kernel + (message[..n] + message[n..]);
    }
  }

  lemma SendShut(c: Connection, message: Message, result: WriteResult)
    requires InterestRight(c) && ShutRight(c) && Possible(c, |message|, result) && c.state != Connecting
    ensures InterestRight(AfterSendInLoop(c, message, result)) && ShutRight(AfterSendInLoop(c, message, result))
  {
  }

  lemma SendMessages(c: Connection, message: Message, result: WriteResult)
    requires Possible(c, |message|, result)
    ensures var h, h' := c.history, AfterSendInLoop(c, message, result).history;
            && h'.accepted == h.accepted
            && multiset(h'.handled) + multiset(h'.dropped) + multiset(h'.late)
               == multiset(h.handled) + multiset(h.dropped) + multiset(h.late) + multiset{message}
  {
  }

  lemma SendTasks(c: Connection, message: Message, result: WriteResult)
    requires Possible(c, |message|, result)
    ensures var c' := AfterSendInLoop(c, message, result);
            && Waiting(c'.tasks) == Waiting(c.tasks)
            && c'.state == c.state
            && (ShutdownTask in c'.tasks <==> ShutdownTask in c.tasks)
            && (ForceCloseTask in c'.tasks <==> ForceCloseTask in c.tasks)
  {
    var c' := AfterSendInLoop(c, message, result);
    var high := HighWaterTask(|c.output| + |message[DirectCount(c, message, result)..]|);
    assert c'.tasks == c.tasks || c'.tasks == c.tasks + [] || c'.tasks == c.tasks + [WriteCompleteTask]
           || c'.tasks == c.tasks + [high];
    assert c.tasks + [] == c.tasks;
    hide AfterSendInLoop, Waiting;
    WaitingAppend(c.tasks, WriteCompleteTask);
    WaitingAppend(c.tasks, high);
  }

  lemma SendInLoopInv(c: Connection, message: Message, result: WriteResult)
    requires BytesKept(c) && InterestRight(c) && ShutRight(c) && c.state != Connecting
    requires Possible(c, |message|, result)
    requires multiset(c.history.accepted)
             == multiset(c.history.handled) + multiset(c.history.dropped) + multiset(c.history.late)
                + Sends(c.tasks) + multiset{message}
    ensures Inv(AfterSendInLoop(c, message, result))
  {
    hide BytesKept, InterestRight, ShutRight, AfterSendInLoop, Waiting;
    SendBytes(c, message, result);
    SendShut(c, message, result);
    SendTasks(c, message, result);
    SendMessages(c, message, result);
  }

  lemma NotedFlags(c: Connection, message: Message)
    requires BytesKept(c) && InterestRight(c) && ShutRight(c) && c.state != Connecting
    ensures var c' := Noted(c, message); BytesKept(c') && InterestRight(c') && ShutRight(c')
  {
  }

  lemma SendInv(c: Connection, message: Message, result: WriteResult)
    requires Inv(c) && Possible(c, |message|, result)
    ensures Inv(AfterSend(c, message, result))
  {
    hide AfterSendInLoop, BytesKept, InterestRight, ShutRight, Sends;
    if c.state == Connected {
      NotedFlags(c, message);
      SendInLoopInv(Noted(c, message), message, result);
    }
  }

  /** The push of a send by another thread. */
  lemma PushFlags(c: Connection, t: Tid)
    requires InterestRight(c) && ShutRight(c) && t in c.calls && c.calls[t].SendPassed?
    ensures InterestRight(AfterProceed(c, t)) && ShutRight(AfterProceed(c, t))
  {
  }

  lemma PushInv(c: Connection, t: Tid)
    requires Inv(c) && t in c.calls && c.calls[t].SendPassed?
    ensures Inv(AfterProceed(c, t))
  {
    PushFlags(c, t);
    hide InterestRight, ShutRight, Sends, Flatten;
    SendsAppend(c.tasks, SendTask(c.calls[t].message));
  }

  lemma WritableFlags(c: Connection, result: WriteResult)
    requires InterestRight(c) && ShutRight(c) && Possible(c, |c.output|, result)
    ensures InterestRight(AfterWritable(c, result)) && ShutRight(AfterWritable(c, result))
  {
  }

  lemma WritableInv(c: Connection, result: WriteResult)
    requires Inv(c) && Possible(c, |c.output|, result)
    ensures Inv(AfterWritable(c, result))
  {
    hide Waiting, InterestRight, ShutRight, BytesKept;
    WritableFlags(c, result);
    WritableBytes(c, result);
    OtherStep(c, Writable(result));
    hide AfterWritable;
  }

  lemma WritableBytes(c: Connection, result: WriteResult)
    requires BytesKept(c) && Possible(c, |c.output|, result)
    ensures BytesKept(AfterWritable(c, result))
  {
    hide Flatten;
    if c.writing && result.Wrote? && result.n > 0 {
      assert c.history.kernel + c.output[..result.n] + c.output[result.n..] == c.history.kernel + c.output;
    }
  }

  lemma SameData(c: Connection, c': Connection)
    requires BytesKept(c) && MessagesKept(c) && c'.output == c.output && Sends(c'.tasks) == Sends(c.tasks)
    requires c'.history == c.history.(shutdowns := c'.history.shutdowns)
    ensures BytesKept(c') && MessagesKept(c')
  {
  }

  /** A step that hands no message over and runs no functor. */
  predicate Plain(c: Connection, step: Step) {
    && !step.RunTask? && (step.Send? ==> c.state != Connected)
    && (step.Proceed? && step.thread in c.calls ==> !c.calls[step.thread].SendPassed?)
  }

  /** Such a step leaves the messages where they are. */
  lemma OtherStep(c: Connection, step: Step)
    requires Enabled(c, step) && Plain(c, step)
    ensures var c' := Next(c, step);
            && Waiting(c'.tasks) == Waiting(c.tasks)
            && c'.history.accepted == c.history.accepted && c'.history.handled == c.history.handled
            && c'.history.dropped == c.history.dropped && c'.history.late == c.history.late
  {
    hide Waiting;
    WaitingAppend(c.tasks, WriteCompleteTask);
    WaitingAppend(c.tasks, ShutdownTask);
    WaitingAppend(c.tasks, ForceCloseTask);
    assert c.tasks + [] == c.tasks;
  }

  lemma PlainFlags(c: Connection, step: Step)
    requires InterestRight(c) && ShutRight(c) && Enabled(c, step) && Plain(c, step) && !step.Writable?
    ensures var c' := Next(c, step);
            && InterestRight(c') && ShutRight(c') && c'.output == c.output
            && c'.history == c.history.(shutdowns := c'.history.shutdowns)
  {
  }

  lemma PlainInv(c: Connection, step: Step)
    requires Inv(c) && Enabled(c, step) && Plain(c, step) && !step.Writable?
    ensures Inv(Next(c, step))
  {
    hide Next, Enabled, Plain, InterestRight, ShutRight, BytesKept, Waiting, MessagesKept;
    PlainFlags(c, step);
    OtherStep(c, step);
    SameData(c, Next(c, step));
  }

  lemma TaskFlags(c: Connection, result: WriteResult)
    requires InterestRight(c) && ShutRight(c) && Enabled(c, RunTask(result))
    ensures InterestRight(c.(tasks := c.tasks[1..])) && ShutRight(c.(tasks := c.tasks[1..])) && c.state != Connecting
    ensures !c.tasks[0].SendTask? ==> InterestRight(AfterTask(c, result)) && ShutRight(AfterTask(c, result))
  {
  }

  lemma TaskInv(c: Connection, result: WriteResult)
    requires Inv(c) && Enabled(c, RunTask(result))
    ensures Inv(AfterTask(c, result))
  {
    hide AfterSendInLoop, BytesKept, Sends, ShutRight, InterestRight;
    SendsFirst(c.tasks);
    TaskFlags(c, result);
    var rest := c.(tasks := c.tasks[1..]);
    if c.tasks[0].SendTask? {
      BytesOf(c, rest);
      SendInLoopInv(rest, c.tasks[0].message, result);
    } else {
      SameData(c, AfterTask(c, result));
    }
  }

  lemma BytesOf(c: Connection, c': Connection)
    requires BytesKept(c) && c'.output == c.output && c'.history == c.history
    ensures BytesKept(c')
  {
  }

  lemma StepInv(c: Connection, step: Step)
    requires Inv(c) && Enabled(c, step)
    ensures Inv(Next(c, step))
  {
    hide Inv, AfterSend, AfterWritable, AfterTask, AfterProceed;
    if step.RunTask? {
      TaskInv(c, step.result);
    } else if step.Send? {
      SendInv(c, step.message, step.result);
    } else if step.Writable? {
      WritableInv(c, step.result);
    } else if step.Proceed? && c.calls[step.thread].SendPassed? {
      PushInv(c, step.thread);
    } else {
      PlainInv(c, step);
    }
  }

  lemma {:induction false} ExecInv(c: Connection, steps: seq<Step>)
    requires Inv(c)
    ensures Inv(Exec(c, steps))
    decreases |steps|
  {
    hide Inv, Next, Enabled;
    if steps != [] && Enabled(c, steps[0]) {
      StepInv(c, steps[0]);
      ExecInv(Next(c, steps[0]), steps[1..]);
    }
  }

  lemma InitInv(config: Config)
    ensures Inv(Init(config))
  {
  }

  function Reached(config: Config, steps: seq<Step>): Connection {
    Exec(Init(config), steps)
  }

  lemma ReachedInv(config: Config, steps: seq<Step>)
    ensures Inv(Reached(config, steps))
  {
    hide Inv, Exec;
    InitInv(config);
    ExecInv(Init(config), steps);
  }

  /**
   * In every run, under any short writes: the kernel's bytes and the output buffer are the handled messages in order,
   * write interest is on exactly when the buffer is not empty until the connection is closed, and every message that
   * send() handed over has exactly one fate.
   */
  lemma StreamConserved(config: Config, steps: seq<Step>)
    ensures var c := Reached(config, steps);
            && c.history.kernel + c.output == Flatten(c.history.handled)
            && (!c.closed ==> (c.writing <==> c.output != []))
            && multiset(c.history.accepted)
               == multiset(c.history.handled) + multiset(c.history.dropped) + multiset(c.history.late) + Sends(c.tasks)
  {
    hide Exec, Flatten, Sends;
    ReachedInv(config, steps);
  }

  /** In every run the write half of an open connection is shut only when every byte handled so far is with the kernel. */
  lemma ShutsOnlyDrained(config: Config, steps: seq<Step>, step: Step)
    requires Enabled(Reached(config, steps), step)
    ensures var c, c' := Reached(config, steps), Next(Reached(config, steps), step);
            c'.history.shutdowns > c.history.shutdowns && !c'.closed ==>
              c'.output == [] && c'.history.kernel == Flatten(c'.history.handled)
  {
    hide Exec, Flatten, Sends;
    ReachedInv(config, steps);
    var c := Reached(config, steps);
    StepInv(c, step);
    ShutSteps(c, step);
    var c' := Next(c, step);
    if c'.output == [] {
      assert c'.history.kernel + [] == c'.history.kernel;
    }
  }

  lemma ShutSteps(c: Connection, step: Step)
    requires InterestRight(c) && Enabled(c, step)
    ensures Next(c, step).history.shutdowns > c.history.shutdowns && !Next(c, step).closed ==> Next(c, step).output == []
  {
  }

  // ---- order

  /** With nothing dropped, the messages handed over are those handled and then those queued, in order. */
  ghost predicate InSendOrder(c: Connection) {
    c.history.dropped == [] && c.history.late == [] ==> c.history.accepted == c.history.handled + Waiting(c.tasks)
  }

  /** A send in the loop thread takes effect at once, ahead of the sends that are still queued. */
  predicate Overtakes(c: Connection, step: Step) {
    step.Send? && c.state == Connected && Waiting(c.tasks) != []
  }

  predicate NeverOvertakes(c: Connection, steps: seq<Step>)
    decreases |steps|
  {
    steps != [] && Enabled(c, steps[0]) ==>
      !Overtakes(c, steps[0]) && NeverOvertakes(Next(c, steps[0]), steps[1..])
  }

  lemma SendOrder(c: Connection, message: Message, result: WriteResult)
    requires Possible(c, |message|, result)
    requires c.history.dropped == [] && c.history.late == [] ==>
               c.history.accepted == c.history.handled + [message] + Waiting(c.tasks)
    ensures InSendOrder(AfterSendInLoop(c, message, result))
  {
    hide Waiting;
    SendTasks(c, message, result);
  }

  lemma InSendOrderSend(c: Connection, message: Message, result: WriteResult)
    requires InSendOrder(c) && c.state == Connected && Possible(c, |message|, result) && Waiting(c.tasks) == []
    ensures InSendOrder(AfterSend(c, message, result))
  {
    hide Waiting, AfterSendInLoop;
    assert c.history.handled + [message] + [] == c.history.handled + [] + [message];
    SendOrder(Noted(c, message), message, result);
  }

  lemma InSendOrderPush(c: Connection, t: Tid)
    requires InSendOrder(c) && t in c.calls && c.calls[t].SendPassed?
    ensures InSendOrder(AfterProceed(c, t))
  {
    hide Waiting;
    WaitingAppend(c.tasks, SendTask(c.calls[t].message));
  }

  lemma InSendOrderTask(c: Connection, result: WriteResult)
    requires InSendOrder(c) && Enabled(c, RunTask(result))
    ensures InSendOrder(AfterTask(c, result))
  {
    hide Waiting, AfterSendInLoop;
    WaitingFirst(c.tasks);
    if c.tasks[0].SendTask? {
      SendOrder(c.(tasks := c.tasks[1..]), c.tasks[0].message, result);
    }
  }

  lemma InSendOrderPlain(c: Connection, step: Step)
    requires InSendOrder(c) && Enabled(c, step) && Plain(c, step)
    ensures InSendOrder(Next(c, step))
  {
    hide Next, Enabled, Plain, Waiting;
    OtherStep(c, step);
  }

  lemma InSendOrderStep(c: Connection, step: Step)
    requires InSendOrder(c) && Enabled(c, step) && !Overtakes(c, step)
    ensures InSendOrder(Next(c, step))
  {
    hide Waiting, AfterSend, AfterTask, AfterProceed, InSendOrder;
    if step.Send? && c.state == Connected {
      InSendOrderSend(c, step.message, step.result);
    } else if step.RunTask? {
      InSendOrderTask(c, step.result);
    } else if step.Proceed? && c.calls[step.thread].SendPassed? {
      InSendOrderPush(c, step.thread);
    } else {
      InSendOrderPlain(c, step);
    }
  }

  lemma {:induction false} InSendOrderExec(c: Connection, steps: seq<Step>)
    requires InSendOrder(c) && NeverOvertakes(c, steps)
    ensures InSendOrder(Exec(c, steps))
    decreases |steps|
  {
    hide Next, Enabled, InSendOrder, Overtakes;
    if steps != [] && Enabled(c, steps[0]) {
      InSendOrderStep(c, steps[0]);
      InSendOrderExec(Next(c, steps[0]), steps[1..]);
    }
  }

  /** The bytes on their way, kernel first and queue last, are those handed over, in order. */
  ghost predicate StreamOrdered(c: Connection) {
    c.history.kernel + c.output + Flatten(Waiting(c.tasks)) == Flatten(c.history.accepted)
  }

  /** As long as no send overtakes a queued one and nothing is dropped, the stream is in the order of hand-over. */
  lemma StreamInOrder(config: Config, steps: seq<Step>)
    requires NeverOvertakes(Init(config), steps)
    ensures var c := Reached(config, steps);
            c.history.dropped == [] && c.history.late == [] ==> StreamOrdered(c)
  {
    hide Exec, Flatten, Waiting, NeverOvertakes;
    ReachedInv(config, steps);
    StartsInOrder(config);
    InSendOrderExec(Init(config), steps);
    var c := Reached(config, steps);
    FlattenConcat(c.history.handled, Waiting(c.tasks));
  }

  lemma StartsInOrder(config: Config)
    ensures InSendOrder(Init(config))
  {
  }

  /** No other thread is in send(), and none has a message queued. */
  ghost predicate NoForeignSend(c: Connection) {
    Waiting(c.tasks) == [] && forall t | t in c.calls :: !c.calls[t].SendPassed?
  }

  lemma LoopSendStep(c: Connection, step: Step)
    requires Enabled(c, step) && NoForeignSend(c) && (step.Enter? ==> !step.call.SendPassed?)
    ensures NoForeignSend(Next(c, step)) && Next(c, step).history.late == c.history.late
  {
    hide Waiting, AfterSendInLoop;
    if step.Send? && c.state == Connected {
      SendTasks(Noted(c, step.message), step.message, step.result);
      NotLate(Noted(c, step.message), step.message, step.result);
    } else if step.RunTask? {
      WaitingFirst(c.tasks);
    } else {
      OtherStep(c, step);
    }
  }

  lemma NotLate(c: Connection, message: Message, result: WriteResult)
    requires c.state == Connected && Possible(c, |message|, result)
    ensures AfterSendInLoop(c, message, result).history.late == c.history.late
    ensures AfterSendInLoop(c, message, result).calls == c.calls
  {
  }

  lemma {:induction false} LoopSendsNeverOvertake(c: Connection, steps: seq<Step>)
    requires NoForeignSend(c) && forall step | step in steps :: step.Enter? ==> !step.call.SendPassed?
    ensures NeverOvertakes(c, steps)
    ensures NoForeignSend(Exec(c, steps)) && Exec(c, steps).history.late == c.history.late
    decreases |steps|
  {
    hide Next, Enabled, Waiting;
    if steps != [] && Enabled(c, steps[0]) {
      assert steps[0] in steps;
      LoopSendStep(c, steps[0]);
      LoopSendsNeverOvertake(Next(c, steps[0]), steps[1..]);
    }
  }

  /** With every send in the loop thread and nothing dropped, the stream is exactly the messages sent, in order. */
  lemma LoopStreamInOrder(config: Config, steps: seq<Step>)
    requires forall step | step in steps :: step.Enter? ==> !step.call.SendPassed?
    ensures var c := Reached(config, steps);
            c.history.dropped == [] ==> c.history.kernel + c.output == Flatten(c.history.accepted)
  {
    hide Exec, Flatten;
    LoopSendsNeverOvertake(Init(config), steps);
    StreamInOrder(config, steps);
    EmptyFlatten();
    var c := Reached(config, steps);
    assert c.history.kernel + c.output + [] == c.history.kernel + c.output;
  }

  /** A send in the loop thread that is not refused keeps the stream in order exactly when its bytes may change places
      with all bytes queued. */
  lemma OrderKeptExactly(c: Connection, message: Message, result: WriteResult)
    requires StreamOrdered(c) && c.state == Connected && Possible(c, |message|, result)
    requires !(WritesDirectly(c) && result.Broken?)
    ensures var w := Flatten(Waiting(c.tasks));
            StreamOrdered(AfterSend(c, message, result)) <==> message + w == w + message
  {
    hide Waiting, Flatten;
    SendTasks(Noted(c, message), message, result);
    FlattenAppend(c.history.accepted, message);
    SplitAcross(c.history.kernel, c.output, message, DirectCount(c, message, result));
    var sent, w := c.history.kernel + c.output, Flatten(Waiting(c.tasks));
    SameTail(sent, message + w, w + message);
    assert sent + message + w == sent + (message + w) && sent + w + message == sent + (w + message);
  }

  lemma SameTail(h: seq<Byte>, a: seq<Byte>, b: seq<Byte>)
    ensures h + a == h + b <==> a == b
  {
    if h + a == h + b {
      assert (h + a)[|h|..] == a && (h + b)[|h|..] == b;
    }
  }

  /** A send in the loop thread overtakes one queued earlier from another thread. */
  lemma SendOvertakes()
    ensures var steps := [Establish, Enter(0, SendPassed([1])), Proceed(0), Send([2], Wrote(1)), RunTask(Wrote(1))];
            var h := Reached(Config(1, false, false), steps).history;
            h.accepted == [[1], [2]] && h.kernel == [2, 1]
  {
    var steps := [Establish, Enter(0, SendPassed([1])), Proceed(0), Send([2], Wrote(1)), RunTask(Wrote(1))];
    var c0 := Init(Config(1, false, false));
    var c1 := Next(c0, steps[0]);
    var c2 := Next(c1, steps[1]);
    var c3 := Next(c2, steps[2]);
    assert c3.tasks == [SendTask([1])] && c3.history.accepted == [[1]] && c3.history.kernel == [];
    assert c3.state == Connected && !c3.writing && c3.output == [] && c3.history.shutdowns == 0;
    hide Exec;
    Unfold(c0, steps);
    Unfold(c1, steps[1..]);
    Unfold(c2, steps[2..]);
    TakenAhead(c3, steps[3..]);
  }

  lemma TakenAhead(c: Connection, steps: seq<Step>)
    requires c.state == Connected && !c.writing && c.output == [] && c.history.shutdowns == 0
    requires c.tasks == [SendTask([1])] && c.history.accepted == [[1]] && c.history.kernel == []
    requires steps == [Send([2], Wrote(1)), RunTask(Wrote(1))] && !c.config.notifyComplete
    ensures Exec(c, steps).history.accepted == [[1], [2]] && Exec(c, steps).history.kernel == [2, 1]
  {
    var c' := Next(c, steps[0]);
    assert c'.history.kernel == [2] && c'.tasks == [SendTask([1])] && c'.history.accepted == [[1], [2]];
    var c'' := Next(c', steps[1]);
    assert c''.history.kernel == [2, 1];
    hide Next, Enabled;
    Unfold(c, steps);
    Unfold(c', steps[1..]);
  }

  // ---- state

  function Rank(s: State): nat {
    match s
    case Connecting => 0
    case Connected => 1
    case Disconnecting => 2
    case Disconnected => 3
  }

  /** The call has passed its check and is about to set the state. */
  predicate Poised(call: Call) {
    call.ShutPassed? || call.ClosePassed? || call.DelayPassed?
  }

  ghost predicate NonePoised(c: Connection) {
    forall t | t in c.calls :: !Poised(c.calls[t])
  }

  /** No other thread starts a call that sets the state. */
  ghost predicate NoForeignClose(steps: seq<Step>) {
    forall step | step in steps && step.Enter? :: !Poised(step.call)
  }

  lemma StepForward(c: Connection, step: Step)
    requires Inv(c) && Enabled(c, step)
    ensures Rank(c.state) <= Rank(Next(c, step).state)
            <==> !(step.Proceed? && Poised(c.calls[step.thread]) && c.state == Disconnected)
    ensures NonePoised(c) && NoForeignClose([step]) ==> NonePoised(Next(c, step))
  {
    hide BytesKept, MessagesKept, AfterSendInLoop;
    assert step in [step];
    if step.Send? && c.state == Connected {
      SameState(Noted(c, step.message), step.message, step.result);
    } else if step.RunTask? && c.tasks[0].SendTask? {
      SameState(c.(tasks := c.tasks[1..]), c.tasks[0].message, step.result);
    }
  }

  lemma SameState(c: Connection, message: Message, result: WriteResult)
    requires Possible(c, |message|, result)
    ensures var c' := AfterSendInLoop(c, message, result);
            c'.state == c.state && c'.calls == c.calls && c'.closed == c.closed
            && c'.history.shutdowns == c.history.shutdowns
  {
  }

  lemma QuietForward(c: Connection, step: Step)
    requires Inv(c) && NonePoised(c) && Enabled(c, step) && NoForeignClose([step])
    ensures Rank(c.state) <= Rank(Next(c, step).state) && NonePoised(Next(c, step))
  {
    hide Inv, Next, Rank, Poised;
    StepForward(c, step);
  }

  lemma {:induction false} ForwardExec(c: Connection, steps: seq<Step>)
    requires Inv(c) && NonePoised(c) && NoForeignClose(steps)
    ensures Rank(c.state) <= Rank(Exec(c, steps).state) && NonePoised(Exec(c, steps))
    decreases |steps|
  {
    hide Inv, Next, Enabled, Rank, Poised;
    if steps != [] && Enabled(c, steps[0]) {
      assert steps[0] in steps;
      assert NoForeignClose([steps[0]]) && NoForeignClose(steps[1..]);
      StepInv(c, steps[0]);
      QuietForward(c, steps[0]);
      ForwardExec(Next(c, steps[0]), steps[1..]);
    }
  }

  /** In no continuation without such calls does the state ever move back. */
  ghost predicate NeverMovesBack(c: Connection) {
    forall first, rest | NoForeignClose(first) && NoForeignClose(rest) ::
      Rank(Exec(c, first).state) <= Rank(Exec(Exec(c, first), rest).state)
  }

  /** A thread poised to set the state moves it back when the connection is closed before it does. */
  lemma PoisedMovesBack(c: Connection, t: Tid)
    requires Inv(c) && t in c.calls && Poised(c.calls[t])
    ensures !NeverMovesBack(c)
  {
    hide BytesKept, MessagesKept, ShutRight, NeverMovesBack;
    var rest := [Proceed(t)];
    var first: seq<Step> := if c.state == Disconnected then [] else [PeerClosed];
    var c' := if c.state == Disconnected then c else AfterClose(c);
    assert Exec(c, []) == c && Exec(AfterProceed(c', t), []) == AfterProceed(c', t);
    Prefixed(c', Proceed(t), []);
    assert [Proceed(t)] + [] == rest;
    if c.state != Disconnected {
      Prefixed(c, PeerClosed, []);
      assert [PeerClosed] + [] == first && Exec(c', []) == c';
    }
    assert Exec(c, first) == c' && Exec(c', rest) == AfterProceed(c', t);
    assert NoForeignClose(first) && NoForeignClose(rest);
    WentBack(c, first, rest);
  }

  lemma WentBack(c: Connection, first: seq<Step>, rest: seq<Step>)
    requires NoForeignClose(first) && NoForeignClose(rest)
    requires Rank(Exec(c, first).state) > Rank(Exec(Exec(c, first), rest).state)
    ensures !NeverMovesBack(c)
  {
    hide Exec, Rank, NoForeignClose;
  }

  /**
   * From any state reached, and as long as no other thread starts to shut down or close, the state never moves back
   * along connecting, connected, disconnecting, disconnected exactly when no thread is between its check and its set.
   */
  lemma StateForwardExactly(config: Config, steps: seq<Step>)
    ensures NeverMovesBack(Reached(config, steps)) <==> NonePoised(Reached(config, steps))
  {
    hide Exec, Inv, NeverMovesBack, NonePoised;
    ReachedInv(config, steps);
    var c := Reached(config, steps);
    if NonePoised(c) {
      ForwardFrom(c);
    } else {
      var t := SomePoised(c);
      PoisedMovesBack(c, t);
    }
  }

  lemma SomePoised(c: Connection) returns (t: Tid)
    requires !NonePoised(c)
    ensures t in c.calls && Poised(c.calls[t])
  {
    t :| t in c.calls && Poised(c.calls[t]);
  }

  lemma ForwardFrom(c: Connection)
    requires Inv(c) && NonePoised(c)
    ensures NeverMovesBack(c)
  {
    hide Exec, Inv, NonePoised, NoForeignClose, Rank;
    forall first, rest | NoForeignClose(first) && NoForeignClose(rest)
      ensures Rank(Exec(c, first).state) <= Rank(Exec(Exec(c, first), rest).state)
    {
      ForwardExec(c, first);
      ExecInv(c, first);
      ForwardExec(Exec(c, first), rest);
    }
  }

  /** With shutdown and the force-closes called in the loop thread, the state never moves back. */
  lemma StateForward(config: Config, first: seq<Step>, rest: seq<Step>)
    requires NoForeignClose(first) && NoForeignClose(rest)
    ensures Rank(Reached(config, first).state) <= Rank(Exec(Reached(config, first), rest).state)
  {
    hide Exec, Inv, NoForeignClose, Rank;
    InitInv(config);
    ForwardExec(Init(config), first);
    ReachedInv(config, first);
    ForwardExec(Reached(config, first), rest);
  }

  /** The peer closes between the check and the set of a shutdown from another thread. */
  lemma StateMovesBack()
    ensures var closed := [Establish, Enter(0, ShutPassed), PeerClosed];
            var config := Config(1, false, false);
            Reached(config, closed).state == Disconnected && Reached(config, closed + [Proceed(0)]).state == Disconnecting
  {
    hide Exec;
    var c0 := Init(Config(1, false, false));
    var c1 := Next(c0, Establish);
    var c2 := Next(c1, Enter(0, ShutPassed));
    var c3 := Next(c2, PeerClosed);
    ThreeSteps(c0, Establish, Enter(0, ShutPassed), PeerClosed, []);
    ThreeSteps(c0, Establish, Enter(0, ShutPassed), PeerClosed, [Proceed(0)]);
    var closed := [Establish, Enter(0, ShutPassed), PeerClosed];
    assert closed + [] == closed;
    NoStep(c3);
    Prefixed(c3, Proceed(0), []);
    assert [Proceed(0)] + [] == [Proceed(0)];
    NoStep(Next(c3, Proceed(0)));
  }

  lemma NoStep(c: Connection)
    ensures Exec(c, []) == c
  {
  }

  lemma ThreeSteps(c: Connection, a: Step, b: Step, d: Step, rest: seq<Step>)
    requires Enabled(c, a) && Enabled(Next(c, a), b) && Enabled(Next(Next(c, a), b), d)
    ensures Exec(c, [a, b, d] + rest) == Exec(Next(Next(Next(c, a), b), d), rest)
  {
    hide Exec, Next, Enabled;
    assert [a, b, d] + rest == [a] + ([b] + ([d] + rest));
    Prefixed(c, a, [b] + ([d] + rest));
    Prefixed(Next(c, a), b, [d] + rest);
    Prefixed(Next(Next(c, a), b), d, rest);
  }
}
