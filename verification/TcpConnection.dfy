/** A connection (src/muduo/net/TcpConnection.cc), its callbacks and kernel answers given as parameters. */
module TcpConnection {
  import opened Bytes
  import opened ConnectionRuns
  import opened ConnectionTheorems
  import opened ConnectionLedger

  /** What is queued when the kernel took all of a message at once, or when `rest` bytes have to be kept. */
  function CompleteTasks(c: Connection): seq<Task> {
    if c.config.notifyComplete then c.tasks + [WriteCompleteTask] else c.tasks
  }

  function KeepTasks(c: Connection, rest: nat): seq<Task> {
    if |c.output| < c.config.highWaterMark <= |c.output| + rest && c.config.notifyHighWater then
      c.tasks + [HighWaterTask(|c.output| + rest)]
    else c.tasks
  }

  /** What sendInLoop does with a message it takes charge of, by how much of it the kernel leaves. */
  lemma TakenInCharge(c: Connection, message: Message, result: WriteResult, n: nat, rest: nat)
    requires Possible(c, |message|, result) && c.state != Disconnected && !(WritesDirectly(c) && result.Broken?)
    requires n == DirectCount(c, message, result) && rest == |message| - n
    ensures var h := c.history.(kernel := c.history.kernel + message[..n], handled := c.history.handled + [message]);
            AfterSendInLoop(c, message, result)
            == if rest > 0 then
                 c.(output := c.output + message[n..], writing := true, tasks := KeepTasks(c, rest), history := h)
               else c.(tasks := (if WritesDirectly(c) && result.Wrote? then CompleteTasks(c) else c.tasks), history := h)
  {
    assert rest == 0 <==> message[n..] == [];
    assert c.tasks + [] == c.tasks && c.output + [] == c.output;
  }

  lemma Unhandled(c: Connection, message: Message, result: WriteResult)
    requires Possible(c, |message|, result)
    ensures c.state == Disconnected ==>
              AfterSendInLoop(c, message, result) == c.(history := c.history.(late := c.history.late + [message]))
    ensures c.state != Disconnected && WritesDirectly(c) && result.Broken? ==>
              AfterSendInLoop(c, message, result) == c.(history := c.history.(dropped := c.history.dropped + [message]))
  {
  }

  /**
   * sendInLoop queues the high water callback exactly when the call takes the buffer across the mark,
   * and the write complete callback exactly when the kernel took the whole message at once.
   */
  lemma NotifiesExactly(c: Connection, message: Message, result: WriteResult)
    requires Possible(c, |message|, result) && c.state != Disconnected && (c.writing ==> c.output != [])
    ensures var c' := AfterSendInLoop(c, message, result);
            var crossed := |c.output| < c.config.highWaterMark <= |c'.output|;
            var taken := c.output == [] && result.Wrote? && result.n == |message|;
            c'.tasks == c.tasks + (if crossed && c.config.notifyHighWater then [HighWaterTask(|c'.output|)] else [])
                                + (if taken && c.config.notifyComplete then [WriteCompleteTask] else [])
  {
    if WritesDirectly(c) && result.Broken? {
      assert c.tasks + [] + [] == c.tasks;
    } else {
      hide AfterSendInLoop;
      var n := DirectCount(c, message, result);
      TakenInCharge(c, message, result, n, |message| - n);
    }
  }

  class TcpConnection {
    const config: Config
    var state: State
    var closed: bool
    var writing: bool
    var outputBuffer: seq<Byte>
    var tasks: seq<Task>
    var calls: map<Tid, Call>
    ghost var history: History

    ghost function View(): Connection
      reads this
    {
      Connection(config, state, closed, writing, outputBuffer, tasks, calls, history)
    }

    ghost predicate Valid()
      reads this
    {
      Inv(View())
    }

    constructor (config: Config)
      ensures Valid() && View() == Init(config)
    {
      this.config := config;
      state, closed, writing, outputBuffer, tasks, calls := Connecting, false, false, [], [], map[];
      history := History([], [], [], [], [], 0);
      new;
      InitInv(config);
      hide Inv;
    }

    method ConnectEstablished()
      requires Valid() && state == Connecting
      modifies this`state
      ensures Valid() && View() == Next(old(View()), Establish)
    {
      hide Inv;
      StepInv(View(), Establish);
      state := Connected;
    }

    /** The first part of sendInLoop: nothing is waiting, so the message is offered to the kernel. */
    method TryWrite(data: Message, result: WriteResult) returns (nwrote: nat, faultError: bool)
      requires Possible(View(), |data|, result)
      modifies this`tasks
      ensures nwrote == DirectCount(old(View()), data, result) <= |data|
      ensures faultError <==> WritesDirectly(View()) && result.Broken?
      ensures tasks == if WritesDirectly(View()) && result.Wrote? && nwrote == |data| then CompleteTasks(old(View()))
                       else old(tasks)
    {
      nwrote, faultError := 0, false;
      if !writing && outputBuffer == [] {
        if result.Wrote? {
          nwrote := result.n;
          if nwrote == |data| && config.notifyComplete {
            tasks := tasks + [WriteCompleteTask];
          }
        } else if result.Broken? {
          faultError := true;
        }
      }
    }

    /** The last part of sendInLoop: what the kernel left is kept, and written when the socket takes more. */
    method KeepRest(data: Message, nwrote: nat)
      requires nwrote < |data|
      modifies this`outputBuffer, this`writing, this`tasks
      ensures outputBuffer == old(outputBuffer) + data[nwrote..] && writing
      ensures tasks == KeepTasks(old(View()), |data| - nwrote)
    {
      var oldLen, remaining := |outputBuffer|, |data| - nwrote;
      if oldLen + remaining >= config.highWaterMark && oldLen < config.highWaterMark && config.notifyHighWater {
        tasks := tasks + [HighWaterTask(oldLen + remaining)];
      }
      outputBuffer := outputBuffer + data[nwrote..];
      if !writing {
        writing := true;
      }
    }

    method SendInLoop(data: Message, result: WriteResult)
      requires Possible(View(), |data|, result)
      modifies this
      ensures View() == AfterSendInLoop(old(View()), data, result)
    {
      hide AfterSendInLoop, CompleteTasks, KeepTasks, DirectCount, Possible;
      Unhandled(View(), data, result);
      if state == Disconnected {
        history := history.(late := history.late + [data]);
        return;
      }
      var nwrote, faultError := TryWrite(data, result);
      if faultError {
        history := history.(dropped := history.dropped + [data]);
      } else {
        TakenInCharge(old(View()), data, result, nwrote, |data| - nwrote);
        if nwrote < |data| {
          KeepRest(data, nwrote);
        }
        history := history.(kernel := history.kernel + data[..nwrote], handled := history.handled + [data]);
      }
    }

    /** Called in the loop thread. */
    method Send(message: Message, result: WriteResult)
      requires Valid() && Possible(View(), |message|, result)
      modifies this
      ensures Valid() && View() == Next(old(View()), ConnectionRuns.Send(message, result))
      ensures old(state) == Connected && !(old(!writing && outputBuffer == []) && result.Broken?) ==>
                history.kernel + outputBuffer == old(history.kernel + outputBuffer) + message
    {
      hide Inv, AfterSendInLoop;
      if state == Connected {
        SendTakes(View(), message, result);
      }
      StepInv(View(), ConnectionRuns.Send(message, result));
      if state == Connected {
        history := history.(accepted := history.accepted + [message]);
        SendInLoop(message, result);
      }
    }

    method ShutdownInLoop()
      modifies this`history
      ensures View() == AfterShutdownInLoop(old(View()))
    {
      if !writing {
        history := history.(shutdowns := history.shutdowns + 1);
      }
    }

    /** Called in the loop thread. */
    method Shutdown()
      requires Valid()
      modifies this
      ensures Valid() && View() == Next(old(View()), ConnectionRuns.Shutdown)
    {
      hide Inv;
      StepInv(View(), ConnectionRuns.Shutdown);
      if state == Connected {
        state := Disconnecting;
        ShutdownInLoop();
      }
    }

    /** Called in the loop thread. */
    method ForceClose()
      requires Valid()
      modifies this
      ensures Valid() && View() == Next(old(View()), ConnectionRuns.ForceClose)
    {
      hide Inv;
      StepInv(View(), ConnectionRuns.ForceClose);
      if state == Connected || state == Disconnecting {
        state := Disconnecting;
        tasks := tasks + [ForceCloseTask];
      }
    }

    /** Another thread calls send(), shutdown(), forceClose() or forceCloseWithDelay(): the check of the state. */
    method EnterCall(t: Tid, call: Call)
      requires Valid() && t !in calls && Entering(call)
      modifies this`calls
      ensures Valid() && View() == Next(old(View()), Enter(t, call))
    {
      hide Inv;
      StepInv(View(), Enter(t, call));
      var passes := if call.SendPassed? || call.ShutPassed? then state == Connected
                    else state == Connected || state == Disconnecting;
      if passes {
        calls := calls[t := call];
      }
    }

    /** The next step of such a call: the set of the state, or the push of the functor, after which it returns. */
    method ProceedCall(t: Tid)
      requires Valid() && t in calls
      modifies this
      ensures Valid() && View() == Next(old(View()), Proceed(t))
    {
      hide Inv;
      StepInv(View(), Proceed(t));
      var call := calls[t];
      match call {
        case SendPassed(message) =>
          calls := calls - {t};
          tasks := tasks + [SendTask(message)];
          history := history.(accepted := history.accepted + [message]);
        case ShutPassed =>
          state := Disconnecting;
          calls := calls[t := ShutSet];
        case ShutSet =>
          calls := calls - {t};
          tasks := tasks + [ShutdownTask];
        case ClosePassed =>
          state := Disconnecting;
          calls := calls[t := CloseSet];
        case CloseSet =>
          calls := calls - {t};
          tasks := tasks + [ForceCloseTask];
        case DelayPassed =>
          calls := calls - {t};
          state := Disconnecting;
      }
    }

    method HandleClose()
      requires Live(View())
      modifies this`state, this`closed, this`writing
      ensures View() == AfterClose(old(View()))
    {
      state := Disconnected;
      closed := true;
      writing := false;
    }

    method HandleWrite(result: WriteResult)
      requires Valid() && Possible(View(), |outputBuffer|, result)
      modifies this
      ensures Valid() && View() == Next(old(View()), Writable(result))
    {
      hide Inv;
      StepInv(View(), Writable(result));
      if writing {
        if result.Wrote? && result.n > 0 {
          history := history.(kernel := history.kernel + outputBuffer[..result.n]);
          outputBuffer := outputBuffer[result.n..];
          if outputBuffer == [] {
            writing := false;
            assert tasks + [] == tasks;
            if config.notifyComplete {
              tasks := tasks + [WriteCompleteTask];
            }
            if state == Disconnecting {
              ShutdownInLoop();
            }
          }
        }
      }
    }

    /** The loop runs the first functor queued for this connection. */
    method RunQueued(result: WriteResult)
      requires Valid() && Enabled(View(), RunTask(result))
      modifies this
      ensures Valid() && View() == Next(old(View()), RunTask(result))
    {
      hide Inv, AfterSendInLoop;
      StepInv(View(), RunTask(result));
      var task := tasks[0];
      tasks := tasks[1..];
      match task {
        case SendTask(message) => SendInLoop(message, result);
        case ShutdownTask => ShutdownInLoop();
        case ForceCloseTask =>
          if state == Connected || state == Disconnecting {
            HandleClose();
          }
        case _ =>
      }
    }
  }
}
