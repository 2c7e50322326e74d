/**
 * The output path of a connection as a state machine (src/muduo/net/TcpConnection.cc). Calls in the loop thread and
 * events of the loop are single steps. A call from another thread reads the state in one step, sets it in another if
 * it does, and pushes its functor in a last one. The kernel may take any part of a write or refuse it.
 */
module ConnectionRuns {
  import opened Bytes

  type Message = seq<Byte>

  type Tid = nat

  datatype State = Connecting | Connected | Disconnecting | Disconnected

  /** What write(2) answers: a short or full count, EWOULDBLOCK, EPIPE or ECONNRESET, or another error. */
  datatype WriteResult = Wrote(n: nat) | WouldBlock | Broken | OtherError

  /** Functors queued to the loop. */
  datatype Task =
    | SendTask(message: Message)
    | ShutdownTask
    | ForceCloseTask
    | WriteCompleteTask
    | HighWaterTask(size: nat)

  /** How far a call from another thread has got, once its check of the state has passed. */
  datatype Call =
    | SendPassed(message: Message)
    | ShutPassed
    | ShutSet                 // the state is set, the functor not pushed yet
    | ClosePassed
    | CloseSet
    | DelayPassed             // forceCloseWithDelay

  datatype Config = Config(highWaterMark: nat, notifyComplete: bool, notifyHighWater: bool)

  datatype Connection = Connection(
    config: Config,
    state: State,
    closed: bool,             // handleClose or connectDestroyed has taken it down
    writing: bool,            // the channel waits for writability
    output: seq<Byte>,        // outputBuffer_
    tasks: seq<Task>,         // queued to the loop, not run yet
    calls: map<Tid, Call>,    // other threads inside a call
    history: History)

  datatype History = History(
    kernel: seq<Byte>,        // bytes the kernel has taken
    handled: seq<Message>,    // messages sendInLoop took charge of
    dropped: seq<Message>,    // messages sendInLoop dropped on a broken pipe
    late: seq<Message>,       // messages that reached sendInLoop after the connection was down
    accepted: seq<Message>,   // messages that send() handed to sendInLoop or to the queue
    shutdowns: nat)           // calls of shutdownWrite

  datatype Step =
    | Establish
    | Send(message: Message, result: WriteResult)
    | Shutdown
    | ForceClose
    | ForceCloseWithDelay
    | Enter(thread: Tid, call: Call)    // another thread calls, and reads the state
    | Proceed(thread: Tid)              // it takes the next step of its call
    | RunTask(result: WriteResult)
    | Writable(result: WriteResult)
    | PeerClosed
    | Destroy

  function Init(config: Config): Connection {
    Connection(config, Connecting, false, false, [], [], map[], History([], [], [], [], [], 0))
  }

  /** The answers the kernel may give: never more than offered, and nothing once the half is shut. */
  predicate Possible(c: Connection, len: nat, result: WriteResult) {
    result.Wrote? ==> result.n <= (if c.history.shutdowns > 0 then 0 else len)
  }

  function Queued(c: Connection, task: Task): Connection {
    c.(tasks := c.tasks + [task])
  }

  predicate WritesDirectly(c: Connection) {
    !c.writing && c.output == []
  }

  /** Bytes of `message` the kernel takes at once. */
  function DirectCount(c: Connection, message: Message, result: WriteResult): nat
    requires Possible(c, |message|, result)
  {
    if WritesDirectly(c) && result.Wrote? then result.n else 0
  }

  function AfterSendInLoop(c: Connection, message: Message, result: WriteResult): Connection
    requires Possible(c, |message|, result)
  {
    if c.state == Disconnected then
      c.(history := c.history.(late := c.history.late + [message]))
    else if WritesDirectly(c) && result.Broken? then
      c.(history := c.history.(dropped := c.history.dropped + [message]))
    else
      var n := DirectCount(c, message, result);
      var rest := message[n..];
      var complete := WritesDirectly(c) && result.Wrote? && rest == [] && c.config.notifyComplete;
      var high := rest != [] && |c.output| < c.config.highWaterMark <= |c.output| + |rest| && c.config.notifyHighWater;
      c.(output := c.output + rest,
         writing := c.writing || rest != [],
         tasks := c.tasks + (if complete then [WriteCompleteTask]
                             else if high then [HighWaterTask(|c.output| + |rest|)] else []),
         history := c.history.(kernel := c.history.kernel + message[..n], handled := c.history.handled + [message]))
  }

  function Noted(c: Connection, message: Message): Connection {
    c.(history := c.history.(accepted := c.history.accepted + [message]))
  }

  function AfterSend(c: Connection, message: Message, result: WriteResult): Connection
    requires Possible(c, |message|, result)
  {
    if c.state == Connected then AfterSendInLoop(Noted(c, message), message, result) else c
  }

  function AfterShutdownInLoop(c: Connection): Connection {
    if !c.writing then c.(history := c.history.(shutdowns := c.history.shutdowns + 1)) else c
  }

  function AfterShutdown(c: Connection): Connection {
    if c.state == Connected then AfterShutdownInLoop(c.(state := Disconnecting)) else c
  }

  predicate Live(c: Connection) {
    c.state == Connected || c.state == Disconnecting
  }

  function AfterForceClose(c: Connection): Connection {
    if Live(c) then Queued(c.(state := Disconnecting), ForceCloseTask) else c
  }

  function AfterForceCloseWithDelay(c: Connection): Connection {
    if Live(c) then c.(state := Disconnecting) else c
  }

  function AfterClose(c: Connection): Connection {
    c.(state := Disconnected, closed := true, writing := false)
  }

  /** A call in its first stage. */
  predicate Entering(call: Call) {
    !call.ShutSet? && !call.CloseSet?
  }

  /** The check at the start of the call. */
  predicate Passes(c: Connection, call: Call) {
    if call.SendPassed? || call.ShutPassed? then c.state == Connected else Live(c)
  }

  function AfterEnter(c: Connection, t: Tid, call: Call): Connection {
    if Passes(c, call) then c.(calls := c.calls[t := call]) else c
  }

  function AfterProceed(c: Connection, t: Tid): Connection
    requires t in c.calls
  {
    var returned := c.(calls := c.calls - {t});
    match c.calls[t]
    case SendPassed(message) => Queued(Noted(returned, message), SendTask(message))
    case ShutPassed => c.(state := Disconnecting, calls := c.calls[t := ShutSet])
    case ShutSet => Queued(returned, ShutdownTask)
    case ClosePassed => c.(state := Disconnecting, calls := c.calls[t := CloseSet])
    case CloseSet => Queued(returned, ForceCloseTask)
    case DelayPassed => returned.(state := Disconnecting)
  }

  function AfterWritable(c: Connection, result: WriteResult): Connection
    requires Possible(c, |c.output|, result)
  {
    if !c.writing || !result.Wrote? || result.n == 0 then c
    else
      var rest := c.(output := c.output[result.n..],
                     history := c.history.(kernel := c.history.kernel + c.output[..result.n]));
      if rest.output != [] then rest
      else
        var drained := rest.(writing := false,
                             tasks := c.tasks + (if c.config.notifyComplete then [WriteCompleteTask] else []));
        if c.state == Disconnecting then AfterShutdownInLoop(drained) else drained
  }

  function AfterTask(c: Connection, result: WriteResult): Connection
    requires c.tasks != [] && (c.tasks[0].SendTask? ==> Possible(c, |c.tasks[0].message|, result))
  {
    var rest := c.(tasks := c.tasks[1..]);
    match c.tasks[0]
    case SendTask(message) => AfterSendInLoop(rest, message, result)
    case ShutdownTask => AfterShutdownInLoop(rest)
    case ForceCloseTask => if Live(c) then AfterClose(rest) else rest
    case _ => rest
  }

  function AfterDestroy(c: Connection): Connection {
    if c.state == Connected then AfterClose(c) else c
  }

  /** connectEstablished is called once; a peer can only close what is open; a thread is in one call at a time. */
  predicate Enabled(c: Connection, step: Step) {
    match step
    case Establish => c.state == Connecting
    case Send(message, result) => Possible(c, |message|, result)
    case Enter(t, call) => t !in c.calls && Entering(call)
    case Proceed(t) => t in c.calls
    case RunTask(result) => c.tasks != [] && (c.tasks[0].SendTask? ==> Possible(c, |c.tasks[0].message|, result))
    case Writable(result) => Possible(c, |c.output|, result)
    case PeerClosed => Live(c)
    case _ => true
  }

  function Next(c: Connection, step: Step): Connection
    requires Enabled(c, step)
  {
    match step
    case Establish => c.(state := Connected)
    case Send(message, result) => AfterSend(c, message, result)
    case Shutdown => AfterShutdown(c)
    case ForceClose => AfterForceClose(c)
    case ForceCloseWithDelay => AfterForceCloseWithDelay(c)
    case Enter(t, call) => AfterEnter(c, t, call)
    case Proceed(t) => AfterProceed(c, t)
    case RunTask(result) => AfterTask(c, result)
    case Writable(result) => AfterWritable(c, result)
    case PeerClosed => AfterClose(c)
    case Destroy => AfterDestroy(c)
  }

  /** The connection after a run; a step that cannot happen ends the run. */
  function Exec(c: Connection, steps: seq<Step>): Connection
    decreases |steps|
  {
    if steps == [] || !Enabled(c, steps[0]) then c else Exec(Next(c, steps[0]), steps[1..])
  }

  lemma Unfold(c: Connection, steps: seq<Step>)
    requires steps != [] && Enabled(c, steps[0])
    ensures Exec(c, steps) == Exec(Next(c, steps[0]), steps[1..])
  {
  }

  lemma Prefixed(c: Connection, step: Step, rest: seq<Step>)
    requires Enabled(c, step)
    ensures Exec(c, [step] + rest) == Exec(Next(c, step), rest)
  {
    assert ([step] + rest)[1..] == rest;
  }
}
