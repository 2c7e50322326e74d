/**
 * The double-buffered logger (src/muduo/base/AsyncLogging.cc) as interleaved atomic steps: producers
 * append under the mutex; the backend swaps the buffers out under the mutex, waiting first when none is
 * full, and then writes, trims and recycles them outside it. Any wakeup ends the timed wait.
 */
module LoggerRuns {
  import opened Wrappers
  import opened Bytes

  const LARGE_BUFFER := 4_000_000
  const MAX_BATCH := 25

  type Buffer = seq<Byte>

  datatype Phase =
    | Idle                  // top of the backend loop
    | Waiting               // in the timed wait, with the mutex released
    | Swapped               // batch taken, mutex released
    | Writing(n: nat)       // first `n` buffers of the batch written

  /** What became of a stretch of the log, and the notices written in between. */
  datatype Chunk = Kept(bytes: seq<Byte>) | Lost(bytes: seq<Byte>) | Notice(text: seq<Byte>)

  datatype Logger = Logger(
    current: Buffer,
    next: Option<Buffer>,
    buffers: seq<Buffer>,
    phase: Phase,
    newBuffer1: Option<Buffer>,
    newBuffer2: Option<Buffer>,
    toWrite: seq<Buffer>,
    trimmed: seq<Byte>,          // cut from the batch being written
    appended: seq<seq<Byte>>,    // every line handed to append, in order
    log: seq<Chunk>)             // what left the batch, in stream order

  datatype Step = Append(line: seq<Byte>) | Check | Wake | Trim(notice: seq<Byte>) | WriteOne | Recycle

  function Init(): Logger {
    Logger([], Some([]), [], Idle, Some([]), Some([]), [], [], [], [])
  }

  /** FixedBuffer::append: all of the line or nothing. */
  function Added(b: Buffer, line: seq<Byte>): Buffer {
    if LARGE_BUFFER - |b| > |line| then b + line else b
  }

  function AfterAppend(l: Logger, line: seq<Byte>): Logger {
    var noted := l.(appended := l.appended + [line]);
    if LARGE_BUFFER - |l.current| > |line| then
      noted.(current := Added(l.current, line))
    else
      var spare := if l.next.Some? then l.next.value else [];
      noted.(buffers := l.buffers + [l.current], next := None, current := Added(spare, line))
  }

  function AfterSwap(l: Logger): Logger
    requires l.newBuffer1.Some?
  {
    l.(phase := Swapped,
       toWrite := l.buffers + [l.current],
       buffers := [],
       current := l.newBuffer1.value,
       newBuffer1 := None,
       next := if l.next.None? then l.newBuffer2 else l.next,
       newBuffer2 := if l.next.None? then None else l.newBuffer2)
  }

  /** A batch of more than 25 buffers is cut to its first two, and the file gets a notice. */
  function AfterTrim(l: Logger, notice: seq<Byte>): Logger {
    if |l.toWrite| > MAX_BATCH
    then l.(phase := Writing(0), toWrite := l.toWrite[..2], trimmed := Flatten(l.toWrite[2..]),
            log := l.log + [Notice(notice)])
    else l.(phase := Writing(0), trimmed := [])
  }

  function AfterWrite(l: Logger): Logger
    requires l.phase.Writing? && l.phase.n < |l.toWrite|
  {
    l.(phase := Writing(l.phase.n + 1), log := l.log + [Kept(l.toWrite[l.phase.n])])
  }

  /** The backend's asserts: there is a buffer to recycle for each spare that was used. */
  predicate CanRecycle(l: Logger) {
    var left := if |l.toWrite| > 2 then 2 else |l.toWrite|;
    && (l.newBuffer1.None? ==> left >= 1)
    && (l.newBuffer2.None? ==> left >= (if l.newBuffer1.None? then 2 else 1))
  }

  function AfterRecycle(l: Logger): Logger
    requires CanRecycle(l)
  {
    l.(phase := Idle,
       newBuffer1 := if l.newBuffer1.None? then Some([]) else l.newBuffer1,
       newBuffer2 := if l.newBuffer2.None? then Some([]) else l.newBuffer2,
       toWrite := [],
       trimmed := [],
       log := if l.trimmed == [] then l.log else l.log + [Lost(l.trimmed)])
  }

  predicate Enabled(l: Logger, step: Step) {
    match step
    case Append(_) => true
    case Check => l.phase == Idle
    case Wake => l.phase == Waiting
    case Trim(_) => l.phase == Swapped
    case WriteOne => l.phase.Writing? && l.phase.n < |l.toWrite|
    case Recycle => l.phase == Writing(|l.toWrite|)
  }

  /** The assertions the backend makes on its way hold. */
  predicate AssertsHold(l: Logger, step: Step) {
    match step
    case Check => l.newBuffer1 == Some([]) && l.newBuffer2 == Some([]) && l.toWrite == []
    case Wake => l.newBuffer1 == Some([]) && l.newBuffer2 == Some([]) && l.toWrite == []
    case Trim(_) => l.toWrite != []
    case Recycle => CanRecycle(l)
    case _ => true
  }

  function Next(l: Logger, step: Step): Logger
    requires Enabled(l, step) && AssertsHold(l, step)
  {
    match step
    case Append(line) => AfterAppend(l, line)
    case Check => if l.buffers == [] then l.(phase := Waiting) else AfterSwap(l)
    case Wake => AfterSwap(l)
    case Trim(notice) => AfterTrim(l, notice)
    case WriteOne => AfterWrite(l)
    case Recycle => AfterRecycle(l)
  }

  function Exec(l: Logger, steps: seq<Step>): Logger
    decreases |steps|
  {
    if steps == [] || !Enabled(l, steps[0]) || !AssertsHold(l, steps[0]) then l
    else Exec(Next(l, steps[0]), steps[1..])
  }
}

module LoggerTheorems {
  import opened Wrappers
  import opened Bytes
  import opened LoggerRuns

  /** The spare buffers: both there and empty at the top of the loop, and enough to refill them after. */
  predicate Spares(l: Logger) {
    && (l.next == None || l.next == Some([]))
    && (l.next == None ==> l.buffers != [])
    && (l.phase == Idle || l.phase == Waiting ==>
          l.newBuffer1 == Some([]) && l.newBuffer2 == Some([]) && l.toWrite == [] && l.trimmed == [])
    && (l.phase == Swapped || l.phase.Writing? ==>
          && l.newBuffer1 == None
          && (l.newBuffer2 == None || l.newBuffer2 == Some([]))
          && |l.toWrite| >= (if l.newBuffer2 == None then 2 else 1))
    && (l.phase == Swapped ==> l.trimmed == [])
    && (l.phase.Writing? ==> l.phase.n <= |l.toWrite|)
  }

  /** Lines too long for an empty buffer vanish; the others make up the stream. */
  function Accepted(lines: seq<seq<Byte>>): seq<Byte> {
    if lines == [] then []
    else Accepted(lines[..|lines| - 1])
         + (if |lines[|lines| - 1]| < LARGE_BUFFER then lines[|lines| - 1] else [])
  }

  /** The bytes of the lines in a chunk. */
  function LineBytes(c: Chunk): seq<Byte> {
    if c.Notice? then [] else c.bytes
  }

  function LogBytes(log: seq<Chunk>): seq<Byte> {
    if log == [] then [] else LogBytes(log[..|log| - 1]) + LineBytes(log[|log| - 1])
  }

  /** The buffers of the batch not yet written. */
  function Unwritten(l: Logger): seq<Buffer> {
    if l.phase.Writing? && l.phase.n <= |l.toWrite| then l.toWrite[l.phase.n..] else l.toWrite
  }

  predicate Conserved(l: Logger) {
    LogBytes(l.log) + Flatten(Unwritten(l)) + l.trimmed + Flatten(l.buffers) + l.current == Accepted(l.appended)
  }

  predicate Inv(l: Logger) {
    Spares(l) && Conserved(l)
  }

  lemma StepAsserts(l: Logger, step: Step)
    requires Spares(l) && Enabled(l, step)
    ensures AssertsHold(l, step)
  {
  }

  lemma StepSpares(l: Logger, step: Step)
    requires Spares(l) && Enabled(l, step) && AssertsHold(l, step)
    ensures Spares(Next(l, step))
  {
  }

  lemma LogAppend(log: seq<Chunk>, c: Chunk)
    ensures LogBytes(log + [c]) == LogBytes(log) + LineBytes(c)
  {
  }

  lemma AcceptedAppend(lines: seq<seq<Byte>>, line: seq<Byte>)
    ensures Accepted(lines + [line]) == Accepted(lines) + (if |line| < LARGE_BUFFER then line else [])
  {
  }

  lemma AppendConserved(l: Logger, line: seq<Byte>)
    requires Inv(l)
    ensures Conserved(AfterAppend(l, line))
  {
    hide Flatten, Accepted, LogBytes;
    AcceptedAppend(l.appended, line);
    FlattenAppend(l.buffers, l.current);
    var before := LogBytes(l.log) + Flatten(Unwritten(l)) + l.trimmed;
    var l' := AfterAppend(l, line);
    assert Unwritten(l') == Unwritten(l);
    assert before + Flatten(l'.buffers) + l'.current
           == before + Flatten(l.buffers) + l.current + (if |line| < LARGE_BUFFER then line else []);
  }

  lemma SwapConserved(l: Logger)
    requires Inv(l) && (l.phase == Idle || l.phase == Waiting)
    ensures Conserved(AfterSwap(l))
  {
    hide Flatten, Accepted, LogBytes;
    FlattenAppend(l.buffers, l.current);
    EmptyFlatten();
    var l' := AfterSwap(l);
    assert LogBytes(l.log) + [] + [] + Flatten(l.buffers) + l.current
           == LogBytes(l.log) + (Flatten(l.buffers) + l.current) + [] + [] + [];
  }

  lemma TrimConserved(l: Logger, notice: seq<Byte>)
    requires Inv(l) && l.phase == Swapped
    ensures Conserved(AfterTrim(l, notice))
  {
    hide Flatten, Accepted, LogBytes;
    if |l.toWrite| > MAX_BATCH {
      FlattenConcat(l.toWrite[..2], l.toWrite[2..]);
      assert l.toWrite == l.toWrite[..2] + l.toWrite[2..];
    }
    var l' := AfterTrim(l, notice);
    LogAppend(l.log, Notice(notice));
    assert LogBytes(l'.log) == LogBytes(l.log);
    assert Unwritten(l') == l'.toWrite;
    assert Flatten(Unwritten(l')) + l'.trimmed == Flatten(l.toWrite);
    hide AfterTrim;
    Regroup(LogBytes(l.log), Flatten(Unwritten(l')), l'.trimmed, Flatten(l.buffers), l.current);
    Regroup(LogBytes(l.log), Flatten(l.toWrite), [], Flatten(l.buffers), l.current);
    assert Flatten(l.toWrite) + [] == Flatten(l.toWrite);
  }

  lemma Regroup(a: seq<Byte>, b: seq<Byte>, c: seq<Byte>, d: seq<Byte>, e: seq<Byte>)
    ensures a + b + c + d + e == a + (b + c) + d + e
  {
  }

  lemma WriteConserved(l: Logger)
    requires Inv(l) && l.phase.Writing? && l.phase.n < |l.toWrite|
    ensures Conserved(AfterWrite(l))
  {
    hide Flatten, Accepted, LogBytes;
    var rest, b := l.toWrite[l.phase.n..], l.toWrite[l.phase.n];
    var l' := AfterWrite(l);
    assert rest[1..] == Unwritten(l') && rest[0] == b;
    FlattenFirst(rest);
    LogAppend(l.log, Kept(b));
    assert LogBytes(l.log) + (b + Flatten(rest[1..])) == (LogBytes(l.log) + b) + Flatten(rest[1..]);
  }

  lemma RecycleConserved(l: Logger)
    requires Inv(l) && l.phase == Writing(|l.toWrite|)
    ensures CanRecycle(l) && Conserved(AfterRecycle(l))
  {
    hide Flatten, Accepted, LogBytes;
    EmptyFlatten();
    LogAppend(l.log, Lost(l.trimmed));
    assert Unwritten(l) == [];
    assert LogBytes(l.log) + [] + l.trimmed == LogBytes(l.log) + l.trimmed;
    assert LogBytes(AfterRecycle(l).log) + [] + [] == LogBytes(l.log) + l.trimmed;
  }

  lemma StepInv(l: Logger, step: Step)
    requires Inv(l) && Enabled(l, step)
    ensures AssertsHold(l, step) && Inv(Next(l, step))
  {
    hide Conserved, Spares, AfterAppend, AfterSwap, AfterTrim, AfterWrite, AfterRecycle;
    StepAsserts(l, step);
    StepSpares(l, step);
    match step
    case Append(line) => AppendConserved(l, line);
    case Check => if l.buffers == [] { WaitConserved(l); } else { SwapConserved(l); }
    case Wake => SwapConserved(l);
    case Trim(notice) => TrimConserved(l, notice);
    case WriteOne => WriteConserved(l);
    case Recycle => RecycleConserved(l);
  }

  lemma WaitConserved(l: Logger)
    requires Conserved(l) && l.phase == Idle
    ensures Conserved(l.(phase := Waiting))
  {
  }

  lemma {:induction false} ExecInv(l: Logger, steps: seq<Step>)
    requires Inv(l)
    ensures Inv(Exec(l, steps))
    decreases |steps|
  {
    hide Inv, Enabled, AssertsHold, Next;
    if steps != [] && Enabled(l, steps[0]) {
      StepInv(l, steps[0]);
      ExecInv(Next(l, steps[0]), steps[1..]);
    }
  }

  lemma InitInv()
    ensures Inv(Init())
  {
  }

  /** No reachable step breaks an assertion of the backend: the spares never run dry. */
  lemma RecyclingNeverRunsDry(steps: seq<Step>, step: Step)
    requires Enabled(Exec(Init(), steps), step)
    ensures AssertsHold(Exec(Init(), steps), step)
  {
    hide Exec, Enabled, AssertsHold, Inv;
    InitInv();
    ExecInv(Init(), steps);
    StepInv(Exec(Init(), steps), step);
  }

  /** The lines of the append steps that are performed. */
  function Lines(l: Logger, steps: seq<Step>): seq<seq<Byte>>
    decreases |steps|
  {
    if steps == [] || !Enabled(l, steps[0]) || !AssertsHold(l, steps[0]) then []
    else (if steps[0].Append? then [steps[0].line] else []) + Lines(Next(l, steps[0]), steps[1..])
  }

  lemma AppendsOne(l: Logger, step: Step)
    requires Enabled(l, step) && AssertsHold(l, step)
    ensures Next(l, step).appended == l.appended + if step.Append? then [step.line] else []
  {
  }

  /** In every run, what the logger was given is the lines of the append calls, in order, each once. */
  lemma {:induction false} AppendedExactly(l: Logger, steps: seq<Step>)
    ensures Exec(l, steps).appended == l.appended + Lines(l, steps)
    decreases |steps|
  {
    hide Next, Enabled, AssertsHold;
    if steps != [] && Enabled(l, steps[0]) && AssertsHold(l, steps[0]) {
      AppendsOne(l, steps[0]);
      AppendedExactly(Next(l, steps[0]), steps[1..]);
    }
  }

  /** A line goes into the current buffer when a byte would be left over, and otherwise into a fresh one if it fits that. */
  lemma RotatesExactly(l: Logger, line: seq<Byte>)
    requires Spares(l)
    ensures var l' := Next(l, Append(line));
            if |l.current| + |line| < 4_000_000 then l'.current == l.current + line && l'.buffers == l.buffers
            else && l'.buffers == l.buffers + [l.current]
                 && l'.current == if |line| < 4_000_000 then line else []
  {
    assert [] + line == line;
  }

  /** A batch over 25 buffers, and nothing else, gets a notice, and is left with its first two. */
  lemma NoticeExactly(l: Logger, step: Step)
    requires Enabled(l, step) && AssertsHold(l, step)
    ensures l.log <= Next(l, step).log && |Next(l, step).log| <= |l.log| + 1
    ensures |Next(l, step).log| > |l.log| && Next(l, step).log[|l.log|].Notice? <==> step.Trim? && |l.toWrite| > 25
    ensures step.Trim? && |l.toWrite| > 25 ==>
              && Next(l, step).log[|l.log|].text == step.notice
              && |Next(l, step).toWrite| == 2 && Next(l, step).toWrite <= l.toWrite
  {
  }

  /** Everything appended is in the log, the batch, the queue or the current buffer, in order, or was too long. */
  lemma LinesConserved(steps: seq<Step>)
    ensures var l := Exec(Init(), steps);
            LogBytes(l.log) + Flatten(Unwritten(l)) + l.trimmed + Flatten(l.buffers) + l.current == Accepted(l.appended)
  {
    hide Exec, Spares;
    InitInv();
    ExecInv(Init(), steps);
  }

  predicate NothingLost(l: Logger) {
    l.trimmed == [] && forall c | c in l.log :: c.Kept?
  }

  /** What was written to the file, in order, leaving out the notices about dropped buffers. */
  function FileBytes(log: seq<Chunk>): seq<Byte> {
    if log == [] then []
    else FileBytes(log[..|log| - 1]) + (if log[|log| - 1].Kept? then log[|log| - 1].bytes else [])
  }

  lemma {:induction false} AllKept(log: seq<Chunk>)
    requires forall c | c in log :: c.Kept?
    ensures FileBytes(log) == LogBytes(log)
  {
    if log != [] {
      assert log[|log| - 1] in log;
      AllKept(log[..|log| - 1]);
    }
  }

  lemma {:induction false} EveryLine(lines: seq<seq<Byte>>)
    requires forall line | line in lines :: |line| < LARGE_BUFFER
    ensures Accepted(lines) == Flatten(lines)
  {
    if lines != [] {
      assert lines[|lines| - 1] in lines;
      EveryLine(lines[..|lines| - 1]);
    }
  }

  /** No batch of the run is over the limit when it comes to be trimmed. */
  predicate BatchesFit(l: Logger, steps: seq<Step>)
    decreases |steps|
  {
    steps == [] || !Enabled(l, steps[0]) || !AssertsHold(l, steps[0])
    || ((steps[0].Trim? ==> |l.toWrite| <= MAX_BATCH) && BatchesFit(Next(l, steps[0]), steps[1..]))
  }

  lemma FitStep(l: Logger, step: Step)
    requires NothingLost(l) && Enabled(l, step) && AssertsHold(l, step) && (step.Trim? ==> |l.toWrite| <= MAX_BATCH)
    ensures NothingLost(Next(l, step))
  {
  }

  lemma {:induction false} FitLosesNothing(l: Logger, steps: seq<Step>)
    requires NothingLost(l) && BatchesFit(l, steps)
    ensures NothingLost(Exec(l, steps))
    decreases |steps|
  {
    hide NothingLost, Next, Enabled, AssertsHold;
    if steps != [] && Enabled(l, steps[0]) && AssertsHold(l, steps[0]) {
      FitStep(l, steps[0]);
      FitLosesNothing(Next(l, steps[0]), steps[1..]);
    }
  }

  predicate Short(lines: seq<seq<Byte>>) {
    forall line | line in lines :: |line| < LARGE_BUFFER
  }

  lemma {:induction false} LongLineMissing(lines: seq<seq<Byte>>)
    ensures |Accepted(lines)| <= |Flatten(lines)|
    ensures !Short(lines) ==> |Accepted(lines)| < |Flatten(lines)|
  {
    if lines != [] {
      var front, last := lines[..|lines| - 1], lines[|lines| - 1];
      LongLineMissing(front);
      assert lines == front + [last];
    }
  }

  lemma {:induction false} FileIsPart(log: seq<Chunk>)
    ensures |FileBytes(log)| <= |LogBytes(log)|
  {
    if log != [] {
      FileIsPart(log[..|log| - 1]);
    }
  }

  /** How many bytes of accepted lines were lost, or are about to be. */
  function Missing(l: Logger): int {
    |LogBytes(l.log)| - |FileBytes(l.log)| + |l.trimmed|
  }

  lemma FileAppend(log: seq<Chunk>, c: Chunk)
    ensures FileBytes(log + [c]) == FileBytes(log) + if c.Kept? then c.bytes else []
  {
    assert (log + [c])[..|log|] == log;
  }

  lemma MissingStep(l: Logger, step: Step)
    requires Spares(l) && Enabled(l, step) && AssertsHold(l, step)
    ensures Missing(Next(l, step)) >= Missing(l)
  {
    hide LogBytes, FileBytes, Flatten;
    if step.WriteOne? {
      LogAppend(l.log, Kept(l.toWrite[l.phase.n]));
      FileAppend(l.log, Kept(l.toWrite[l.phase.n]));
    } else if step.Recycle? {
      LogAppend(l.log, Lost(l.trimmed));
      FileAppend(l.log, Lost(l.trimmed));
    } else if step.Trim? {
      LogAppend(l.log, Notice(step.notice));
      FileAppend(l.log, Notice(step.notice));
    }
  }

  /** Only a line that does not fit rotates the buffers, so with short lines no queued buffer is empty. */
  predicate QueuedNotEmpty(l: Logger) {
    && (forall b | b in l.buffers :: b != [])
    && (l.phase == Swapped ==> forall i | 0 <= i < |l.toWrite| - 1 :: l.toWrite[i] != [])
  }

  lemma QueuedStep(l: Logger, step: Step)
    requires QueuedNotEmpty(l) && Enabled(l, step) && AssertsHold(l, step) && (step.Append? ==> |step.line| < LARGE_BUFFER)
    ensures QueuedNotEmpty(Next(l, step))
  {
    hide Flatten;
    assert forall i | 0 <= i < |l.buffers| :: l.buffers[i] in l.buffers;
  }

  /** A batch over the limit loses some byte. */
  lemma TrimLoses(l: Logger, notice: seq<Byte>)
    requires Spares(l) && QueuedNotEmpty(l) && l.phase == Swapped && |l.toWrite| > MAX_BATCH
    ensures Missing(AfterTrim(l, notice)) > Missing(l)
  {
    hide LogBytes, FileBytes, Flatten;
    LogAppend(l.log, Notice(notice));
    FileAppend(l.log, Notice(notice));
    FlattenFirst(l.toWrite[2..]);
    assert l.toWrite[2..][0] == l.toWrite[2];
  }

  lemma {:induction false} MissingGrows(l: Logger, steps: seq<Step>)
    requires Inv(l)
    ensures Missing(Exec(l, steps)) >= Missing(l)
    decreases |steps|
  {
    hide Inv, Missing, Next, Enabled, AssertsHold;
    if steps != [] && Enabled(l, steps[0]) {
      StepInv(l, steps[0]);
      SparesOf(l);
      MissingStep(l, steps[0]);
      MissingGrows(Next(l, steps[0]), steps[1..]);
    }
  }

  lemma SparesOf(l: Logger)
    requires Inv(l)
    ensures Spares(l)
  {
  }

  lemma AppendedStep(l: Logger, step: Step)
    requires Enabled(l, step) && AssertsHold(l, step)
    ensures l.appended <= Next(l, step).appended && (step.Append? ==> step.line in Next(l, step).appended)
  {
  }

  lemma {:induction false} AppendedGrows(l: Logger, steps: seq<Step>)
    ensures l.appended <= Exec(l, steps).appended
    decreases |steps|
  {
    hide Next, Enabled, AssertsHold;
    if steps != [] && Enabled(l, steps[0]) && AssertsHold(l, steps[0]) {
      AppendedStep(l, steps[0]);
      AppendedGrows(Next(l, steps[0]), steps[1..]);
    }
  }

  lemma {:induction false} OverflowLoses(l: Logger, steps: seq<Step>)
    requires Inv(l) && QueuedNotEmpty(l) && Short(Exec(l, steps).appended) && !BatchesFit(l, steps)
    ensures Missing(Exec(l, steps)) > Missing(l)
    decreases |steps|
  {
    hide Inv, Missing, Next, Enabled, AssertsHold, QueuedNotEmpty;
    StepInv(l, steps[0]);
    SparesOf(l);
    var l' := Next(l, steps[0]);
    AppendedStep(l, steps[0]);
    AppendedGrows(l', steps[1..]);
    MissingStep(l, steps[0]);
    if steps[0].Trim? && |l.toWrite| > MAX_BATCH {
      TrimStep(l, steps[0].notice);
      TrimLoses(l, steps[0].notice);
      MissingGrows(l', steps[1..]);
    } else {
      assert steps[0].Append? ==> steps[0].line in Exec(l, steps).appended;
      QueuedStep(l, steps[0]);
      OverflowLoses(l', steps[1..]);
    }
  }

  lemma TrimStep(l: Logger, notice: seq<Byte>)
    requires Enabled(l, Trim(notice)) && AssertsHold(l, Trim(notice))
    ensures l.phase == Swapped && Next(l, Trim(notice)) == AfterTrim(l, notice)
  {
  }

  /** The file, the batch still to be written, the queued buffers and the current one, end to end. */
  function Outcome(l: Logger): seq<Byte> {
    FileBytes(l.log) + Flatten(Unwritten(l)) + Flatten(l.buffers) + l.current
  }

  /** As long as no batch is over 25 buffers and every line fits a buffer, no byte is lost or out of place. */
  lemma FitKeepsAll(steps: seq<Step>)
    requires BatchesFit(Init(), steps) && Short(Exec(Init(), steps).appended)
    ensures Outcome(Exec(Init(), steps)) == Flatten(Exec(Init(), steps).appended)
  {
    hide Exec, Spares, Flatten, FileBytes, LogBytes, Accepted, BatchesFit;
    LinesConserved(steps);
    FitLosesNothing(Init(), steps);
    var l := Exec(Init(), steps);
    AllKept(l.log);
    EveryLine(l.appended);
    assert LogBytes(l.log) + Flatten(Unwritten(l)) + [] == LogBytes(l.log) + Flatten(Unwritten(l));
  }

  lemma OutcomeLength(steps: seq<Step>)
    ensures var l := Exec(Init(), steps); |Outcome(l)| == |Accepted(l.appended)| - Missing(l)
  {
    hide Exec, Flatten, FileBytes, LogBytes, Accepted;
    LinesConserved(steps);
  }

  lemma StartsFull()
    ensures Missing(Init()) == 0 && QueuedNotEmpty(Init())
  {
  }

  /**
   * The file, the batch still to be written, the queued buffers and the current buffer are the appended lines, byte
   * for byte, exactly when every line fits a buffer and no batch came to be over 25 buffers.
   */
  lemma EveryByteReachesTheFile(steps: seq<Step>)
    ensures var l := Exec(Init(), steps);
            Outcome(l) == Flatten(l.appended) <==> Short(l.appended) && BatchesFit(Init(), steps)
  {
    hide Exec, Outcome, Flatten, Missing, Accepted, BatchesFit, Short, Inv, QueuedNotEmpty;
    var l := Exec(Init(), steps);
    if Short(l.appended) && BatchesFit(Init(), steps) {
      FitKeepsAll(steps);
    } else {
      InitInv();
      StartsFull();
      OutcomeLength(steps);
      LongLineMissing(l.appended);
      MissingGrows(Init(), steps);
      if Short(l.appended) {
        OverflowLoses(Init(), steps);
      }
    }
  }
}

/** The logger's methods; the backend's local buffers are fields, and history is ghost. */
module AsyncLogging {
  import opened Wrappers
  import opened Bytes
  import opened LoggerRuns
  import opened LoggerTheorems

  class AsyncLogging {
    var currentBuffer: Buffer
    var nextBuffer: Option<Buffer>
    var buffers: seq<Buffer>
    var newBuffer1: Option<Buffer>
    var newBuffer2: Option<Buffer>
    var buffersToWrite: seq<Buffer>
    ghost var phase: Phase
    ghost var trimmed: seq<Byte>
    ghost var appended: seq<seq<Byte>>
    ghost var log: seq<Chunk>

    ghost function View(): Logger
      reads this
    {
      Logger(currentBuffer, nextBuffer, buffers, phase, newBuffer1, newBuffer2, buffersToWrite, trimmed, appended, log)
    }

    ghost predicate Valid()
      reads this
    {
      Inv(View())
    }

    constructor ()
      ensures Valid() && View() == Init()
    {
      currentBuffer, nextBuffer, buffers, newBuffer1, newBuffer2 := [], Some([]), [], Some([]), Some([]);
      buffersToWrite, phase, trimmed, appended, log := [], Idle, [], [], [];
      new;
      InitInv();
      hide Inv;
    }

    method Append(logline: seq<Byte>)
      requires Valid()
      modifies this
      ensures Valid() && View() == Next(old(View()), LoggerRuns.Append(logline))
    {
      hide Inv;
      StepInv(View(), LoggerRuns.Append(logline));
      appended := appended + [logline];
      if LARGE_BUFFER - |currentBuffer| > |logline| {
        currentBuffer := currentBuffer + logline;
      } else {
        buffers := buffers + [currentBuffer];
        if nextBuffer.Some? {
          currentBuffer := nextBuffer.value;
          nextBuffer := None;
        } else {
          currentBuffer := [];
        }
        currentBuffer := Added(currentBuffer, logline);
      }
    }

    /** The backend's critical section up to its wait; `waits` tells whether it released the mutex. */
    method CheckBuffers() returns (waits: bool)
      requires Valid() && phase == Idle
      modifies this
      ensures Valid() && AssertsHold(old(View()), Check) && View() == Next(old(View()), Check)
      ensures waits == (old(buffers) == []) && phase == (if waits then Waiting else Swapped)
    {
      hide Inv;
      StepInv(View(), Check);
      waits := buffers == [];
      if waits {
        phase := Waiting;
      } else {
        SwapBuffers();
      }
    }

    method WakeUp()
      requires Valid() && phase == Waiting
      modifies this
      ensures Valid() && AssertsHold(old(View()), Wake) && View() == Next(old(View()), Wake)
    {
      hide Inv;
      StepInv(View(), Wake);
      SwapBuffers();
    }

    method SwapBuffers()
      requires newBuffer1.Some?
      modifies this
      ensures View() == AfterSwap(old(View()))
    {
      buffers := buffers + [currentBuffer];
      currentBuffer := newBuffer1.value;
      newBuffer1 := None;
      buffersToWrite := buffers;
      buffers := [];
      if nextBuffer.None? {
        nextBuffer := newBuffer2;
        newBuffer2 := None;
      }
      phase := Swapped;
    }

    method TrimBatch(notice: seq<Byte>)
      requires Valid() && phase == Swapped
      modifies this
      ensures Valid() && AssertsHold(old(View()), Trim(notice)) && View() == Next(old(View()), Trim(notice))
    {
      hide Inv, Flatten;
      StepInv(View(), Trim(notice));
      trimmed := [];
      if |buffersToWrite| > 25 {
        trimmed := Flatten(buffersToWrite[2..]);
        log := log + [Notice(notice)];
        buffersToWrite := buffersToWrite[..2];
      }
      phase := Writing(0);
    }

    /** The write loop: `output` gets the buffers of the batch one after the other. */
    method WriteBatch() returns (output: seq<Byte>)
      requires Valid() && phase == Writing(0)
      modifies this
      ensures Valid() && phase == Writing(|buffersToWrite|) && buffersToWrite == old(buffersToWrite)
      ensures output == Flatten(buffersToWrite) && LogBytes(log) == old(LogBytes(log)) + output
    {
      hide Inv, Flatten, LogBytes;
      output := [];
      EmptyFlatten();
      for i := 0 to |buffersToWrite|
        invariant Valid() && phase == Writing(i) && buffersToWrite == old(buffersToWrite)
        invariant output == Flatten(buffersToWrite[..i]) && LogBytes(log) == old(LogBytes(log)) + output
      {
        StepInv(View(), WriteOne);
        assert buffersToWrite[..i + 1] == buffersToWrite[..i] + [buffersToWrite[i]];
        FlattenAppend(buffersToWrite[..i], buffersToWrite[i]);
        LogAppend(log, Kept(buffersToWrite[i]));
        output := output + buffersToWrite[i];
        log := log + [Kept(buffersToWrite[i])];
        phase := Writing(i + 1);
      }
      assert buffersToWrite[..|buffersToWrite|] == buffersToWrite;
    }

    /** Moves the last buffer out of the batch and resets it. */
    method TakeSpare() returns (spare: Buffer)
      requires buffersToWrite != []
      modifies this`buffersToWrite
      ensures spare == [] && |buffersToWrite| == |old(buffersToWrite)| - 1
    {
      spare := buffersToWrite[|buffersToWrite| - 1];
      buffersToWrite := buffersToWrite[..|buffersToWrite| - 1];
      spare := [];
    }

    method RecycleBuffers()
      requires Valid() && phase == Writing(|buffersToWrite|)
      modifies this
      ensures Valid() && AssertsHold(old(View()), Recycle) && View() == Next(old(View()), Recycle)
    {
      hide Inv;
      StepInv(View(), Recycle);
      if |buffersToWrite| > 2 {
        buffersToWrite := buffersToWrite[..2];
      }
      if newBuffer1.None? {
        assert buffersToWrite != [];
        var spare := TakeSpare();
        newBuffer1 := Some(spare);
      }
      if newBuffer2.None? {
        assert buffersToWrite != [];
        var spare := TakeSpare();
        newBuffer2 := Some(spare);
      }
      buffersToWrite := [];
      log := if trimmed == [] then log else log + [Lost(trimmed)];
      trimmed := [];
      phase := Idle;
    }
  }
}
