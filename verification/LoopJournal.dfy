/** What the steps of a run alone say of the loop: which functors were queued, which ran and when, who is to wake it. */
module LoopJournal {
  import opened LoopRuns
  import opened LoopTheorems

  /** The steps of the list that are performed: all up to the first that cannot happen. */
  function Performed(l: Loop, steps: seq<Step>): seq<Step>
    decreases |steps|
  {
    if steps == [] || !Enabled(l, steps[0]) then [] else [steps[0]] + Performed(Next(l, steps[0]), steps[1..])
  }

  datatype Journal = Journal(
    iteration: nat,           // returns from poll
    inBatch: bool,            // between the swap of a batch and the return to poll
    queued: seq<Functor>,     // one for every push, in order
    runs: seq<nat>,           // the iteration of every functor that ran
    unread: nat,              // writes of the eventfd since it was last read
    waking: set<Tid>,         // other threads that have pushed and not yet written it
    selfWaking: bool)

  function Start(): Journal {
    Journal(0, false, [], [], 0, {}, false)
  }

  function Listed(j: Journal, id: nat, silent: bool): Journal {
    j.(queued := j.queued + [Functor(id, j.iteration, j.inBatch, silent)])
  }

  function Written(j: Journal, step: Step): Journal {
    match step
    case PushBeforeLoop(id) => Listed(j, id, true)
    case Push(t, id) => Listed(j, id, false).(waking := j.waking + {t})
    case PushFromHandler(id) => Listed(j, id, false)
    case PushFromFunctor(id) => Listed(j, id, false).(selfWaking := true)
    case PushFromDestructor(id) => Listed(j, id, true)
    case Wake(t) => j.(unread := j.unread + 1, waking := j.waking - {t})
    case WakeFromFunctor => j.(unread := j.unread + 1, selfWaking := false)
    case ExtraWake => j.(unread := j.unread + 1)
    case HandleWakeup => j.(unread := 0)
    case PollReturn(_) => j.(iteration := j.iteration + 1)
    case Swap => j.(inBatch := true)
    case Return => j.(inBatch := false)
    case RunNext => j.(runs := j.runs + [j.iteration])
    case _ => j
  }

  function Journaled(j: Journal, steps: seq<Step>): Journal
    decreases |steps|
  {
    if steps == [] then j else Journaled(Written(j, steps[0]), steps[1..])
  }

  function JournalOf(steps: seq<Step>): Journal {
    Journaled(Start(), Performed(Init(), steps))
  }

  ghost predicate RanAt(executed: seq<Executed>, runs: seq<nat>) {
    |executed| == |runs| && forall i | 0 <= i < |runs| :: executed[i].iteration == runs[i]
  }

  ghost predicate Matches(l: Loop, j: Journal) {
    && l.iteration == j.iteration && (j.inBatch <==> l.phase == Running || l.phase == Releasing)
    && l.queued == j.queued && RanAt(l.executed, j.runs)
    && l.eventfd == j.unread && l.pushers == j.waking && l.loopPushing == j.selfWaking
  }

  lemma MatchesStep(l: Loop, j: Journal, step: Step)
    requires Matches(l, j) && Enabled(l, step)
    ensures Matches(Next(l, step), Written(j, step))
  {
  }

  lemma PerformedFirst(l: Loop, steps: seq<Step>)
    requires steps != [] && Enabled(l, steps[0])
    ensures var p := Performed(l, steps);
            p != [] && p[0] == steps[0] && p[1..] == Performed(Next(l, steps[0]), steps[1..])
  {
  }

  lemma {:induction false} MatchesExec(l: Loop, j: Journal, steps: seq<Step>)
    requires Matches(l, j)
    ensures Matches(Exec(l, steps), Journaled(j, Performed(l, steps)))
    decreases |steps|
  {
    hide Matches, Next, Enabled, Written;
    if steps != [] && Enabled(l, steps[0]) {
      MatchesStep(l, j, steps[0]);
      PerformedFirst(l, steps);
      MatchesExec(Next(l, steps[0]), Written(j, steps[0]), steps[1..]);
    }
  }

  /**
   * In every run, the functors that have run are the first of those pushed, in the order of the pushes, each in the
   * iteration in which the loop ran it; the others are in the batch or pending, in that order.
   */
  lemma PushedThenRun(steps: seq<Step>)
    ensures var l, j := Exec(Init(), steps), JournalOf(steps);
            && |l.executed| == |j.runs| <= |j.queued|
            && (forall i | 0 <= i < |j.runs| :: l.executed[i] == Executed(j.queued[i], j.runs[i]))
            && l.batch + l.pending == j.queued[|j.runs|..]
  {
    hide Exec, Performed, Journaled;
    MatchesExec(Init(), Start(), steps);
    RunInQueueOrder(steps);
    var l, j := Exec(Init(), steps), JournalOf(steps);
    var fs := Functors(l.executed);
    assert j.queued == fs + (l.batch + l.pending) && |fs| == |j.runs|;
    forall i | 0 <= i < |j.runs| ensures l.executed[i] == Executed(j.queued[i], j.runs[i]) {
      assert fs[i] == j.queued[i];
    }
  }

  /** In every run, the eventfd holds the writes since it was last read, and it is known who is yet to write it. */
  lemma WakeupsCounted(steps: seq<Step>)
    ensures var l, j := Exec(Init(), steps), JournalOf(steps);
            && l.eventfd == j.unread && l.pushers == j.waking && l.loopPushing == j.selfWaking
            && l.iteration == j.iteration
  {
    hide Exec, Performed, Journaled;
    MatchesExec(Init(), Start(), steps);
  }
}
