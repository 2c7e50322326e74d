/** What the steps of a run alone say of the timers: which were made and added, what ran, and when each was due. */
module TimerJournal {
  import opened Wrappers
  import opened Timers
  import opened TimerRuns
  import opened TimerInvariant
  import opened TimerTheorems

  /** The steps of the list that are performed: all up to the first that may not be taken. */
  ghost function Performed(q: Queue, steps: seq<Step>): seq<Step>
    decreases |steps|
  {
    if steps == [] || !Enabled(q, steps[0]) || !MemorySafe(q, steps[0]) then []
    else [steps[0]] + Performed(Next(q, steps[0]), steps[1..])
  }

  /** A timer as its creator asked for it. */
  datatype Made = Made(addr: Addr, when: int, interval: real)

  datatype Turn = Turn(now: int, batch: nat)

  datatype Journal = Journal(
    made: seq<Made>,            // timer number k is made[k - 1]
    latest: map<Addr, nat>,     // the number of the last timer made at each address
    added: set<nat>,
    cancels: set<ActiveTimer>,  // every id given to cancel
    turns: seq<Turn>,           // one for every callback that ran
    now: int,                   // of the last batch begun
    batches: nat)

  function Start(): Journal {
    Journal([], map[], {}, {}, [], 0, 0)
  }

  function Written(j: Journal, step: Step): Journal {
    match step
    case Create(a, when, interval) => j.(made := j.made + [Made(a, when, interval)], latest := j.latest[a := |j.made| + 1])
    case AddInLoop(a, _) => if a in j.latest then j.(added := j.added + {j.latest[a]}) else j
    case Cancel(id) => j.(cancels := j.cancels + {id})
    case Begin(now, _) => j.(now := now, batches := j.batches + 1)
    case RunNext => j.(turns := j.turns + [Turn(j.now, j.batches)])
    case End(_) => j
  }

  function Journaled(j: Journal, steps: seq<Step>): Journal
    decreases |steps|
  {
    if steps == [] then j else Journaled(Written(j, steps[0]), steps[1..])
  }

  ghost function JournalOf(steps: seq<Step>): Journal {
    Journaled(Start(), Performed(Init(), steps))
  }

  // ---- names and turns

  /** Timers are numbered as they are made, at their addresses and with their intervals. */
  ghost predicate Numbered(q: Queue, j: Journal) {
    AddressesMatch(q.history.created, j.made) && SameIntervals(q.heap, j.made) && Latest(q.heap, j.latest)
  }

  ghost predicate AddressesMatch(created: map<nat, Addr>, made: seq<Made>) {
    |created| == |made| && forall k | k in created :: 1 <= k <= |made| && created[k] == made[k - 1].addr
  }

  ghost predicate SameIntervals(heap: map<Addr, Timer>, made: seq<Made>) {
    forall a | a in heap ::
      1 <= heap[a].sequence <= |made| && heap[a].interval == made[heap[a].sequence - 1].interval
  }

  ghost predicate Latest(heap: map<Addr, Timer>, latest: map<Addr, nat>) {
    forall a | a in heap :: a in latest && latest[a] == heap[a].sequence
  }

  ghost predicate Listed(q: Queue, j: Journal) {
    && q.history.inserted == j.added
    && (forall k | k in q.history.cancelled ::
          k in q.history.created && ActiveTimer(q.history.created[k], k) in j.cancels)
  }

  ghost predicate Turns(q: Queue, j: Journal) {
    && q.now == j.now && q.history.batches == j.batches && |q.history.ran| == |j.turns|
    && (forall i | 0 <= i < |j.turns| ::
          q.history.ran[i].now == j.turns[i].now && q.history.ran[i].batch == j.turns[i].batch)
  }

  /** What reset() leaves alone. */
  ghost predicate Recycled(q: Queue, q': Queue) {
    && q'.history == q.history.(freed := q'.history.freed) && q'.now == q.now && q'.heap.Keys <= q.heap.Keys
    && (forall a | a in q'.heap :: q'.heap[a] == q.heap[a].(expiration := q'.heap[a].expiration))
  }

  lemma {:induction false} RecycleKeeps(q: Queue)
    requires Recyclable(q)
    ensures Recycled(q, RecycleAll(q))
    decreases |q.done|
  {
    if q.done != [] {
      assert q.done[0] in q.done;
      StillRecyclable(q);
      RecycleKeeps(RecycleFirst(q));
    }
  }

  /** The parts of a queue that its numbering is about. */
  ghost predicate NumbersKept(q: Queue, q': Queue) {
    && q'.history.created == q.history.created && q'.heap.Keys <= q.heap.Keys
    && (forall a | a in q'.heap :: q'.heap[a].sequence == q.heap[a].sequence && q'.heap[a].interval == q.heap[a].interval)
  }

  lemma NumberedKept(q: Queue, q': Queue, j: Journal, j': Journal)
    requires Numbered(q, j) && NumbersKept(q, q') && j'.made == j.made && j'.latest == j.latest
    ensures Numbered(q', j')
  {
  }

  lemma AddressesCreate(created: map<nat, Addr>, made: seq<Made>, m: Made)
    requires AddressesMatch(created, made) && |made| + 1 !in created
    ensures AddressesMatch(created[|made| + 1 := m.addr], made + [m])
  {
    assert |created[|made| + 1 := m.addr]| == |made| + 1;
  }

  lemma HeapCreate(heap: map<Addr, Timer>, made: seq<Made>, latest: map<Addr, nat>, m: Made, t: Timer)
    requires SameIntervals(heap, made) && Latest(heap, latest)
    requires t.sequence == |made| + 1 && t.interval == m.interval
    ensures SameIntervals(heap[m.addr := t], made + [m]) && Latest(heap[m.addr := t], latest[m.addr := t.sequence])
  {
  }

  lemma NextNumber(heap: map<Addr, Timer>, h: History, made: seq<Made>)
    requires Named(heap, h.created, h.freed) && AddressesMatch(h.created, made)
    ensures |h.created| == |made| && |made| + 1 !in h.created
  {
    NewName(h.created);
  }

  lemma NumberedCreate(q: Queue, j: Journal, a: Addr, when: int, interval: real)
    requires Named(q.heap, q.history.created, q.history.freed) && Numbered(q, j)
    ensures Numbered(AfterCreate(q, a, when, interval), Written(j, Create(a, when, interval)))
  {
    hide SameIntervals, Latest, AddressesMatch, Named;
    NextNumber(q.heap, q.history, j.made);
    AddressesCreate(q.history.created, j.made, Made(a, when, interval));
    HeapCreate(q.heap, j.made, j.latest, Made(a, when, interval), Timer(when, interval, |j.made| + 1));
  }

  lemma NumbersKeptStep(q: Queue, step: Step)
    requires Enabled(q, step) && MemorySafe(q, step) && !step.Create?
    ensures NumbersKept(q, Next(q, step))
  {
    if step.End? {
      RecycleKeeps(q);
      hide RecycleAll;
    }
  }

  lemma NumberedStep(q: Queue, j: Journal, step: Step)
    requires Inv(q) && Numbered(q, j) && Enabled(q, step) && MemorySafe(q, step)
    ensures Numbered(Next(q, step), Written(j, step))
  {
    hide Accounted, AlarmKept, Ordered, Located, IndexesAgree, Named, Numbered, NumbersKept, AfterCreate;
    if step.Create? {
      NumberedCreate(q, j, step.addr, step.when, step.interval);
    } else {
      NumbersKeptStep(q, step);
      hide Next, MemorySafe;
      NumberedKept(q, Next(q, step), j, Written(j, step));
    }
  }

  lemma ListedAdd(q: Queue, j: Journal, a: Addr, clock: int)
    requires Numbered(q, j) && Listed(q, j) && a in q.heap
    ensures Listed(AfterAdd(q, a, clock), Written(j, AddInLoop(a, clock)))
  {
  }

  lemma ListedCreate(q: Queue, j: Journal, a: Addr, when: int, interval: real)
    requires Named(q.heap, q.history.created, q.history.freed) && Listed(q, j)
    ensures Listed(AfterCreate(q, a, when, interval), Written(j, Create(a, when, interval)))
  {
    NewName(q.history.created);
  }

  lemma ListedCancel(q: Queue, j: Journal, id: ActiveTimer)
    requires Listed(q, j)
    ensures Listed(AfterCancel(q, id), Written(j, Cancel(id)))
  {
  }

  lemma ListedStep(q: Queue, j: Journal, step: Step)
    requires Inv(q) && Numbered(q, j) && Listed(q, j) && Enabled(q, step) && MemorySafe(q, step)
    ensures Listed(Next(q, step), Written(j, step))
  {
    hide Accounted, AlarmKept, Ordered, Located, IndexesAgree, Named, Numbered;
    hide AfterCreate, AfterAdd, AfterCancel, RecycleAll;
    match step
    case Create(a, when, interval) => ListedCreate(q, j, a, when, interval);
    case AddInLoop(a, clock) => ListedAdd(q, j, a, clock);
    case Cancel(id) => ListedCancel(q, j, id);
    case End(clock) => RecycleKeeps(q);
    case _ =>
  }

  lemma SameTurns(q: Queue, step: Step)
    requires Enabled(q, step) && MemorySafe(q, step) && !step.Begin? && !step.RunNext?
    ensures var q' := Next(q, step);
            q'.now == q.now && q'.history.batches == q.history.batches && q'.history.ran == q.history.ran
  {
    hide InsertEntry, EraseEntry, RecycleAll, Recyclable;
    if step.End? {
      RecycleKeeps(q);
    }
  }

  lemma TurnsRun(q: Queue, j: Journal)
    requires Turns(q, j) && q.toRun != [] && q.toRun[0].timer in q.heap
    ensures Turns(AfterRun(q), Written(j, RunNext))
  {
  }

  lemma TurnsStep(q: Queue, j: Journal, step: Step)
    requires Turns(q, j) && Enabled(q, step) && MemorySafe(q, step)
    ensures Turns(Next(q, step), Written(j, step))
  {
    hide AfterRun, AfterCreate, AfterAdd, AfterCancel, RecycleAll, Rearmed, Recyclable, FirstLive, ActiveAmong;
    if step.RunNext? {
      TurnsRun(q, j);
    } else if !step.Begin? {
      SameTurns(q, step);
    }
  }

  // ---- when a timer is due

  function LastRun(ran: seq<Run>, k: nat): Option<Run> {
    if ran == [] then None
    else if ran[|ran| - 1].sequence == k then Some(ran[|ran| - 1])
    else LastRun(ran[..|ran| - 1], k)
  }

  /** The first run of a timer is due when its creator said, and every other one interval after the batch of the last. */
  function DueAfter(m: Made, last: Option<Run>): int {
    match last
    case None => m.when
    case Some(r) => r.now + (m.interval * 1000000.0).Floor
  }

  predicate InBatch(done: seq<Entry>, a: Addr) {
    exists e | e in done :: e.timer == a
  }

  /** A timer that ran in this batch was last run now; every other one is to expire when it is due. */
  ghost predicate Due(q: Queue, made: seq<Made>) {
    forall a | a in q.heap && 1 <= q.heap[a].sequence <= |made| ::
      var last := LastRun(q.history.ran, q.heap[a].sequence);
      if InBatch(q.done, a) then last.Some? && last.value.now == q.now
      else q.heap[a].expiration == DueAfter(made[q.heap[a].sequence - 1], last)
  }

  ghost predicate RunDue(ran: seq<Run>, made: seq<Made>, i: nat)
    requires i < |ran|
  {
    var r := ran[i];
    && 1 <= r.sequence <= |made|
    && r.expiration == DueAfter(made[r.sequence - 1], LastRun(ran[..i], r.sequence))
    && (r.repeats <==> made[r.sequence - 1].interval > 0.0)
  }

  ghost predicate RunsDue(ran: seq<Run>, made: seq<Made>) {
    forall i | 0 <= i < |ran| :: RunDue(ran, made, i)
  }

  lemma {:induction false} NeverRan(ran: seq<Run>, k: nat)
    requires forall r | r in ran :: r.sequence != k
    ensures LastRun(ran, k) == None
  {
    if ran != [] {
      assert ran[|ran| - 1] in ran;
      NeverRan(ran[..|ran| - 1], k);
    }
  }

  lemma LastRunAppend(ran: seq<Run>, r: Run, k: nat)
    ensures LastRun(ran + [r], k) == if r.sequence == k then Some(r) else LastRun(ran, k)
  {
    assert (ran + [r])[..|ran|] == ran;
  }

  lemma NewNumber(q: Queue, j: Journal, a: Addr)
    requires Inv(q) && Numbered(q, j) && a !in q.heap
    ensures LastRun(q.history.ran, |j.made| + 1) == None && !InBatch(q.done, a) && |q.history.created| == |j.made|
    ensures SameIntervals(q.heap, j.made)
  {
    hide AlarmKept, Ordered, IndexesAgree, Named, CancelKept, RunsMatch, LastRun;
    forall r | r in q.history.ran ensures r.sequence != |j.made| + 1 {
      assert r.sequence in q.history.inserted && r.sequence in q.history.created;
    }
    NeverRan(q.history.ran, |j.made| + 1);
    forall e | e in q.done ensures e.timer in q.heap {
      assert e in Batch(q);
    }
  }

  lemma DueCreate(q: Queue, j: Journal, a: Addr, when: int, interval: real)
    requires Inv(q) && Numbered(q, j) && Due(q, j.made) && a !in q.heap
    ensures Due(AfterCreate(q, a, when, interval), j.made + [Made(a, when, interval)])
  {
    hide Inv, Numbered, LastRun, InBatch;
    NewNumber(q, j, a);
  }

  lemma DueCancel(q: Queue, made: seq<Made>, id: ActiveTimer)
    requires Due(q, made)
    ensures Due(AfterCancel(q, id), made)
  {
    hide LastRun, DueAfter;
  }

  lemma DueBegin(q: Queue, made: seq<Made>, now: int, consumed: bool)
    requires Ordered(q) && Due(q, made) && !q.calling
    ensures Due(AfterBegin(q, now, consumed), made)
  {
    hide LastRun, DueAfter;
  }

  /** The timer about to run has not run in this batch, and no other has its number. */
  lemma AboutToRun(q: Queue)
    requires Placed(q) && q.toRun != []
    ensures var a := q.toRun[0].timer;
            && a in q.heap && !InBatch(q.done, a)
            && forall b | b in q.heap && q.heap[b].sequence == q.heap[a].sequence :: b == a
  {
    var e := q.toRun[0];
    RunAlone(q, e);
    hide IndexesAgree, Named;
    forall x | x in q.done ensures x.timer != e.timer {
      var i :| 0 <= i < |q.done| && q.done[i] == x;
      var all := q.done + q.toRun;
      assert all[i] == x && all[|q.done|] == e && x in Batch(q);
      assert Earlier(x, e);
    }
  }

  lemma RanOnce(q: Queue, r: Run, b: Addr)
    requires b in q.heap && q.toRun != [] && q.toRun[0].timer in q.heap
    requires r.sequence == q.heap[q.toRun[0].timer].sequence
    requires q.heap[b].sequence == r.sequence ==> b == q.toRun[0].timer
    ensures LastRun(q.history.ran + [r], q.heap[b].sequence)
            == if b == q.toRun[0].timer then Some(r) else LastRun(q.history.ran, q.heap[b].sequence)
    ensures InBatch(q.done + [q.toRun[0]], b) <==> InBatch(q.done, b) || b == q.toRun[0].timer
  {
    LastRunAppend(q.history.ran, r, q.heap[b].sequence);
    hide LastRun;
    var e := q.toRun[0];
    assert e in q.done + [e] && forall x | x in q.done :: x in q.done + [e];
  }

  lemma DueRun(q: Queue, j: Journal)
    requires Placed(q) && Due(q, j.made) && q.toRun != [] && q.toRun[0].timer in q.heap
    ensures Due(AfterRun(q), j.made)
  {
    hide Placed, LastRun, DueAfter, InBatch;
    AboutToRun(q);
    var r := AfterRun(q).history.ran[|q.history.ran|];
    forall b | b in q.heap
      ensures LastRun(q.history.ran + [r], q.heap[b].sequence)
              == if b == q.toRun[0].timer then Some(r) else LastRun(q.history.ran, q.heap[b].sequence)
      ensures InBatch(q.done + [q.toRun[0]], b) <==> InBatch(q.done, b) || b == q.toRun[0].timer
    {
      RanOnce(q, r, b);
    }
  }

  lemma RunsDueRun(q: Queue, j: Journal)
    requires Placed(q) && Numbered(q, j) && Due(q, j.made) && RunsDue(q.history.ran, j.made)
    requires q.toRun != [] && q.toRun[0].timer in q.heap
    ensures RunsDue(AfterRun(q).history.ran, j.made)
  {
    AboutToRun(q);
    hide Placed, LastRun, DueAfter;
    var ran, ran' := q.history.ran, AfterRun(q).history.ran;
    forall i | 0 <= i < |ran'| ensures RunDue(ran', j.made, i) {
      assert ran'[..i] == ran[..i];
      if i < |ran| {
        assert RunDue(ran, j.made, i);
      } else {
        assert ran[..i] == ran;
      }
    }
  }

  lemma RestBatch(q: Queue, a: Addr)
    requires Recyclable(q) && q.done != []
    ensures InBatch(q.done, a) <==> InBatch(q.done[1..], a) || a == q.done[0].timer
    ensures !InBatch(q.done[1..], q.done[0].timer)
  {
    assert q.done == [q.done[0]] + q.done[1..];
    forall e | e in q.done[1..] ensures e.timer != q.done[0].timer {
      RestOfBatch(q, e);
    }
  }

  lemma DueRecycleFirst(q: Queue, made: seq<Made>)
    requires Recyclable(q) && Due(q, made) && SameIntervals(q.heap, made) && q.done != [] && q.done[0].timer in q.heap
    ensures Due(RecycleFirst(q), made) && SameIntervals(RecycleFirst(q).heap, made)
  {
    hide LastRun, Recyclable, InBatch;
    var a := q.done[0].timer;
    RestBatch(q, a);
    forall b | b in q.heap && b != a
      ensures InBatch(q.done, b) <==> InBatch(q.done[1..], b)
    {
      RestBatch(q, b);
    }
  }

  lemma {:induction false} DueRecycle(q: Queue, made: seq<Made>)
    requires Recyclable(q) && Due(q, made) && SameIntervals(q.heap, made)
    ensures Due(RecycleAll(q), made)
    decreases |q.done|
  {
    if q.done != [] {
      assert q.done[0] in q.done;
      DueRecycleFirst(q, made);
      StillRecyclable(q);
      hide Due, Recyclable, SameIntervals;
      DueRecycle(RecycleFirst(q), made);
    }
  }

  lemma DueEnd(q: Queue, j: Journal, clock: int)
    requires Numbered(q, j) && Due(q, j.made) && MemorySafe(q, End(clock))
    ensures Due(Rearmed(RecycleAll(q), clock), j.made)
  {
    hide LastRun, DueAfter, RecycleAll;
    DueRecycle(q, j.made);
  }

  lemma MoreMade(ran: seq<Run>, made: seq<Made>, m: Made)
    requires RunsDue(ran, made)
    ensures RunsDue(ran, made + [m])
  {
    hide LastRun;
    forall i | 0 <= i < |ran| ensures RunDue(ran, made + [m], i) {
      assert RunDue(ran, made, i);
    }
  }

  lemma DueStep(q: Queue, j: Journal, step: Step)
    requires Inv(q) && Numbered(q, j) && Due(q, j.made) && Enabled(q, step) && MemorySafe(q, step)
    ensures Due(Next(q, step), Written(j, step).made)
  {
    hide Accounted, AlarmKept, Ordered, Located, IndexesAgree, Named, Numbered, Due;
    hide AfterCreate, AfterCancel, AfterBegin, AfterRun, RecycleAll, Rearmed, Recyclable, FirstLive;
    match step
    case Create(a, when, interval) => DueCreate(q, j, a, when, interval);
    case AddInLoop(a, clock) => DueAdd(q, j.made, a, clock);
    case Cancel(id) => DueCancel(q, j.made, id);
    case Begin(now, consumed) => DueBegin(q, j.made, now, consumed);
    case RunNext => DueRun(q, j);
    case End(clock) => DueEnd(q, j, clock);
  }

  lemma DueAdd(q: Queue, made: seq<Made>, a: Addr, clock: int)
    requires Due(q, made) && a in q.heap
    ensures Due(AfterAdd(q, a, clock), made)
  {
    hide LastRun, DueAfter;
  }

  lemma RunsDueStep(q: Queue, j: Journal, step: Step)
    requires Inv(q) && Numbered(q, j) && Due(q, j.made) && RunsDue(q.history.ran, j.made)
    requires Enabled(q, step) && MemorySafe(q, step)
    ensures RunsDue(Next(q, step).history.ran, Written(j, step).made)
  {
    hide Accounted, AlarmKept, Ordered, Located, IndexesAgree, Named, Numbered, Due, RunsDue;
    match step
    case Create(a, when, interval) => MoreMade(q.history.ran, j.made, Made(a, when, interval));
    case RunNext => RunsDueRun(q, j);
    case End(clock) => RecycleKeeps(q);
    case _ =>
  }

  // ---- every run

  ghost predicate Matches(q: Queue, j: Journal) {
    Numbered(q, j) && Listed(q, j) && Turns(q, j) && Due(q, j.made) && RunsDue(q.history.ran, j.made)
  }

  lemma MatchesStep(q: Queue, j: Journal, step: Step)
    requires Inv(q) && Matches(q, j) && Enabled(q, step) && MemorySafe(q, step)
    ensures Matches(Next(q, step), Written(j, step))
  {
    hide Inv, Numbered, Listed, Turns, Due, RunsDue, Next, Enabled, MemorySafe, Written;
    NumberedStep(q, j, step);
    ListedStep(q, j, step);
    TurnsStep(q, j, step);
    DueStep(q, j, step);
    RunsDueStep(q, j, step);
  }

  lemma PerformedFirst(q: Queue, steps: seq<Step>)
    requires steps != [] && Enabled(q, steps[0]) && MemorySafe(q, steps[0])
    ensures var p := Performed(q, steps);
            p != [] && p[0] == steps[0] && p[1..] == Performed(Next(q, steps[0]), steps[1..])
  {
  }

  lemma {:induction false} MatchesExec(q: Queue, j: Journal, steps: seq<Step>)
    requires Inv(q) && Matches(q, j)
    ensures Matches(Exec(q, steps), Journaled(j, Performed(q, steps)))
    decreases |steps|
  {
    hide Inv, Matches, Next, Enabled, MemorySafe, Written;
    if steps != [] && Enabled(q, steps[0]) {
      StepInv(q, steps[0]);
      MatchesStep(q, j, steps[0]);
      PerformedFirst(q, steps);
      MatchesExec(Next(q, steps[0]), Written(j, steps[0]), steps[1..]);
    }
  }

  lemma ReachedMatches(steps: seq<Step>)
    ensures Matches(Reached(steps), JournalOf(steps))
  {
    hide Exec, Performed, Journaled, Inv;
    InitInv();
    MatchesExec(Init(), Start(), steps);
  }

  /**
   * In every run, callback number `i` is of a timer that was made, in the batch and at the time of the step that ran it.
   * The first callback of a timer is due when its creator asked, and each later one an interval after the batch of the
   * one before, which only a repeating timer has.
   */
  lemma RunsWhenDue(steps: seq<Step>, i: nat)
    requires i < |Reached(steps).history.ran|
    ensures var ran, j := Reached(steps).history.ran, JournalOf(steps);
            var r, last := ran[i], LastRun(ran[..i], ran[i].sequence);
            && |ran| == |j.turns| && r.now == j.turns[i].now && r.batch == j.turns[i].batch
            && 1 <= r.sequence <= |j.made|
            && var m := j.made[r.sequence - 1];
               && (last.None? ==> r.expiration == m.when)
               && (last.Some? ==> m.interval > 0.0 && OneIntervalLater(m.interval, last.value.now, r.expiration))
               && r.expiration <= r.now
  {
    hide Exec, Performed, Journaled, LastRun, Due, Numbered, Listed, OneIntervalLater;
    ReachedMatches(steps);
    RunsAreRight(steps);
    var ran, j := Reached(steps).history.ran, JournalOf(steps);
    var r, last := ran[i], LastRun(ran[..i], ran[i].sequence);
    assert RunDue(ran, j.made, i) && r in ran;
    if last.Some? {
      WholeMicroseconds(j.made[r.sequence - 1].interval, last.value.now);
      LastRunIs(ran[..i], r.sequence);
    }
  }

  lemma {:induction false} LastRunIs(ran: seq<Run>, k: nat)
    requires LastRun(ran, k).Some?
    ensures exists n | 0 <= n < |ran| :: ran[n] == LastRun(ran, k).value && ran[n].sequence == k
  {
    if ran[|ran| - 1].sequence != k {
      LastRunIs(ran[..|ran| - 1], k);
    }
  }

  /** In every run, a pending timer is one that was made and added, and is to expire when it is due. */
  lemma PendingWhenDue(steps: seq<Step>, e: Entry)
    requires e in Reached(steps).timers
    ensures var q, j := Reached(steps), JournalOf(steps);
            && e.timer in q.heap && 1 <= q.heap[e.timer].sequence <= |j.made|
            && var k := q.heap[e.timer].sequence;
               var m, last := j.made[k - 1], LastRun(q.history.ran, k);
               && m.addr == e.timer && k in j.added
               && (last.None? ==> e.when == m.when)
               && (last.Some? ==> OneIntervalLater(m.interval, last.value.now, e.when))
  {
    hide Exec, Performed, Journaled, LastRun, Inv, Due, Numbered, Listed, Turns, RunsDue, OneIntervalLater;
    ReachedInv(steps);
    ReachedMatches(steps);
    BatchIsApart(steps);
    var q, j := Reached(steps), JournalOf(steps);
    PendingFacts(q, e);
    NumberedFacts(q, j, e.timer);
    ListedFacts(q, j);
    DueFacts(q, j.made, e);
    var k := q.heap[e.timer].sequence;
    if LastRun(q.history.ran, k).Some? {
      WholeMicroseconds(j.made[k - 1].interval, LastRun(q.history.ran, k).value.now);
    }
  }

  lemma PendingFacts(q: Queue, e: Entry)
    requires Inv(q) && e in q.timers
    ensures e.timer in q.heap && q.heap[e.timer].expiration == e.when
    ensures var k := q.heap[e.timer].sequence;
            k in q.history.inserted && k in q.history.created && q.history.created[k] == e.timer
    ensures forall x | x in q.done :: x.timer != e.timer
  {
    hide CancelKept, RunsRight, RunsMatch, AlarmKept, IndexesAgree, OneShotRan, Distinct;
    assert e in Elems(q.timers);
    forall x | x in q.done ensures x.timer != e.timer {
      assert x in Batch(q);
    }
  }

  lemma NumberedFacts(q: Queue, j: Journal, a: Addr)
    requires Numbered(q, j) && a in q.heap && q.heap[a].sequence in q.history.created
    ensures var k := q.heap[a].sequence;
            && 1 <= k <= |j.made| && q.history.created[k] == j.made[k - 1].addr
            && q.heap[a].interval == j.made[k - 1].interval
  {
  }

  lemma ListedFacts(q: Queue, j: Journal)
    requires Listed(q, j)
    ensures q.history.inserted == j.added
  {
  }

  lemma DueFacts(q: Queue, made: seq<Made>, e: Entry)
    requires Due(q, made) && e.timer in q.heap && 1 <= q.heap[e.timer].sequence <= |made|
    requires forall x | x in q.done :: x.timer != e.timer
    ensures var k := q.heap[e.timer].sequence;
            q.heap[e.timer].expiration == DueAfter(made[k - 1], LastRun(q.history.ran, k))
  {
    hide LastRun, DueAfter;
  }

  /** In every run, a timer is deleted only after cancel was called with its id, or as a one-shot that has run. */
  lemma DeletedForCause(steps: seq<Step>, k: nat)
    requires k in Reached(steps).history.freed
    ensures var q, j := Reached(steps), JournalOf(steps);
            && 1 <= k <= |j.made| && k in j.added
            && (|| ActiveTimer(j.made[k - 1].addr, k) in j.cancels
                || (j.made[k - 1].interval <= 0.0 && exists r | r in q.history.ran :: r.sequence == k))
  {
    hide Exec, Performed, Journaled, Due, Turns, LastRun;
    hide CancelKept, RunsMatch, RunsRight, AlarmKept, Ordered, Located, IndexesAgree;
    ReachedInv(steps);
    ReachedMatches(steps);
    var q, j := Reached(steps), JournalOf(steps);
    if k !in q.history.cancelled {
      var r :| r in q.history.ran && r.sequence == k && !r.repeats;
      var i :| 0 <= i < |q.history.ran| && q.history.ran[i] == r;
      assert RunDue(q.history.ran, j.made, i);
    }
  }

  // ---- single steps

  /** A batch takes exactly the timers that are due, in the order of their expirations. */
  lemma BatchTakesAllDue(steps: seq<Step>, now: int, consumed: bool)
    requires Enabled(Reached(steps), Begin(now, consumed))
    ensures var q, q' := Reached(steps), AfterBegin(Reached(steps), now, consumed);
            && q'.toRun + q'.timers == q.timers && q'.calling
            && (forall e | e in q'.toRun :: e.when <= now) && (forall e | e in q'.timers :: now < e.when)
  {
    hide Exec, Inv;
    ReachedInv(steps);
    DueFirst(Reached(steps), now);
  }

  lemma DueFirst(q: Queue, now: int)
    requires Inv(q)
    ensures var n := ExpiredCount(q.timers, now);
            && q.timers[..n] + q.timers[n..] == q.timers
            && (forall e | e in q.timers[..n] :: e.when <= now) && (forall e | e in q.timers[n..] :: now < e.when)
  {
    hide Accounted, AlarmKept, IndexesAgree, Named, ExpiredCount;
    assert forall e | e in q.timers :: e in Elems(q.timers);
    ExpiredSplit(q.timers, now);
  }

  /** What reset() makes of a timer of the finished batch. */
  ghost predicate RestartedOrDeleted(q: Queue, q': Queue, e: Entry)
    requires e.timer in q.heap
  {
    var t := q.heap[e.timer];
    if t.interval > 0.0 && ActiveTimer(e.timer, t.sequence) !in q.canceling then
      && e.timer in q'.heap && q'.heap[e.timer].sequence == t.sequence && q'.heap[e.timer].interval == t.interval
      && Entry(q'.heap[e.timer].expiration, e.timer) in q'.timers
      && OneIntervalLater(t.interval, q.now, q'.heap[e.timer].expiration)
    else
      e.timer !in q'.heap && t.sequence in q'.history.freed
  }

  /** The timers left out of the batch, and what was pending, stay as they are. */
  ghost predicate OthersStay(q: Queue, q': Queue) {
    && (forall x | x in q.timers :: x in q'.timers) && q.history.freed <= q'.history.freed
    && (forall a | a in q.heap && !InBatch(q.done, a) :: a in q'.heap && q'.heap[a] == q.heap[a])
  }

  lemma InsertHolds(ts: seq<Entry>, e: Entry)
    ensures e in InsertEntry(ts, e) && forall x | x in ts :: x in InsertEntry(ts, e)
  {
  }

  lemma RecycleFirstDone(q: Queue)
    requires Recyclable(q) && q.done != [] && q.done[0].timer in q.heap
    ensures RestartedOrDeleted(q, RecycleFirst(q), q.done[0]) && OthersStay(q, RecycleFirst(q))
    ensures RecycleFirst(q).canceling == q.canceling && RecycleFirst(q).now == q.now
  {
    hide OneIntervalLater;
    var a := q.done[0].timer;
    var t := q.heap[a];
    WholeMicroseconds(t.interval, q.now);
    InsertHolds(q.timers, Entry(t.Restarted(q.now).expiration, a));
    assert q.done[0] in q.done;
  }

  lemma {:induction false} RecycleAllDone(q: Queue)
    requires Recyclable(q)
    ensures OthersStay(q, RecycleAll(q))
    ensures forall e | e in q.done :: RestartedOrDeleted(q, RecycleAll(q), e)
    decreases |q.done|
  {
    if q.done != [] {
      assert q.done[0] in q.done;
      var q1 := RecycleFirst(q);
      RecycleFirstDone(q);
      StillRecyclable(q);
      RecycleAllDone(q1);
      forall e | e in q.done ensures RestartedOrDeleted(q, RecycleAll(q), e) {
        RecycledInTurn(q, e);
      }
      forall a | a in q.heap && !InBatch(q.done, a) ensures !InBatch(q1.done, a) {
        RestBatch(q, a);
      }
    }
  }

  /** Once out of the batch, a timer stays as it was left. */
  lemma RestartedStays(q: Queue, q1: Queue, q2: Queue, e: Entry)
    requires e.timer in q.heap && RestartedOrDeleted(q, q1, e) && OthersStay(q1, q2) && !InBatch(q1.done, e.timer)
    requires q2.heap.Keys <= q1.heap.Keys
    ensures RestartedOrDeleted(q, q2, e)
  {
    hide OneIntervalLater, InBatch;
  }

  /** A timer whose turn is yet to come is as it was. */
  lemma RestartedLater(q: Queue, q1: Queue, q2: Queue, e: Entry)
    requires e.timer in q.heap && e.timer in q1.heap && q1.heap[e.timer] == q.heap[e.timer]
    requires q1.canceling == q.canceling && q1.now == q.now && RestartedOrDeleted(q1, q2, e)
    ensures RestartedOrDeleted(q, q2, e)
  {
    hide OneIntervalLater;
  }

  lemma RecycledInTurn(q: Queue, e: Entry)
    requires Recyclable(q) && e in q.done && q.done[0].timer in q.heap && Recyclable(RecycleFirst(q))
    requires e.timer in q.heap
    requires var q1 := RecycleFirst(q); RestartedOrDeleted(q, q1, q.done[0]) && OthersStay(q1, RecycleAll(q1))
    requires var q1 := RecycleFirst(q); forall x | x in q1.done :: RestartedOrDeleted(q1, RecycleAll(q1), x)
    ensures RestartedOrDeleted(q, RecycleAll(q), e)
  {
    hide RestartedOrDeleted, OthersStay, InBatch, InsertEntry, Recyclable;
    RestBatch(q, e.timer);
    var q1 := RecycleFirst(q);
    if e == q.done[0] {
      RecycleKeeps(q1);
      RestartedStays(q, q1, RecycleAll(q1), e);
    } else {
      assert e in q.done[1..];
      RestOfBatch(q, e);
      RestartedLater(q, q1, RecycleAll(q1), e);
    }
  }

  /**
   * When a batch ends, every repeating timer of it that was not cancelled in the meantime is pending again, an interval
   * after the batch's `now`; every other one is deleted; and all timers outside the batch stay as they are.
   */
  lemma EndRestarts(steps: seq<Step>, clock: int)
    requires Enabled(Reached(steps), End(clock))
    ensures MemorySafe(Reached(steps), End(clock))
    ensures var q, q' := Reached(steps), Next(Reached(steps), End(clock));
            && OthersStay(q, q')
            && forall e | e in q.done :: e.timer in q.heap && RestartedOrDeleted(q, q', e)
  {
    hide Exec, Inv, RecycleAll, OneIntervalLater;
    ReachedInv(steps);
    NeverTouchesDeleted(steps, End(clock));
    RecycleAllDone(Reached(steps));
  }

  /** The later of an expiration and 100 microseconds after `clock`. */
  function AtLeastSoon(expiration: int, clock: int): int {
    if expiration >= clock + 100 then expiration else clock + 100
  }

  /**
   * The timerfd is armed exactly when a timer becomes the first to expire or a batch ends with one pending: for its
   * expiration, or for 100 microseconds later if that is sooner. Only its own expiry disarms it.
   */
  lemma ArmedExactly(steps: seq<Step>, step: Step)
    requires Enabled(Reached(steps), step)
    ensures MemorySafe(Reached(steps), step)
    ensures var q, q' := Reached(steps), Next(Reached(steps), step);
            match step
            case AddInLoop(a, clock) =>
              q'.alarm == if forall x | x in q.timers :: q.heap[a].expiration < x.when
                          then Armed(AtLeastSoon(q.heap[a].expiration, clock), clock) else q.alarm
            case End(clock) =>
              q'.alarm == if q'.timers != [] && q'.timers[0].when > 0
                          then Armed(AtLeastSoon(q'.timers[0].when, clock), clock) else q.alarm
            case Begin(_, consumed) => q'.alarm == if consumed then Disarmed else q.alarm
            case _ => q'.alarm == q.alarm
  {
    hide Exec, Accounted, AlarmKept, IndexesAgree, Named, RecycleAll;
    ReachedInv(steps);
    NeverTouchesDeleted(steps, step);
    var q := Reached(steps);
    if step.AddInLoop? {
      FirstIsLeast(q.timers, q.heap[step.addr].expiration);
    } else if step.End? {
      RecycleInv(q);
      RecycleAlarm(q);
      if RecycleAll(q).timers != [] {
        FirstUnderKey(RecycleAll(q));
      }
    }
  }

  lemma FirstIsLeast(ts: seq<Entry>, when: int)
    requires Sorted(ts)
    ensures (ts == [] || when < ts[0].when) <==> forall x | x in ts :: when < x.when
  {
  }

  lemma FirstUnderKey(q: Queue)
    requires Placed(q) && q.timers != []
    ensures q.timers[0].timer in q.heap && q.heap[q.timers[0].timer].expiration == q.timers[0].when
  {
    assert q.timers[0] in Elems(q.timers);
  }

  lemma {:induction false} RecycleAlarm(q: Queue)
    requires Recyclable(q)
    ensures RecycleAll(q).alarm == q.alarm
    decreases |q.done|
  {
    if q.done != [] {
      assert q.done[0] in q.done;
      StillRecyclable(q);
      RecycleAlarm(RecycleFirst(q));
    }
  }
}
