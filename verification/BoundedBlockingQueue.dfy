/**
 * A bounded queue with one mutex and two condition variables (src/muduo/base/BoundedBlockingQueue.h), as
 * interleaved critical sections. A section runs from taking the mutex, on entry or after a wakeup, to
 * waiting or returning. Signals wake at least one waiter if there is one; wakeups may be spurious.
 */
module QueueRuns {

  type Tid = nat

  datatype Monitor<T> = Monitor(
    capacity: nat,
    queue: seq<T>,
    items: map<Tid, T>,           // what each blocked putter wants to put
    waitingTakers: set<Tid>,      // blocked on notEmpty_
    wokenTakers: set<Tid>,        // woken, about to look again
    waitingPutters: set<Tid>,     // blocked on notFull_
    wokenPutters: set<Tid>,
    put: seq<T>,                  // every item put, in order
    taken: seq<T>)

  datatype Step<T> =
    | Put(thread: Tid, item: T, notified: set<Tid>)
    | RetryPut(thread: Tid, notified: set<Tid>)
    | Take(thread: Tid, notified: set<Tid>)
    | RetryTake(thread: Tid, notified: set<Tid>)
    | SpuriousTaker(thread: Tid)
    | SpuriousPutter(thread: Tid)

  function Init<T>(capacity: nat): Monitor<T> {
    Monitor(capacity, [], map[], {}, {}, {}, {}, [], [])
  }

  /** pthread_cond_signal: at least one of the waiting threads, if any. */
  predicate Signals(waiting: set<Tid>, notified: set<Tid>) {
    notified <= waiting && (waiting != {} ==> notified != {})
  }

  predicate Idle<T>(m: Monitor<T>, t: Tid) {
    t !in m.waitingTakers && t !in m.wokenTakers && t !in m.waitingPutters && t !in m.wokenPutters
  }

  predicate Enabled<T>(m: Monitor<T>, step: Step<T>) {
    match step
    case Put(t, _, notified) => Idle(m, t) && Signals(m.waitingTakers, notified)
    case RetryPut(t, notified) => t in m.wokenPutters && t in m.items && Signals(m.waitingTakers, notified)
    case Take(t, notified) => Idle(m, t) && Signals(m.waitingPutters, notified)
    case RetryTake(t, notified) => t in m.wokenTakers && Signals(m.waitingPutters, notified)
    case SpuriousTaker(t) => t in m.waitingTakers
    case SpuriousPutter(t) => t in m.waitingPutters
  }

  function PutSection<T>(m: Monitor<T>, t: Tid, x: T, notified: set<Tid>): Monitor<T> {
    if |m.queue| >= m.capacity then
      m.(waitingPutters := m.waitingPutters + {t}, items := m.items[t := x])
    else
      m.(queue := m.queue + [x], put := m.put + [x],
         waitingTakers := m.waitingTakers - notified, wokenTakers := m.wokenTakers + notified)
  }

  function TakeSection<T>(m: Monitor<T>, t: Tid, notified: set<Tid>): Monitor<T> {
    if m.queue == [] then
      m.(waitingTakers := m.waitingTakers + {t})
    else
      m.(queue := m.queue[1..], taken := m.taken + [m.queue[0]],
         waitingPutters := m.waitingPutters - notified, wokenPutters := m.wokenPutters + notified)
  }

  function Next<T>(m: Monitor<T>, step: Step<T>): Monitor<T>
    requires Enabled(m, step)
  {
    match step
    case Put(t, x, notified) => PutSection(m, t, x, notified)
    case RetryPut(t, notified) => PutSection(m.(wokenPutters := m.wokenPutters - {t}), t, m.items[t], notified)
    case Take(t, notified) => TakeSection(m, t, notified)
    case RetryTake(t, notified) => TakeSection(m.(wokenTakers := m.wokenTakers - {t}), t, notified)
    case SpuriousTaker(t) => m.(waitingTakers := m.waitingTakers - {t}, wokenTakers := m.wokenTakers + {t})
    case SpuriousPutter(t) => m.(waitingPutters := m.waitingPutters - {t}, wokenPutters := m.wokenPutters + {t})
  }

  function Exec<T>(m: Monitor<T>, steps: seq<Step<T>>): Monitor<T>
    decreases |steps|
  {
    if steps == [] || !Enabled(m, steps[0]) then m else Exec(Next(m, steps[0]), steps[1..])
  }
}

module QueueTheorems {
  import opened QueueRuns

  predicate Apart<T>(m: Monitor<T>) {
    && m.waitingTakers !! m.wokenTakers !! m.waitingPutters !! m.wokenPutters
    && m.waitingPutters + m.wokenPutters <= m.items.Keys
  }

  /** First in, first out, within the capacity. */
  ghost predicate Fifo<T>(m: Monitor<T>) {
    m.taken + m.queue == m.put && |m.queue| <= m.capacity
  }

  /** While a taker is blocked, at least as many takers are awake as there are items. */
  predicate TakersServed<T>(m: Monitor<T>) {
    m.waitingTakers != {} ==> |m.wokenTakers| >= |m.queue|
  }

  /** While a putter is blocked, at least as many putters are awake as there are free slots. */
  predicate PuttersServed<T>(m: Monitor<T>) {
    m.waitingPutters != {} ==> |m.wokenPutters| >= m.capacity - |m.queue|
  }

  ghost predicate Inv<T>(m: Monitor<T>) {
    Apart(m) && Fifo(m) && TakersServed(m) && PuttersServed(m)
  }

  lemma StepApart<T>(m: Monitor<T>, step: Step<T>)
    requires Apart(m) && Enabled(m, step)
    ensures Apart(Next(m, step))
  {
  }

  lemma StepFifo<T>(m: Monitor<T>, step: Step<T>)
    requires Fifo(m) && Enabled(m, step)
    ensures Fifo(Next(m, step))
  {
  }

  lemma SubsetSize(a: set<Tid>, b: set<Tid>)
    requires a <= b
    ensures |a| <= |b|
  {
    assert b == a + (b - a);
  }

  lemma PutServed<T>(m: Monitor<T>, t: Tid, x: T, notified: set<Tid>)
    requires TakersServed(m) && Fifo(m) && m.waitingTakers !! m.wokenTakers && Signals(m.waitingTakers, notified)
    requires PuttersServed(m) || |m.wokenPutters| + 1 >= m.capacity - |m.queue|
    requires t !in m.wokenPutters
    ensures TakersServed(PutSection(m, t, x, notified)) && PuttersServed(PutSection(m, t, x, notified))
  {
  }

  lemma TakeServed<T>(m: Monitor<T>, t: Tid, notified: set<Tid>)
    requires PuttersServed(m) && Fifo(m) && m.waitingPutters !! m.wokenPutters && Signals(m.waitingPutters, notified)
    requires TakersServed(m) || |m.wokenTakers| + 1 >= |m.queue|
    requires t !in m.wokenTakers
    ensures TakersServed(TakeSection(m, t, notified)) && PuttersServed(TakeSection(m, t, notified))
  {
  }

  lemma LoseOne(woken: set<Tid>, t: Tid)
    requires t in woken
    ensures |woken - {t}| == |woken| - 1
  {
  }

  lemma GainOne(woken: set<Tid>, t: Tid)
    ensures |woken + {t}| >= |woken|
  {
    SubsetSize(woken, woken + {t});
  }

  lemma StepServed<T>(m: Monitor<T>, step: Step<T>)
    requires Inv(m) && Enabled(m, step)
    ensures TakersServed(Next(m, step)) && PuttersServed(Next(m, step))
  {
    hide PutSection, TakeSection;
    match step
    case Put(t, x, notified) => PutServed(m, t, x, notified);
    case RetryPut(t, notified) =>
      LoseOne(m.wokenPutters, t);
      PutServed(m.(wokenPutters := m.wokenPutters - {t}), t, m.items[t], notified);
    case Take(t, notified) => TakeServed(m, t, notified);
    case RetryTake(t, notified) =>
      LoseOne(m.wokenTakers, t);
      TakeServed(m.(wokenTakers := m.wokenTakers - {t}), t, notified);
    case SpuriousTaker(t) => GainOne(m.wokenTakers, t);
    case SpuriousPutter(t) => GainOne(m.wokenPutters, t);
  }

  lemma StepInv<T>(m: Monitor<T>, step: Step<T>)
    requires Inv(m) && Enabled(m, step)
    ensures Inv(Next(m, step))
  {
    hide Apart, Fifo, TakersServed, PuttersServed, Enabled, Next;
    StepApart(m, step);
    StepFifo(m, step);
    StepServed(m, step);
  }

  lemma {:induction false} ExecInv<T>(m: Monitor<T>, steps: seq<Step<T>>)
    requires Inv(m)
    ensures Inv(Exec(m, steps))
    decreases |steps|
  {
    hide Inv, Enabled, Next;
    if steps != [] && Enabled(m, steps[0]) {
      StepInv(m, steps[0]);
      ExecInv(Next(m, steps[0]), steps[1..]);
    }
  }

  /** In every run items leave in the order they came, within the capacity, and no blocked thread is forgotten. */
  lemma RunsServe<T>(capacity: nat, steps: seq<Step<T>>)
    ensures var m := Exec(Init(capacity), steps);
            && m.taken + m.queue == m.put && |m.queue| <= capacity
            && (m.waitingTakers != {} ==> |m.wokenTakers| >= |m.queue|)
            && (m.waitingPutters != {} ==> |m.wokenPutters| >= capacity - |m.queue|)
  {
    hide Exec, Apart;
    InitInv<T>(capacity);
    ExecInv(Init(capacity), steps);
    SameCapacity(Init<T>(capacity), steps);
  }

  lemma InitInv<T>(capacity: nat)
    ensures Inv(Init<T>(capacity))
  {
  }

  lemma {:induction false} SameCapacity<T>(m: Monitor<T>, steps: seq<Step<T>>)
    ensures Exec(m, steps).capacity == m.capacity
    decreases |steps|
  {
    if steps != [] && Enabled(m, steps[0]) {
      SameCapacity(Next(m, steps[0]), steps[1..]);
    }
  }

  /** Takers and putters block each other with nobody awake. */
  predicate Stuck<T>(m: Monitor<T>) {
    m.waitingTakers != {} && m.waitingPutters != {} && m.wokenTakers == {} && m.wokenPutters == {}
  }

  lemma NeverStuck<T>(capacity: nat, steps: seq<Step<T>>)
    requires capacity > 0
    ensures !Stuck(Exec(Init(capacity), steps))
  {
    hide Exec;
    RunsServe(capacity, steps);
  }

  lemma StuckWithoutCapacity<T>(x: T)
    ensures Stuck(Exec(Init(0), [Take(0, {}), Put(1, x, {0})]))
  {
    var steps := [Take(0, {}), Put(1, x, {0})];
    var m := Next(Init<T>(0), steps[0]);
    assert steps[1..] == [Put(1, x, {0})] && Exec(Next(m, steps[1]), []) == Next(m, steps[1]);
    assert Exec(m, steps[1..]) == Next(m, steps[1]);
  }

  /** No run gets takers and putters stuck on each other exactly when the capacity is positive. */
  lemma NeverStuckExactly<T(!new)>(capacity: nat, x: T)
    ensures (forall steps: seq<Step<T>> :: !Stuck(Exec(Init(capacity), steps))) <==> capacity > 0
  {
    hide Exec, Stuck;
    if capacity > 0 {
      forall steps: seq<Step<T>> ensures !Stuck(Exec(Init(capacity), steps)) {
        NeverStuck(capacity, steps);
      }
    } else {
      var steps: seq<Step<T>> := [Take(0, {}), Put(1, x, {0})];
      StuckWithoutCapacity(x);
      assert Stuck(Exec(Init(capacity), steps));
    }
  }
}

/** The monitor against a bounded queue without condition variables, driven by the calls and retries alone. */
module QueueRefinement {
  import opened QueueRuns
  import opened QueueTheorems

  /** The steps of the list that are performed: all up to the first that cannot happen. */
  function Performed<T>(m: Monitor<T>, steps: seq<Step<T>>): seq<Step<T>>
    decreases |steps|
  {
    if steps == [] || !Enabled(m, steps[0]) then [] else [steps[0]] + Performed(Next(m, steps[0]), steps[1..])
  }

  /** Items stored, how many of them were taken, and the threads that have not got what they came for. */
  datatype Plain<T> = Plain(capacity: nat, stored: seq<T>, taken: nat, putting: map<Tid, T>, taking: set<Tid>)

  function Offered<T>(p: Plain<T>, t: Tid, x: T): Plain<T> {
    if |p.stored| - p.taken < p.capacity then p.(stored := p.stored + [x], putting := p.putting - {t})
    else p.(putting := p.putting[t := x])
  }

  function Asked<T>(p: Plain<T>, t: Tid): Plain<T> {
    if p.taken < |p.stored| then p.(taken := p.taken + 1, taking := p.taking - {t}) else p.(taking := p.taking + {t})
  }

  function Tried<T>(p: Plain<T>, step: Step<T>): Plain<T> {
    match step
    case Put(t, x, _) => Offered(p, t, x)
    case RetryPut(t, _) => if t in p.putting then Offered(p, t, p.putting[t]) else p
    case Take(t, _) => Asked(p, t)
    case RetryTake(t, _) => Asked(p, t)
    case _ => p
  }

  function TriedAll<T>(p: Plain<T>, steps: seq<Step<T>>): Plain<T>
    decreases |steps|
  {
    if steps == [] then p else TriedAll(Tried(p, steps[0]), steps[1..])
  }

  ghost predicate Holds<T>(m: Monitor<T>, p: Plain<T>) {
    && m.capacity == p.capacity && p.taken <= |p.stored|
    && m.put == p.stored && m.taken == p.stored[..p.taken] && m.queue == p.stored[p.taken..]
  }

  ghost predicate Blocks<T>(m: Monitor<T>, p: Plain<T>) {
    && m.waitingTakers + m.wokenTakers == p.taking
    && m.waitingPutters + m.wokenPutters == p.putting.Keys
    && (forall t | t in p.putting :: t in m.items && m.items[t] == p.putting[t])
  }

  lemma HoldsStep<T>(m: Monitor<T>, p: Plain<T>, step: Step<T>)
    requires Holds(m, p) && Blocks(m, p) && Enabled(m, step)
    ensures Holds(Next(m, step), Tried(p, step))
  {
  }

  lemma BlocksPut<T>(m: Monitor<T>, p: Plain<T>, t: Tid, x: T, notified: set<Tid>)
    requires Holds(m, p) && m.waitingTakers + m.wokenTakers == p.taking && notified <= m.waitingTakers
    requires m.waitingPutters + m.wokenPutters == p.putting.Keys - {t}
    requires forall u | u in p.putting && u != t :: u in m.items && m.items[u] == p.putting[u]
    ensures Blocks(PutSection(m, t, x, notified), Offered(p, t, x))
  {
    assert p.putting[t := x].Keys == (p.putting.Keys - {t}) + {t} && (p.putting - {t}).Keys == p.putting.Keys - {t};
    assert m.waitingPutters + {t} + m.wokenPutters == (p.putting.Keys - {t}) + {t};
    assert (m.waitingTakers - notified) + (m.wokenTakers + notified) == p.taking;
  }

  lemma BlocksTake<T>(m: Monitor<T>, p: Plain<T>, t: Tid, notified: set<Tid>)
    requires Holds(m, p) && m.waitingTakers + m.wokenTakers == p.taking - {t} && notified <= m.waitingPutters
    requires m.waitingPutters + m.wokenPutters == p.putting.Keys
    requires forall u | u in p.putting :: u in m.items && m.items[u] == p.putting[u]
    ensures Blocks(TakeSection(m, t, notified), Asked(p, t))
  {
    assert m.waitingTakers + {t} + m.wokenTakers == (p.taking - {t}) + {t} == p.taking + {t};
    assert (m.waitingPutters - notified) + (m.wokenPutters + notified) == p.putting.Keys;
  }

  lemma BlocksStep<T>(m: Monitor<T>, p: Plain<T>, step: Step<T>)
    requires Apart(m) && Holds(m, p) && Blocks(m, p) && Enabled(m, step)
    ensures Blocks(Next(m, step), Tried(p, step))
  {
    hide PutSection, TakeSection, Offered, Asked, Holds;
    match step
    case Put(t, x, notified) => BlocksPut(m, p, t, x, notified);
    case RetryPut(t, notified) =>
      SameHolding(m, m.(wokenPutters := m.wokenPutters - {t}), p);
      BlocksPut(m.(wokenPutters := m.wokenPutters - {t}), p, t, m.items[t], notified);
    case Take(t, notified) => BlocksTake(m, p, t, notified);
    case RetryTake(t, notified) =>
      SameHolding(m, m.(wokenTakers := m.wokenTakers - {t}), p);
      BlocksTake(m.(wokenTakers := m.wokenTakers - {t}), p, t, notified);
    case _ =>
  }

  lemma SameHolding<T>(m: Monitor<T>, m': Monitor<T>, p: Plain<T>)
    requires Holds(m, p) && m'.capacity == m.capacity && m'.put == m.put && m'.taken == m.taken && m'.queue == m.queue
    ensures Holds(m', p)
  {
  }

  lemma PerformedFirst<T>(m: Monitor<T>, steps: seq<Step<T>>)
    requires steps != [] && Enabled(m, steps[0])
    ensures var ps := Performed(m, steps);
            ps != [] && ps[0] == steps[0] && ps[1..] == Performed(Next(m, steps[0]), steps[1..])
  {
  }

  lemma {:induction false} RefinesExec<T>(m: Monitor<T>, p: Plain<T>, steps: seq<Step<T>>)
    requires Apart(m) && Holds(m, p) && Blocks(m, p)
    ensures var m', p' := Exec(m, steps), TriedAll(p, Performed(m, steps)); Holds(m', p') && Blocks(m', p')
    decreases |steps|
  {
    hide Apart, Holds, Blocks, Enabled, Next, Tried;
    if steps != [] && Enabled(m, steps[0]) {
      StepApart(m, steps[0]);
      HoldsStep(m, p, steps[0]);
      BlocksStep(m, p, steps[0]);
      PerformedFirst(m, steps);
      RefinesExec(Next(m, steps[0]), Tried(p, steps[0]), steps[1..]);
    }
  }

  /**
   * In every run the monitor holds, and has handed out, what a plain bounded queue would that is offered each item at
   * the put and at each retry, and asked at each take and each retry; and the threads inside put and take, awake or
   * not, are those that the plain queue has turned down.
   */
  lemma RefinesPlainQueue<T>(capacity: nat, steps: seq<Step<T>>)
    ensures var m := Exec(Init(capacity), steps);
            var p := TriedAll(Plain(capacity, [], 0, map[], {}), Performed(Init(capacity), steps));
            && p.taken <= |p.stored| && m.taken == p.stored[..p.taken] && m.queue == p.stored[p.taken..]
            && m.waitingTakers + m.wokenTakers == p.taking && m.waitingPutters + m.wokenPutters == p.putting.Keys
  {
    hide Exec, Performed, TriedAll;
    RefinesExec(Init<T>(capacity), Plain(capacity, [], 0, map[], {}), steps);
  }
}

/** What happens around a thread that is blocked. */
module QueueSchedules {
  import opened QueueRuns

  /** Every step of the list can happen when its turn comes. */
  predicate Legal<T>(m: Monitor<T>, steps: seq<Step<T>>)
    decreases |steps|
  {
    steps != [] ==> Enabled(m, steps[0]) && Legal(Next(m, steps[0]), steps[1..])
  }

  lemma {:induction false} LegalSplit<T>(m: Monitor<T>, first: seq<Step<T>>, rest: seq<Step<T>>)
    requires Legal(m, first + rest)
    ensures Legal(m, first) && Legal(Exec(m, first), rest) && Exec(m, first + rest) == Exec(Exec(m, first), rest)
    decreases |first|
  {
    if first == [] {
      assert first + rest == rest;
    } else {
      hide Next, Enabled;
      assert (first + rest)[1..] == first[1..] + rest;
      LegalSplit(Next(m, first[0]), first[1..], rest);
    }
  }

  lemma OneStep<T>(m: Monitor<T>, step: Step<T>)
    requires Legal(m, [step])
    ensures Enabled(m, step) && Exec(m, [step]) == Next(m, step)
  {
    assert [step][1..] == [];
  }

  /** A step of another thread, or a spurious wakeup of this one. */
  predicate Around<T>(step: Step<T>, t: Tid) {
    step.SpuriousTaker? || step.SpuriousPutter? || step.thread != t
  }

  ghost predicate AllAround<T>(steps: seq<Step<T>>, t: Tid) {
    forall i | 0 <= i < |steps| :: Around(steps[i], t)
  }

  /** The thread is outside put and take, or blocked in put or in take. */
  predicate InPut<T>(m: Monitor<T>, t: Tid) {
    (t in m.waitingPutters || t in m.wokenPutters) && t in m.items
  }

  predicate InTake<T>(m: Monitor<T>, t: Tid) {
    t in m.waitingTakers || t in m.wokenTakers
  }

  lemma AroundStep<T>(m: Monitor<T>, step: Step<T>, t: Tid)
    requires Enabled(m, step) && Around(step, t)
    ensures Idle(m, t) ==> Idle(Next(m, step), t)
    ensures InPut(m, t) ==> InPut(Next(m, step), t) && Next(m, step).items[t] == m.items[t]
    ensures InTake(m, t) ==> InTake(Next(m, step), t)
  {
  }

  lemma {:induction false} AroundExec<T>(m: Monitor<T>, steps: seq<Step<T>>, t: Tid)
    requires Legal(m, steps) && AllAround(steps, t)
    ensures Idle(m, t) ==> Idle(Exec(m, steps), t)
    ensures InPut(m, t) ==> InPut(Exec(m, steps), t) && Exec(m, steps).items[t] == m.items[t]
    ensures InTake(m, t) ==> InTake(Exec(m, steps), t)
    decreases |steps|
  {
    hide Next, Enabled, Around, Idle, InPut, InTake;
    if steps != [] {
      assert Around(steps[0], t);
      AroundStep(m, steps[0], t);
      AroundExec(Next(m, steps[0]), steps[1..], t);
    }
  }

  /** What goes on while the thread waits, and whom it signals if it succeeds when it looks again. */
  datatype Pass<T> = Pass(meanwhile: seq<Step<T>>, notified: set<Tid>)

  ghost predicate Proper<T>(passes: seq<Pass<T>>, t: Tid) {
    forall i | 0 <= i < |passes| :: AllAround(passes[i].meanwhile, t)
  }

  function Retry<T>(t: Tid, putting: bool, notified: set<Tid>): Step<T> {
    if putting then RetryPut(t, notified) else RetryTake(t, notified)
  }

  function Retries<T>(t: Tid, putting: bool, passes: seq<Pass<T>>): seq<Step<T>> {
    if passes == [] then []
    else passes[0].meanwhile + ([Retry(t, putting, passes[0].notified)] + Retries(t, putting, passes[1..]))
  }

  /** The next pass: what others do, the retry, and the passes after it. */
  lemma NextPass<T>(m: Monitor<T>, t: Tid, putting: bool, passes: seq<Pass<T>>)
    requires passes != [] && Legal(m, Retries(t, putting, passes)) && Proper(passes, t)
    ensures var again, m' := Retry(t, putting, passes[0].notified), Exec(m, passes[0].meanwhile);
            && Legal(m, passes[0].meanwhile) && AllAround(passes[0].meanwhile, t) && Enabled(m', again)
            && Legal(Next(m', again), Retries(t, putting, passes[1..]))
            && Exec(m, Retries(t, putting, passes)) == Exec(Next(m', again), Retries(t, putting, passes[1..]))
  {
    var again, rest := Retry(t, putting, passes[0].notified), Retries(t, putting, passes[1..]);
    hide Legal, Exec;
    LegalSplit(m, passes[0].meanwhile, [again] + rest);
    LegalSplit(Exec(m, passes[0].meanwhile), [again], rest);
    OneStep(Exec(m, passes[0].meanwhile), again);
  }

  /** A thread that is outside does not retry. */
  lemma NoMorePasses<T>(m: Monitor<T>, t: Tid, putting: bool, passes: seq<Pass<T>>)
    requires Legal(m, Retries(t, putting, passes)) && Proper(passes, t) && Idle(m, t)
    ensures passes == [] && Exec(m, Retries(t, putting, passes)) == m
  {
    if passes != [] {
      NextPass(m, t, putting, passes);
      AroundExec(m, passes[0].meanwhile, t);
      assert false;
    }
  }
}

/** The queue's methods. What other threads do while one waits is a parameter; the wait sets are history. */
module BoundedBlockingQueue {
  import opened QueueRuns
  import opened QueueTheorems
  import opened QueueSchedules

  class BoundedBlockingQueue<T> {
    const maxSize: nat
    var queue: seq<T>
    var items: map<Tid, T>
    ghost var waitingTakers: set<Tid>
    ghost var wokenTakers: set<Tid>
    ghost var waitingPutters: set<Tid>
    ghost var wokenPutters: set<Tid>
    ghost var puts: seq<T>
    ghost var takes: seq<T>

    ghost function View(): Monitor<T>
      reads this
    {
      Monitor(maxSize, queue, items, waitingTakers, wokenTakers, waitingPutters, wokenPutters, puts, takes)
    }

    ghost predicate Valid()
      reads this
    {
      Inv(View())
    }

    constructor (maxSize: nat)
      ensures Valid() && View() == Init(maxSize)
    {
      this.maxSize := maxSize;
      queue, puts, takes, items := [], [], [], map[];
      waitingTakers, wokenTakers, waitingPutters, wokenPutters := {}, {}, {}, {};
    }

    /** A thread enters put(), or looks again after a wakeup. */
    ghost function PutStep(t: Tid, x: T, notified: set<Tid>): Step<T>
      reads this
    {
      if t in wokenPutters then RetryPut(t, notified) else QueueRuns.Put(t, x, notified)
    }

    ghost function TakeStep(t: Tid, notified: set<Tid>): Step<T>
      reads this
    {
      if t in wokenTakers then RetryTake(t, notified) else QueueRuns.Take(t, notified)
    }

    /** put() from taking the mutex: it stores the item and signals, or waits when the queue is full. */
    method TryPut(t: Tid, x: T, ghost notified: set<Tid>) returns (stored: bool)
      requires Valid() && Enabled(View(), PutStep(t, x, notified)) && (t in wokenPutters ==> items[t] == x)
      modifies this
      ensures Valid() && stored == (|old(queue)| < maxSize)
      ensures View() == Next(old(View()), old(PutStep(t, x, notified)))
    {
      hide Inv;
      StepInv(View(), PutStep(t, x, notified));
      assert t !in wokenPutters ==> wokenPutters - {t} == wokenPutters;
      wokenPutters := wokenPutters - {t};
      if |queue| >= maxSize {
        waitingPutters := waitingPutters + {t};
        items := items[t := x];
        stored := false;
      } else {
        queue := queue + [x];
        puts := puts + [x];
        waitingTakers, wokenTakers := waitingTakers - notified, wokenTakers + notified;
        stored := true;
      }
    }

    /** take() from taking the mutex: it removes the oldest item and signals, or waits when there is none. */
    method TryTake(t: Tid, ghost notified: set<Tid>) returns (front: seq<T>)
      requires Valid() && Enabled(View(), TakeStep(t, notified))
      modifies this
      ensures Valid() && front == (if old(queue) == [] then [] else [old(queue)[0]])
      ensures View() == Next(old(View()), old(TakeStep(t, notified)))
    {
      hide Inv;
      StepInv(View(), TakeStep(t, notified));
      assert t !in wokenTakers ==> wokenTakers - {t} == wokenTakers;
      wokenTakers := wokenTakers - {t};
      if queue == [] {
        waitingTakers := waitingTakers + {t};
        front := [];
      } else {
        front := [queue[0]];
        takes := takes + [queue[0]];
        queue := queue[1..];
        waitingPutters, wokenPutters := waitingPutters - notified, wokenPutters + notified;
      }
    }

    method Perform(step: Step<T>)
      requires Valid() && Enabled(View(), step)
      modifies this
      ensures Valid() && View() == Next(old(View()), step)
    {
      hide Inv, PutSection, TakeSection;
      StepInv(View(), step);
      match step {
        case Put(t, x, notified) => var _ := TryPut(t, x, notified);
        case RetryPut(t, notified) => var _ := TryPut(t, items[t], notified);
        case Take(t, notified) => var _ := TryTake(t, notified);
        case RetryTake(t, notified) => var _ := TryTake(t, notified);
        case SpuriousTaker(t) => waitingTakers, wokenTakers := waitingTakers - {t}, wokenTakers + {t};
        case SpuriousPutter(t) => waitingPutters, wokenPutters := waitingPutters - {t}, wokenPutters + {t};
      }
    }

    /** Other threads take the steps of a script. */
    method Others(script: seq<Step<T>>)
      requires Valid() && Legal(View(), script)
      modifies this
      ensures Valid() && View() == Exec(old(View()), script)
    {
      hide Inv, Next, Enabled;
      ghost var last := Exec(View(), script);
      for i := 0 to |script|
        invariant Valid() && Legal(View(), script[i..]) && Exec(View(), script[i..]) == last
      {
        assert script[i..][1..] == script[i + 1..];
        Perform(script[i]);
      }
    }

    /**
     * put(), waiting as often as it takes: `first` are signalled if the item goes in at once, and each pass gives what
     * goes on during one wait. When it returns the item is the last one put.
     */
    method Put(t: Tid, x: T, first: set<Tid>, passes: seq<Pass<T>>)
      requires Valid() && Idle(View(), t) && Proper(passes, t)
      requires Legal(View(), [QueueRuns.Put(t, x, first)] + Retries(t, true, passes))
      requires Idle(Exec(View(), [QueueRuns.Put(t, x, first)] + Retries(t, true, passes)), t)
      modifies this
      ensures Valid() && View() == Exec(old(View()), [QueueRuns.Put(t, x, first)] + Retries(t, true, passes))
      ensures puts != [] && puts[|puts| - 1] == x
    {
      hide Inv, Legal, Exec, Retries;
      ghost var enter := QueueRuns.Put(t, x, first);
      ghost var last := Exec(View(), [enter] + Retries(t, true, passes));
      LegalSplit(View(), [enter], Retries(t, true, passes));
      OneStep(View(), enter);
      var stored := TryPut(t, x, first);
      var i := 0;
      assert passes[0..] == passes;
      while !stored
        invariant Valid() && i <= |passes| && Legal(View(), Retries(t, true, passes[i..]))
        invariant Exec(View(), Retries(t, true, passes[i..])) == last
        invariant if stored then Idle(View(), t) && puts != [] && puts[|puts| - 1] == x
                  else t in waitingPutters && t in items && items[t] == x
        decreases |passes| - i, !stored
      {
        NoPassLeft(View(), t, true, passes[i..]);
        NextPass(View(), t, true, passes[i..]);
        AroundExec(View(), passes[i].meanwhile, t);
        Others(passes[i].meanwhile);
        if |queue| < maxSize {
          LeavesPut(View(), t, passes[i].notified);
        }
        stored := TryPut(t, x, passes[i].notified);
        assert passes[i..][1..] == passes[i + 1..];
        i := i + 1;
      }
      NoMorePasses(View(), t, true, passes[i..]);
    }

    /** take(), waiting as often as it takes, in the same way. What it returns is the last item taken. */
    method Take(t: Tid, first: set<Tid>, passes: seq<Pass<T>>) returns (front: T)
      requires Valid() && Idle(View(), t) && Proper(passes, t)
      requires Legal(View(), [QueueRuns.Take(t, first)] + Retries(t, false, passes))
      requires Idle(Exec(View(), [QueueRuns.Take(t, first)] + Retries(t, false, passes)), t)
      modifies this
      ensures Valid() && View() == Exec(old(View()), [QueueRuns.Take(t, first)] + Retries(t, false, passes))
      ensures takes != [] && takes[|takes| - 1] == front
    {
      hide Inv, Legal, Exec, Retries;
      ghost var enter: Step<T> := QueueRuns.Take(t, first);
      ghost var last := Exec(View(), [enter] + Retries(t, false, passes));
      LegalSplit(View(), [enter], Retries(t, false, passes));
      OneStep(View(), enter);
      var taken := TryTake(t, first);
      var i := 0;
      assert passes[0..] == passes;
      while |taken| == 0
        invariant Valid() && i <= |passes| && Legal(View(), Retries(t, false, passes[i..]))
        invariant Exec(View(), Retries(t, false, passes[i..])) == last
        invariant if |taken| == 0 then t in waitingTakers
                  else Idle(View(), t) && takes != [] && |taken| == 1 && takes[|takes| - 1] == taken[0]
        decreases |passes| - i, |taken| == 0
      {
        NoPassLeft(View(), t, false, passes[i..]);
        NextPass(View(), t, false, passes[i..]);
        AroundExec(View(), passes[i].meanwhile, t);
        Others(passes[i].meanwhile);
        if |queue| > 0 {
          LeavesTake(View(), t, passes[i].notified);
        }
        taken := TryTake(t, passes[i].notified);
        assert passes[i..][1..] == passes[i + 1..];
        i := i + 1;
      }
      NoMorePasses(View(), t, false, passes[i..]);
      front := taken[0];
    }
  }

  lemma LeavesPut<T>(m: Monitor<T>, t: Tid, notified: set<Tid>)
    requires Inv(m) && Enabled(m, RetryPut(t, notified)) && |m.queue| < m.capacity
    ensures Idle(Next(m, RetryPut(t, notified)), t)
  {
  }

  lemma LeavesTake<T>(m: Monitor<T>, t: Tid, notified: set<Tid>)
    requires Inv(m) && Enabled(m, RetryTake(t, notified)) && m.queue != []
    ensures Idle(Next(m, RetryTake(t, notified)), t)
  {
  }

  lemma NoPassLeft<T>(m: Monitor<T>, t: Tid, putting: bool, passes: seq<Pass<T>>)
    ensures passes == [] ==> Exec(m, Retries(t, putting, passes)) == m
  {
  }
}
