/** The bounded ingest queue: its contents and counters, and every interleaving of its producers,
its consumer and `close`.

A producer's `push` is cut where another thread can act: at the lock, at the wait, and at each load
of the closed flag, because `close` stores the flag without taking the lock. */
module IngestQueue {
  import opened Collections
  import opened Hashing

  datatype Policy = Block | Drop

  // ---------- contents and counters ----------

  /** The queue under its lock. The last four fields record history. */
  datatype Queue = Queue(items: seq<Bytes>, pushed: nat, dropped: nat, blocked: nat, queuedBytes: int,
                         droppedBytes: nat, highWater: int,
                         accepted: seq<Bytes>, popped: seq<Bytes>, shed: seq<Bytes>, gauges: seq<int>)

  const EMPTY := Queue([], 0, 0, 0, 0, 0, 0, [], [], [], [0])

  function Total(items: seq<Bytes>): nat {
    if items == [] then 0 else Total(Init(items)) + |Last(items)|
  }

  lemma {:induction false} TotalAppend(a: seq<Bytes>, b: seq<Bytes>)
    ensures Total(a + b) == Total(a) + Total(b)
  {
    if b == [] {
      assert a + b == a;
    } else {
      assert Init(a + b) == a + Init(b);
      TotalAppend(a, Init(b));
    }
  }

  function Max(x: int, y: int): int {
    if x < y then y else x
  }

  function Enqueue(q: Queue, b: Bytes): Queue {
    var gauge := q.queuedBytes + |b|;
    q.(items := q.items + [b], pushed := q.pushed + 1, queuedBytes := gauge, highWater := Max(q.highWater, gauge),
       accepted := q.accepted + [b], gauges := q.gauges + [gauge])
  }

  function Shed(q: Queue, b: Bytes): Queue {
    q.(dropped := q.dropped + 1, droppedBytes := q.droppedBytes + |b|, shed := q.shed + [b])
  }

  function BatchSize(q: Queue, max: nat): nat {
    if max < |q.items| then max else |q.items|
  }

  function Drain(q: Queue, max: nat): Queue {
    var k := BatchSize(q, max);
    var gauge := q.queuedBytes - Total(q.items[..k]);
    q.(items := q.items[k..], queuedBytes := gauge, popped := q.popped + q.items[..k], gauges := q.gauges + [gauge])
  }

  /** Nothing is lost, reordered or miscounted. */
  ghost predicate Conserved(q: Queue) {
    && q.popped + q.items == q.accepted
    && q.pushed == |q.accepted|
    && q.queuedBytes == Total(q.items)
    && q.dropped == |q.shed| && q.droppedBytes == Total(q.shed)
    && q.gauges != [] && Last(q.gauges) == q.queuedBytes
    && q.highWater in q.gauges && forall g :: g in q.gauges ==> g <= q.highWater
  }

  lemma EnqueueConserves(q: Queue, b: Bytes)
    requires Conserved(q)
    ensures Conserved(Enqueue(q, b))
  {
    TotalAppend(q.items, [b]);
    assert Total([b]) == |b|;
    assert q.popped + (q.items + [b]) == q.accepted + [b];
  }

  lemma ShedConserves(q: Queue, b: Bytes)
    requires Conserved(q)
    ensures Conserved(Shed(q, b))
  {
    TotalAppend(q.shed, [b]);
    assert Total([b]) == |b|;
  }

  lemma DrainConserves(q: Queue, max: nat)
    requires Conserved(q)
    ensures Conserved(Drain(q, max))
  {
    var k := BatchSize(q, max);
    TakeDrop(q.items, k);
    TotalAppend(q.items[..k], q.items[k..]);
    assert (q.popped + q.items[..k]) + q.items[k..] == q.popped + q.items;
    assert Last(q.gauges) in q.gauges;
  }

  // ---------- threads ----------

  /** Where a producer stands inside `push`. */
  datatype Phase =
    | Idle
    | Entering(b: Bytes)                  // saw the queue open, wants the lock
    | Testing(b: Bytes)                   // holds the lock, about to test for room (Block) or closed (Drop)
    | SawFull(b: Bytes)                   // holds the lock, about to load the closed flag
    | AboutToWait(b: Bytes)               // holds the lock, saw the queue open, about to wait
    | Parked(b: Bytes, notified: bool)    // waits on not_full without the lock
    | SawRoom(b: Bytes)                   // holds the lock, about to load the closed flag once more
    | Accepting(b: Bytes)                 // holds the lock, past its last look at the closed flag

  predicate Holds(p: Phase) {
    p.Testing? || p.SawFull? || p.AboutToWait? || p.SawRoom? || p.Accepting?
  }

  datatype Machine = Machine(capacity: nat, policy: Policy, q: Queue, closed: bool, notices: nat, lock: Option<nat>,
                             threads: map<nat, Phase>)

  datatype Action =
    | CallPush(t: nat, b: Bytes)
    | Acquire(t: nat)
    | Advance(t: nat)
    | Spurious(t: nat)
    | PopBatch(max: nat)
    | CloseStore
    | CloseNotify

  function At(m: Machine, t: nat): Phase {
    if t in m.threads then m.threads[t] else Idle
  }

  function Move(m: Machine, t: nat, p: Phase): Machine {
    m.(threads := m.threads[t := p])
  }

  function Leave(m: Machine, t: nat, p: Phase): Machine {
    m.(threads := m.threads[t := p], lock := None)
  }

  function Woken(p: Phase): Phase {
    if p.Parked? then Parked(p.b, true) else p
  }

  function NotifyAll(m: Machine): Machine {
    m.(threads := map t | t in m.threads :: Woken(m.threads[t]))
  }

  /** One step of the thread that holds the lock. */
  function Advanced(m: Machine, t: nat): Machine {
    match At(m, t)
    case Testing(b) =>
      if m.policy.Block? then Move(m, t, if |m.q.items| >= m.capacity then SawFull(b) else SawRoom(b))
      else if m.closed then Leave(m, t, Idle)
      else Move(m, t, Accepting(b))
    case SawFull(b) =>
      if m.closed then Leave(m, t, Idle)
      else Move(m.(q := m.q.(blocked := m.q.blocked + 1)), t, AboutToWait(b))
    case AboutToWait(b) => Leave(m, t, Parked(b, false))
    case SawRoom(b) => if m.closed then Leave(m, t, Idle) else Move(m, t, Accepting(b))
    case Accepting(b) =>
      if m.policy.Drop? && |m.q.items| >= m.capacity then Leave(m.(q := Shed(m.q, b)), t, Idle)
      else Leave(m.(q := Enqueue(m.q, b)), t, Idle)
    case _ => m
  }

  /** Actions that are not enabled leave the machine as it is. */
  function Next(m: Machine, a: Action): Machine {
    match a
    case CallPush(t, b) => if At(m, t).Idle? && !m.closed then Move(m, t, Entering(b)) else m
    case Acquire(t) =>
      if m.lock == None && (At(m, t).Entering? || (At(m, t).Parked? && At(m, t).notified))
      then Move(m.(lock := Some(t)), t, Testing(At(m, t).b)) else m
    case Advance(t) => if m.lock == Some(t) then Advanced(m, t) else m
    case Spurious(t) => if At(m, t).Parked? then Move(m, t, Woken(At(m, t))) else m
    case PopBatch(max) =>
      if m.lock != None || BatchSize(m.q, max) == 0 then m else NotifyAll(m.(q := Drain(m.q, max)))
    case CloseStore => m.(closed := true, notices := m.notices + 1)
    case CloseNotify => if m.notices > 0 then NotifyAll(m.(notices := m.notices - 1)) else m
  }

  function Start(capacity: nat, policy: Policy): Machine {
    Machine(capacity, policy, EMPTY, false, 0, None, map[])
  }

  function Run(m: Machine, acts: seq<Action>): Machine {
    if acts == [] then m else Next(Run(m, Init(acts)), Last(acts))
  }

  // ---------- what every interleaving keeps ----------

  /** What is known about a producer from its phase. A producer that waits without a pending
  notification waits on a queue that is still full. */
  ghost predicate PhaseOk(m: Machine, t: nat) {
    var p := At(m, t);
    && (Holds(p) <==> m.lock == Some(t))
    && (p.SawFull? || p.AboutToWait? ==> |m.q.items| >= m.capacity)
    && (p.SawRoom? ==> |m.q.items| < m.capacity)
    && (p.Accepting? && m.policy.Block? ==> |m.q.items| < m.capacity)
    && (p.Parked? && !p.notified ==> |m.q.items| >= m.capacity)
  }

  ghost predicate Safe(m: Machine) {
    && Conserved(m.q)
    && |m.q.items| <= m.capacity
    && forall t: nat :: PhaseOk(m, t)
  }

  /** The lock holder moves on without touching the queue's contents. */
  lemma MoveSafe(m: Machine, m': Machine, t: nat)
    requires Safe(m) && m.lock == Some(t)
    requires m' == m.(q := m.q.(blocked := m'.q.blocked), lock := m'.lock, threads := m.threads[t := At(m', t)])
    requires m'.lock == (if Holds(At(m', t)) then Some(t) else None) && PhaseOk(m', t)
    ensures Safe(m')
  {
    forall u: nat ensures PhaseOk(m', u) { assert PhaseOk(m, u); }
  }

  lemma AcceptSafe(m: Machine, t: nat, q: Queue)
    requires Safe(m) && m.lock == Some(t) && Conserved(q)
    requires |m.q.items| <= |q.items| <= m.capacity
    ensures Safe(Leave(m.(q := q), t, Idle))
  {
    var m' := Leave(m.(q := q), t, Idle);
    forall u: nat ensures PhaseOk(m', u) { assert PhaseOk(m, u); }
  }

  lemma AdvanceSafe(m: Machine, t: nat)
    requires Safe(m) && m.lock == Some(t)
    ensures Safe(Advanced(m, t))
  {
    assert PhaseOk(m, t);
    if At(m, t).Accepting? {
      EnqueueConserves(m.q, At(m, t).b);
      ShedConserves(m.q, At(m, t).b);
      AcceptSafe(m, t, if m.policy.Drop? && |m.q.items| >= m.capacity then Shed(m.q, At(m, t).b) else Enqueue(m.q, At(m, t).b));
    } else {
      MoveSafe(m, Advanced(m, t), t);
    }
  }

  lemma PopSafe(m: Machine, max: nat)
    requires Safe(m) && m.lock == None
    ensures Safe(NotifyAll(m.(q := Drain(m.q, max))))
  {
    DrainConserves(m.q, max);
    var m' := NotifyAll(m.(q := Drain(m.q, max)));
    forall u: nat ensures PhaseOk(m', u) { assert PhaseOk(m, u); }
  }

  lemma NextSafe(m: Machine, a: Action)
    requires Safe(m)
    ensures Safe(Next(m, a))
  {
    var m' := Next(m, a);
    match a {
      case Advance(t) => if m.lock == Some(t) { AdvanceSafe(m, t); }
      case PopBatch(max) => if m.lock == None { PopSafe(m, max); }
      case _ => forall u: nat ensures PhaseOk(m', u) { assert PhaseOk(m, u); }
    }
  }

  /** FIFO conservation, the capacity bound, exact gauges and wake-up safety, in every interleaving
  of any number of producers, consumers and closers. */
  lemma {:induction false} EveryRunSafe(capacity: nat, policy: Policy, acts: seq<Action>)
    ensures Safe(Run(Start(capacity, policy), acts))
  {
    if acts != [] {
      EveryRunSafe(capacity, policy, Init(acts));
      NextSafe(Run(Start(capacity, policy), Init(acts)), Last(acts));
    }
  }

  // ---------- nobody is stranded by a pop ----------

  ghost predicate NobodyStranded(m: Machine) {
    forall t: nat :: At(m, t).Parked? ==> At(m, t).notified
  }

  /** A pop that takes anything wakes everybody, even when the items it takes are empty. */
  lemma PopWakesAll(m: Machine, max: nat)
    requires m.lock == None && m.q.items != [] && max > 0
    ensures var m' := Next(m, PopBatch(max));
            NobodyStranded(m') && |m'.q.popped| > |m.q.popped|
  {}

  /** A pop under a free lock takes from the front as many items as asked for, or all there are, and
  leaves the rest in order. */
  lemma PopTakes(m: Machine, max: nat)
    requires m.lock == None
    ensures var m' := Next(m, PopBatch(max));
            exists batch :: && m.q.items == batch + m'.q.items && m'.q.popped == m.q.popped + batch
                            && (|batch| == max || (|batch| < max && m'.q.items == []))
                            && m'.q.accepted == m.q.accepted && m'.q.shed == m.q.shed && m'.closed == m.closed
  {
    var k := BatchSize(m.q, max);
    var batch, m' := m.q.items[..k], Next(m, PopBatch(max));
    TakeDrop(m.q.items, k);
    assert m.q.popped + [] == m.q.popped;
    assert m.q.items == batch + m'.q.items && m'.q.popped == m.q.popped + batch;
  }

  // ---------- a push without interference ----------

  /** A producer calls `push`, takes the lock and runs until it leaves it. */
  function Alone(m: Machine, t: nat, b: Bytes): Machine {
    Next(Next(Next(Next(Next(m, CallPush(t, b)), Acquire(t)), Advance(t)), Advance(t)), Advance(t))
  }

  /** How that ends on an open queue: with room the item is appended and nothing else enters; on a full
  queue a dropping producer loses it and a blocking one goes to sleep with it. */
  lemma AlonePushes(m: Machine, t: nat, b: Bytes)
    requires !m.closed && m.lock == None && At(m, t).Idle?
    ensures var m' := Alone(m, t, b);
            && m'.lock == None && m'.closed == m.closed && m'.q.popped == m.q.popped
            && if |m.q.items| < m.capacity
               then m'.q.items == m.q.items + [b] && m'.q.shed == m.q.shed && At(m', t).Idle?
               else && m'.q.items == m.q.items
                    && if m.policy.Drop? then m'.q.shed == m.q.shed + [b] && At(m', t).Idle?
                       else m'.q.shed == m.q.shed && m'.q.blocked == m.q.blocked + 1 && At(m', t) == Parked(b, false)
  {
    var m2 := Next(Next(m, CallPush(t, b)), Acquire(t));
    assert m2 == m.(lock := Some(t), threads := m2.threads) && At(m2, t) == Testing(b);
    var m3 := Next(m2, Advance(t));
    if m.policy.Block? {
      assert m3 == m2.(threads := m3.threads);
      assert At(m3, t) == if |m.q.items| < m.capacity then SawRoom(b) else SawFull(b);
    } else {
      assert m3 == m2.(threads := m3.threads) && At(m3, t) == Accepting(b);
    }
  }

  /** A call on a closed queue changes nothing. */
  lemma ClosedRefuses(m: Machine, t: nat, b: Bytes)
    requires m.closed
    ensures Next(m, CallPush(t, b)) == m
  {}

  // ---------- shutdown  // ---------- shutdown ----------

  /** The item of the producer that is past its last look at the closed flag, if there is one. */
  function Tail(m: Machine): seq<Bytes> {
    if m.lock.Some? && At(m, m.lock.value).Accepting? then [At(m, m.lock.value).b] else []
  }

  lemma ClosedStep(m: Machine, a: Action)
    requires Safe(m) && m.closed
    ensures var m' := Next(m, a); m'.closed && m.q.accepted <= m'.q.accepted
    ensures var m' := Next(m, a); m'.q.accepted + Tail(m') <= m.q.accepted + Tail(m)
  {
    if m.lock.Some? { assert PhaseOk(m, m.lock.value); }
    match a {
      case CallPush(t, _) => assert PhaseOk(m, t);
      case Spurious(t) => assert PhaseOk(m, t);
      case _ =>
    }
  }

  /** Once closed, the queue accepts at most one more item: that of the one producer that held the
  lock and had already looked at the flag for the last time. A producer that was parked or still
  waiting for the lock when the flag was stored never enqueues. */
  lemma {:induction false} ClosedAcceptsAtMostTail(m: Machine, acts: seq<Action>)
    requires Safe(m) && m.closed
    ensures var m' := Run(m, acts);
            && Safe(m') && m'.closed
            && m.q.accepted <= m'.q.accepted
            && m'.q.accepted + Tail(m') <= m.q.accepted + Tail(m)
  {
    if acts != [] {
      ClosedAcceptsAtMostTail(m, Init(acts));
      NextSafe(Run(m, Init(acts)), Last(acts));
      ClosedStep(Run(m, Init(acts)), Last(acts));
    }
  }

  ghost predicate NobodyAboutToWait(m: Machine) {
    forall t: nat :: !At(m, t).AboutToWait?
  }

  lemma {:induction false} ReleasedForGood(m: Machine, acts: seq<Action>)
    requires m.closed && NobodyStranded(m) && NobodyAboutToWait(m)
    ensures var m' := Run(m, acts); m'.closed && NobodyStranded(m') && NobodyAboutToWait(m')
  {
    if acts != [] {
      ReleasedForGood(m, Init(acts));
      var n, a := Run(m, Init(acts)), Last(acts);
      forall t: nat ensures var p := At(Next(n, a), t); (p.Parked? ==> p.notified) && !p.AboutToWait? {
        assert !At(n, t).AboutToWait?;
      }
    }
  }

  /** `close` releases every producer for good exactly when no producer stands between its look at
  the closed flag and its wait at the moment the notification is sent. */
  lemma CloseReleasesIff(m: Machine)
    requires Safe(m) && m.closed && m.notices > 0
    ensures (forall acts: seq<Action> :: NobodyStranded(Run(Next(m, CloseNotify), acts))) <==> NobodyAboutToWait(m)
  {
    var n := Next(m, CloseNotify);
    if NobodyAboutToWait(m) {
      forall t: nat ensures !At(n, t).AboutToWait? { assert !At(m, t).AboutToWait?; }
      forall acts: seq<Action> ensures NobodyStranded(Run(n, acts)) { ReleasedForGood(n, acts); }
    } else {
      var t: nat :| At(m, t).AboutToWait?;
      Strands(m, t);
    }
  }

  lemma Strands(m: Machine, t: nat)
    requires Safe(m) && At(m, t).AboutToWait?
    ensures !NobodyStranded(Run(Next(m, CloseNotify), [Advance(t)]))
  {
    var n := Next(m, CloseNotify);
    assert PhaseOk(m, t);
    assert [] + [Advance(t)] == [Advance(t)];
    RunPush(n, [], Advance(t));
    assert At(Next(n, Advance(t)), t) == Parked(At(m, t).b, false);
  }

  lemma RunPush(m: Machine, acts: seq<Action>, a: Action)
    ensures Run(m, acts + [a]) == Next(Run(m, acts), a)
  {
    assert Init(acts + [a]) == acts;
  }

  /** The lost wake-up happens behind any full queue: a producer passes its closed check, `close`
  runs to its end, and only then does the producer go to sleep. */
  lemma LostWakeup(m: Machine, t: nat, b: Bytes)
    requires m.policy.Block? && !m.closed && m.notices == 0 && m.lock == None
    requires |m.q.items| >= m.capacity && At(m, t).Idle?
    ensures exists acts :: var m' := Run(m, acts); m'.closed && m'.notices == 0 && At(m', t) == Parked(b, false)
  {
    var call := [] + [CallPush(t, b)];
    var enter := call + [Acquire(t)];
    var tested := enter + [Advance(t)];
    RunPush(m, [], CallPush(t, b));
    RunPush(m, call, Acquire(t));
    EntersFull(m, t, b);
    RunPush(m, enter, Advance(t));
    RunPush(m, tested, Advance(t));
    LooksAndPasses(Run(m, enter), t, b);
    SleepsAfterClose(m, tested + [Advance(t)], t, b);
  }

  ghost predicate OpenAndFull(m: Machine) {
    m.policy.Block? && !m.closed && m.notices == 0 && |m.q.items| >= m.capacity
  }

  lemma EntersFull(m: Machine, t: nat, b: Bytes)
    requires OpenAndFull(m) && m.lock == None && At(m, t).Idle?
    ensures var n := Next(Next(m, CallPush(t, b)), Acquire(t));
            OpenAndFull(n) && n.lock == Some(t) && At(n, t) == Testing(b)
  {}

  lemma LooksAndPasses(n: Machine, t: nat, b: Bytes)
    requires OpenAndFull(n) && n.lock == Some(t) && At(n, t) == Testing(b)
    ensures var n' := Next(Next(n, Advance(t)), Advance(t));
            At(n', t) == AboutToWait(b) && n'.lock == Some(t) && n'.notices == 0
  {}

  lemma SleepsAfterClose(m: Machine, look: seq<Action>, t: nat, b: Bytes)
    requires var n := Run(m, look); At(n, t) == AboutToWait(b) && n.lock == Some(t) && n.notices == 0
    ensures exists acts :: var m' := Run(m, acts); m'.closed && m'.notices == 0 && At(m', t) == Parked(b, false)
  {
    var stored := look + [CloseStore];
    var notified := stored + [CloseNotify];
    RunPush(m, look, CloseStore);
    RunPush(m, stored, CloseNotify);
    RunPush(m, notified, Advance(t));
    WaitsThroughClose(Run(m, look), t, b);
    assert At(Run(m, notified + [Advance(t)]), t) == Parked(b, false);
  }

  lemma WaitsThroughClose(n: Machine, t: nat, b: Bytes)
    requires At(n, t) == AboutToWait(b) && n.lock == Some(t) && n.notices == 0
    ensures var n' := Next(Next(Next(n, CloseStore), CloseNotify), Advance(t));
            n'.closed && n'.notices == 0 && At(n', t) == Parked(b, false)
  {
    var stored := Next(n, CloseStore);
    var notified := Next(stored, CloseNotify);
    assert At(stored, t) == AboutToWait(b) && stored.lock == Some(t) && stored.closed;
    assert At(notified, t) == AboutToWait(b) && notified.lock == Some(t) && notified.notices == 0;
  }
}
