/** Exemplar dispatch and Tier-3 onboarding under any interleaving.

Any number of callers run `dispatch_triage_exemplar` while one worker drains the bounded channel. A
caller's dispatch is cut where another thread can act: after the locked update of the count map, and
around each of the two atomic updates of the budget gate, the non-blocking send and the counter. */
module TriageProtocol {
  import opened Collections
  import P = Pipeline

  const MAX_EXEMPLARS: nat := P.MAX_EXEMPLARS_PER_CLUSTER
  const ONBOARD_MIN_SAMPLES: nat := 3

  type Task = P.Task

  /** Where a caller stands: not dispatching, or past the count map with gate updates still to make. */
  datatype Phase =
    | Idle
    | Counted(task: Task, opens: bool, closes: bool)
    | Sent

  datatype Worker = Waiting | Holding(task: Task) | Trying(key: nat)

  /** What the callers share: the count map, the budget gate and the dispatch counter. */
  datatype Desk = Desk(counts: map<nat, nat>, open: nat, dispatches: nat, callers: map<nat, Phase>)

  /** The bounded channel, with what was sent, dropped and received per key as history. */
  datatype Wire = Wire(channel: seq<Task>, capacity: nat, sent: map<nat, nat>, dropped: map<nat, nat>,
                       received: map<nat, nat>)

  /** The worker, its per-key sample buffers, and the onboardings per key as history. */
  datatype Bench = Bench(worker: Worker, buffers: map<nat, seq<string>>, onboards: map<nat, nat>)

  datatype Machine = Machine(desk: Desk, wire: Wire, bench: Bench)

  datatype Action =
    | Count(t: nat, task: Task)      // the locked update of the count map
    | Gate(t: nat)                   // fetch_add, then fetch_sub, whichever are due
    | Send(t: nat)
    | Tally(t: nat)
    | Receive
    | Skip                           // vendor confidence below the bar
    | Buffer
    | Attempt(success: bool)         // parser synthesis, and onboarding when it passes

  function Get(m: map<nat, nat>, k: nat): nat {
    P.CountOf(m, k)
  }

  function Bump(m: map<nat, nat>, k: nat): map<nat, nat> {
    m[k := Get(m, k) + 1]
  }

  function At(d: Desk, t: nat): Phase {
    if t in d.callers then d.callers[t] else Idle
  }

  function Samples(b: Bench, k: nat): seq<string> {
    if k in b.buffers then b.buffers[k] else []
  }

  function Move(d: Desk, t: nat, p: Phase): Desk {
    d.(callers := d.callers[t := p])
  }

  /** Past the budget a dispatch returns at once. */
  function Counting(d: Desk, t: nat, task: Task): Desk {
    var n := Get(d.counts, task.key);
    if !At(d, t).Idle? || n >= MAX_EXEMPLARS then d
    else Move(d.(counts := Bump(d.counts, task.key)), t, Counted(task, n == 0, n + 1 >= MAX_EXEMPLARS))
  }

  /** The atomics wrap at 64 bits. */
  function Gating(d: Desk, t: nat): Desk {
    var p := At(d, t);
    if IsOpening(p) then Move(d.(open := (d.open + 1) % U64), t, p.(opens := false))
    else if IsClosing(p) then Move(d.(open := (d.open + U64 - 1) % U64), t, p.(closes := false))
    else d
  }

  predicate ReadyToSend(p: Phase) {
    p.Counted? && !p.opens && !p.closes
  }

  function Transmit(w: Wire, task: Task): Wire {
    if |w.channel| < w.capacity then w.(channel := w.channel + [task], sent := Bump(w.sent, task.key))
    else w.(dropped := Bump(w.dropped, task.key))
  }

  function Tallying(d: Desk, t: nat): Desk {
    if At(d, t).Sent? then Move(d.(dispatches := d.dispatches + 1), t, Idle) else d
  }

  function TakeFront(w: Wire): Wire
    requires w.channel != []
  {
    w.(channel := w.channel[1..], received := Bump(w.received, w.channel[0].key))
  }

  function Buffering(b: Bench): Bench {
    if !b.worker.Holding? then b
    else
      var task := b.worker.task;
      var buf := Samples(b, task.key);
      var buf' := if |buf| < MAX_EXEMPLARS then buf + [task.sample] else buf;
      b.(buffers := b.buffers[task.key := buf'],
         worker := if |buf'| < ONBOARD_MIN_SAMPLES then Waiting else Trying(task.key))
  }

  function Attempting(b: Bench, success: bool): Bench {
    if !b.worker.Trying? then b
    else
      var key := b.worker.key;
      if success then Bench(Waiting, b.buffers - {key}, Bump(b.onboards, key))
      else if |Samples(b, key)| >= MAX_EXEMPLARS then Bench(Waiting, b.buffers - {key}, b.onboards)
      else b.(worker := Waiting)
  }

  /** Actions that are not enabled leave the machine as it is. */
  function Next(m: Machine, a: Action): Machine {
    match a
    case Count(t, task) => m.(desk := Counting(m.desk, t, task))
    case Gate(t) => m.(desk := Gating(m.desk, t))
    case Send(t) =>
      if ReadyToSend(At(m.desk, t))
      then m.(desk := Move(m.desk, t, Sent), wire := Transmit(m.wire, At(m.desk, t).task))
      else m
    case Tally(t) => m.(desk := Tallying(m.desk, t))
    case Receive =>
      if m.bench.worker.Waiting? && m.wire.channel != []
      then m.(wire := TakeFront(m.wire), bench := m.bench.(worker := Holding(m.wire.channel[0])))
      else m
    case Skip => if m.bench.worker.Holding? then m.(bench := m.bench.(worker := Waiting)) else m
    case Buffer => m.(bench := Buffering(m.bench))
    case Attempt(success) => m.(bench := Attempting(m.bench, success))
  }

  function Start(capacity: nat): Machine {
    Machine(Desk(map[], 0, 0, map[]), Wire([], capacity, map[], map[], map[]), Bench(Waiting, map[], map[]))
  }

  function Run(capacity: nat, acts: seq<Action>): Machine {
    if acts == [] then Start(capacity) else Next(Run(capacity, Init(acts)), Last(acts))
  }

  // ---------- the budget gate ----------

  predicate IsOpening(p: Phase) {
    p.Counted? && p.opens
  }

  predicate IsClosing(p: Phase) {
    p.Counted? && p.closes
  }

  function UnderBudget(counts: map<nat, nat>): set<nat> {
    P.UnderBudget(counts)
  }

  function Opening(callers: map<nat, Phase>): set<nat> {
    set t | t in callers && IsOpening(callers[t])
  }

  function Closing(callers: map<nat, Phase>): set<nat> {
    set t | t in callers && IsClosing(callers[t])
  }

  ghost predicate CountsOk(counts: map<nat, nat>) {
    forall k :: k in counts ==> 0 < counts[k] <= MAX_EXEMPLARS
  }

  /** What the gate should read: the keys under budget, less the openings still to be added, plus the
  closings still to be subtracted. */
  function Owed(counts: map<nat, nat>, callers: map<nat, Phase>): int {
    |UnderBudget(counts)| - |Opening(callers)| + |Closing(callers)|
  }

  /** No count passes the budget, and the gate is what it should read modulo 2^64. */
  ghost predicate GateOk(d: Desk) {
    CountsOk(d.counts) && d.open == Owed(d.counts, d.callers) % U64
  }

  lemma UnderAfter(counts: map<nat, nat>, k: nat)
    requires CountsOk(counts) && Get(counts, k) < MAX_EXEMPLARS
    ensures var n := Get(counts, k);
            && CountsOk(Bump(counts, k))
            && |UnderBudget(Bump(counts, k))| == |UnderBudget(counts)| + One(n == 0) - One(n + 1 >= MAX_EXEMPLARS)
  {
    P.BudgetStep(counts, |P.UnderBudget(counts)|, k);
  }

  lemma OpeningAfter(callers: map<nat, Phase>, t: nat, p: Phase)
    ensures |Opening(callers[t := p])|
            == |Opening(callers)| - One(t in callers && IsOpening(callers[t])) + One(IsOpening(p))
  {
    var s, s' := Opening(callers), Opening(callers[t := p]);
    assert s - {t} == s' - {t};
    SizeAround(s, s', t);
  }

  lemma ClosingAfter(callers: map<nat, Phase>, t: nat, p: Phase)
    ensures |Closing(callers[t := p])|
            == |Closing(callers)| - One(t in callers && IsClosing(callers[t])) + One(IsClosing(p))
  {
    var s, s' := Closing(callers), Closing(callers[t := p]);
    assert s - {t} == s' - {t};
    SizeAround(s, s', t);
  }

  /** What moving one caller to phase `p` does to the amount owed. */
  lemma OwedAfter(d: Desk, counts: map<nat, nat>, t: nat, p: Phase)
    ensures var was := At(d, t);
            Owed(counts, d.callers[t := p])
            == Owed(counts, d.callers) + One(IsOpening(was)) - One(IsOpening(p)) - One(IsClosing(was)) + One(IsClosing(p))
  {
    OpeningAfter(d.callers, t, p);
    ClosingAfter(d.callers, t, p);
  }

  lemma CountGate(d: Desk, t: nat, task: Task)
    requires GateOk(d)
    ensures GateOk(Counting(d, t, task))
  {
    var n := Get(d.counts, task.key);
    if n < MAX_EXEMPLARS {
      UnderAfter(d.counts, task.key);
      OwedAfter(d, Bump(d.counts, task.key), t, Counted(task, n == 0, n + 1 >= MAX_EXEMPLARS));
    }
  }

  lemma UpdateGate(d: Desk, t: nat)
    requires GateOk(d)
    ensures GateOk(Gating(d, t))
  {
    var p := At(d, t);
    Shift(Owed(d.counts, d.callers));
    if IsOpening(p) {
      OwedAfter(d, d.counts, t, p.(opens := false));
    } else if IsClosing(p) {
      OwedAfter(d, d.counts, t, p.(closes := false));
    }
  }

  lemma Shift(x: int)
    ensures (x % U64 + 1) % U64 == (x + 1) % U64
    ensures (x % U64 + U64 - 1) % U64 == (x - 1) % U64
  {}

  lemma MoveGate(d: Desk, t: nat, p: Phase)
    requires GateOk(d) && !At(d, t).Idle? && (At(d, t).Counted? ==> ReadyToSend(At(d, t))) && !p.Counted?
    ensures GateOk(Move(d, t, p))
  {
    OwedAfter(d, d.counts, t, p);
  }

  lemma NextGate(m: Machine, a: Action)
    requires GateOk(m.desk)
    ensures GateOk(Next(m, a).desk)
  {
    match a {
      case Count(t, task) => CountGate(m.desk, t, task);
      case Gate(t) => UpdateGate(m.desk, t);
      case Send(t) => if ReadyToSend(At(m.desk, t)) { MoveGate(m.desk, t, Sent); }
      case Tally(t) => if At(m.desk, t).Sent? { MoveGate(m.desk.(dispatches := m.desk.dispatches + 1), t, Idle); }
      case _ =>
    }
  }

  /** No key's count ever passes the budget, and the gate is accounted for, in every interleaving. */
  lemma {:induction false} GateAccounted(capacity: nat, acts: seq<Action>)
    ensures GateOk(Run(capacity, acts).desk)
  {
    if acts == [] {
      StartGate(capacity);
    } else {
      GateAccounted(capacity, Init(acts));
      NextGate(Run(capacity, Init(acts)), Last(acts));
    }
  }

  lemma StartGate(capacity: nat)
    ensures GateOk(Start(capacity).desk)
  {
    assert UnderBudget(map[]) == {} && Opening(map[]) == {} && Closing(map[]) == {};
  }

  lemma NothingPending(d: Desk)
    requires forall t :: t in d.callers ==> !d.callers[t].Counted?
    ensures Owed(d.counts, d.callers) == |UnderBudget(d.counts)|
  {
    assert Opening(d.callers) == {} && Closing(d.callers) == {};
  }

  /** When no caller is between the count map and its send, the gate is exactly the number of keys under
  budget. */
  lemma GateExactAtRest(capacity: nat, acts: seq<Action>)
    requires var d := Run(capacity, acts).desk;
             (forall t :: t in d.callers ==> !d.callers[t].Counted?) && |UnderBudget(d.counts)| < U64
    ensures var d := Run(capacity, acts).desk; d.open == |UnderBudget(d.counts)|
  {
    GateAccounted(capacity, acts);
    NothingPending(Run(capacity, acts).desk);
  }

  lemma SmallMod(under: nat, gap: int)
    requires under < U64 && gap < U64 && gap + U64 > 0
    ensures (under + gap) % U64 == under <==> gap == 0
  {}

  /** In any reachable state the gate reads the number of keys under budget exactly when as many
  openings as closings are still to be applied. */
  lemma GateExactIff(capacity: nat, acts: seq<Action>)
    requires var d := Run(capacity, acts).desk; |UnderBudget(d.counts)| < U64 && |d.callers| < U64
    ensures var d := Run(capacity, acts).desk;
            d.open == |UnderBudget(d.counts)| <==> |Opening(d.callers)| == |Closing(d.callers)|
  {
    var d := Run(capacity, acts).desk;
    GateAccounted(capacity, acts);
    Within(Opening(d.callers), d.callers);
    Within(Closing(d.callers), d.callers);
    SmallMod(|UnderBudget(d.counts)|, |Closing(d.callers)| - |Opening(d.callers)|);
  }

  /** The gate reads zero exactly when the pending openings make up for all keys under budget and all
  pending closings. So while a closed gate hides a key under budget, some opening is pending; it may be
  another key's (`OtherKeyClosesGate`). */
  lemma ClosedGateMissesIff(capacity: nat, acts: seq<Action>)
    requires var d := Run(capacity, acts).desk; |UnderBudget(d.counts)| + |d.callers| < U64
    ensures var d := Run(capacity, acts).desk;
            d.open == 0 <==> |Opening(d.callers)| == |UnderBudget(d.counts)| + |Closing(d.callers)|
  {
    var d := Run(capacity, acts).desk;
    GateAccounted(capacity, acts);
    Within(Opening(d.callers), d.callers);
    Within(Closing(d.callers), d.callers);
    SmallZero(Owed(d.counts, d.callers));
  }

  lemma SmallZero(x: int)
    requires x < U64 && x + U64 > 0
    ensures x % U64 == 0 <==> x == 0
  {}

  lemma Within(s: set<nat>, callers: map<nat, Phase>)
    requires s <= callers.Keys
    ensures |s| <= |callers|
  {
    assert callers.Keys == s + (callers.Keys - s);
    assert |callers.Keys| == |callers|;
  }

  /** Callers 0 to n - 1 count one exemplar each, all of one key. */
  function Rush(n: nat, key: nat): (acts: seq<Action>)
    ensures |acts| == n
  {
    if n == 0 then [] else Rush(n - 1, key) + [Count(n - 1, P.Task(key, ""))]
  }

  /** What a rush of n callers on a fresh key makes of the desk. */
  ghost predicate Rushed(d: Desk, d': Desk, n: nat, key: nat) {
    && Get(d'.counts, key) == n && d'.open == d.open
    && (forall k :: k != key ==> Get(d'.counts, k) == Get(d.counts, k))
    && (forall t: nat :: t >= n ==> At(d', t) == At(d, t))
    && forall t: nat :: t < n ==> At(d', t) == Counted(P.Task(key, ""), t == 0, t + 1 >= MAX_EXEMPLARS)
  }

  lemma RushStep(d: Desk, d': Desk, n: nat, key: nat)
    requires Rushed(d, d', n, key) && n < MAX_EXEMPLARS && At(d, n).Idle?
    ensures Rushed(d, Counting(d', n, P.Task(key, "")), n + 1, key)
  {
    var d'' := Counting(d', n, P.Task(key, ""));
    assert At(d', n) == At(d, n);
    forall t: nat | t < n + 1 ensures At(d'', t) == Counted(P.Task(key, ""), t == 0, t + 1 >= MAX_EXEMPLARS) {
      if t < n { assert At(d'', t) == At(d', t); }
    }
  }

  lemma {:induction false} RushCounts(capacity: nat, before: seq<Action>, key: nat, n: nat)
    requires n <= MAX_EXEMPLARS
    requires var d := Run(capacity, before).desk; Get(d.counts, key) == 0 && forall t: nat :: t < n ==> At(d, t).Idle?
    ensures Rushed(Run(capacity, before).desk, Run(capacity, before + Rush(n, key)).desk, n, key)
  {
    if n == 0 {
      assert before + [] == before;
    } else {
      RushCounts(capacity, before, key, n - 1);
      RunPush(capacity, before + Rush(n - 1, key), Count(n - 1, P.Task(key, "")));
      assert before + Rush(n, key) == before + Rush(n - 1, key) + [Count(n - 1, P.Task(key, ""))];
      RushStep(Run(capacity, before).desk, Run(capacity, before + Rush(n - 1, key)).desk, n - 1, key);
    }
  }

  lemma RunPush(capacity: nat, acts: seq<Action>, a: Action)
    ensures Run(capacity, acts + [a]) == Next(Run(capacity, acts), a)
  {
    assert Init(acts + [a]) == acts;
  }

  /** The last of eight callers on a key subtracts before the first has added. */
  lemma CloserOvertakes(capacity: nat, before: seq<Action>, key: nat)
    requires var d := Run(capacity, before).desk;
             Get(d.counts, key) == 0 && forall t: nat :: t < MAX_EXEMPLARS ==> At(d, t).Idle?
    ensures var d := Run(capacity, before).desk;
            var d' := Run(capacity, before + Rush(MAX_EXEMPLARS, key) + [Gate(MAX_EXEMPLARS - 1)]).desk;
            && d'.open == (d.open + U64 - 1) % U64 && Get(d'.counts, key) == MAX_EXEMPLARS
            && (forall k :: k != key ==> Get(d'.counts, k) == Get(d.counts, k))
            && (forall t: nat :: t >= MAX_EXEMPLARS ==> At(d', t) == At(d, t))
            && forall t: nat :: t < MAX_EXEMPLARS ==> At(d', t).Counted? && At(d', t).task.key == key
  {
    RushCounts(capacity, before, key, MAX_EXEMPLARS);
    RunPush(capacity, before + Rush(MAX_EXEMPLARS, key), Gate(MAX_EXEMPLARS - 1));
    var d := Run(capacity, before + Rush(MAX_EXEMPLARS, key)).desk;
    CloserSubtracts(Run(capacity, before).desk, d, key);
  }

  lemma CloserSubtracts(d: Desk, d': Desk, key: nat)
    requires Rushed(d, d', MAX_EXEMPLARS, key)
    ensures var d'' := Gating(d', MAX_EXEMPLARS - 1);
            && d''.open == (d.open + U64 - 1) % U64 && d''.counts == d'.counts
            && (forall t: nat :: t >= MAX_EXEMPLARS ==> At(d'', t) == At(d, t))
            && forall t: nat :: t < MAX_EXEMPLARS ==> At(d'', t).Counted? && At(d'', t).task.key == key
  {
    var d'', last := Gating(d', MAX_EXEMPLARS - 1), MAX_EXEMPLARS - 1;
    assert At(d', last) == Counted(P.Task(key, ""), false, true);
    forall t: nat | t != last ensures At(d'', t) == At(d', t) {}
    assert At(d'', last) == Counted(P.Task(key, ""), false, false);
    forall t: nat | t < MAX_EXEMPLARS ensures At(d'', t).Counted? && At(d'', t).task.key == key {
      if t != last { assert At(d'', t) == At(d', t); }
    }
  }

  /** The gate can wrap below zero: when the caller that closes a key's budget subtracts before the one
  that opened it has added, the gate reads 2^64 - 1. */
  lemma GateCanWrap(capacity: nat, key: nat)
    ensures Run(capacity, [] + Rush(MAX_EXEMPLARS, key) + [Gate(MAX_EXEMPLARS - 1)]).desk.open == U64 - 1
  {
    CloserOvertakes(capacity, [], key);
  }

  /** One caller dispatches one exemplar of a key, from count to tally. */
  function OneDispatch(t: nat, key: nat): seq<Action> {
    [] + [Count(t, P.Task(key, ""))] + [Gate(t)] + [Send(t)] + [Tally(t)]
  }

  lemma OneDispatchOpens(capacity: nat, t: nat, key: nat)
    ensures var d := Run(capacity, OneDispatch(t, key)).desk;
            && d.open == 1 && (forall k :: Get(d.counts, k) == One(k == key))
            && forall u: nat :: At(d, u).Idle?
  {
    var count := [] + [Count(t, P.Task(key, ""))];
    RunPush(capacity, [], Count(t, P.Task(key, "")));
    RunPush(capacity, count, Gate(t));
    RunPush(capacity, count + [Gate(t)], Send(t));
    RunPush(capacity, count + [Gate(t)] + [Send(t)], Tally(t));
    var d1 := Run(capacity, count).desk;
    assert d1.open == 0 && At(d1, t) == Counted(P.Task(key, ""), true, false);
    var d2 := Run(capacity, count + [Gate(t)]).desk;
    assert d2.open == 1 && At(d2, t) == Counted(P.Task(key, ""), false, false);
  }

  /** A key that is under budget, with no dispatch of its own under way, can be hidden by another: the
  other key's closer overtakes its opener and takes the gate to zero. */
  lemma OtherKeyClosesGate(capacity: nat, a: nat, b: nat)
    requires a != b
    ensures var acts := OneDispatch(MAX_EXEMPLARS, a) + Rush(MAX_EXEMPLARS, b) + [Gate(MAX_EXEMPLARS - 1)];
            var d := Run(capacity, acts).desk;
            && d.open == 0 && a in UnderBudget(d.counts) && b !in UnderBudget(d.counts)
            && forall t :: t in Opening(d.callers) ==> d.callers[t].task.key == b
  {
    OneDispatchOpens(capacity, MAX_EXEMPLARS, a);
    CloserOvertakes(capacity, OneDispatch(MAX_EXEMPLARS, a), b);
    var d := Run(capacity, OneDispatch(MAX_EXEMPLARS, a) + Rush(MAX_EXEMPLARS, b) + [Gate(MAX_EXEMPLARS - 1)]).desk;
    forall t | t in Opening(d.callers) ensures d.callers[t].task.key == b { assert At(d, t) == d.callers[t]; }
    assert Get(d.counts, a) == 1;
  }

  // ---------- a dispatch without interference ----------

  /** One caller's whole dispatch with nobody in between. */
  function Alone(m: Machine, t: nat, task: Task): Machine {
    Next(Next(GatedTwice(Next(m, Count(t, task)), t), Send(t)), Tally(t))
  }

  function GatedTwice(m: Machine, t: nat): Machine {
    Next(Next(m, Gate(t)), Gate(t))
  }

  /** The shared state agrees with a state of the sequential pipeline, its gate modulo 2^64. */
  ghost predicate Mirrors(m: Machine, s: P.State) {
    && m.desk.counts == s.counts && m.desk.open == s.open % U64 && m.desk.dispatches == s.dispatches
    && m.wire.channel == s.channel && m.wire.capacity == s.channelCapacity
  }

  lemma GatedTwiceEffect(m: Machine, t: nat, open: int)
    requires At(m.desk, t).Counted? && m.desk.open == open % U64
    ensures var p, d, d' := At(m.desk, t), m.desk, GatedTwice(m, t).desk;
            && At(d', t) == Counted(p.task, false, false) && d'.counts == d.counts && d'.dispatches == d.dispatches
            && d'.open == (open + One(p.opens) - One(p.closes)) % U64
            && GatedTwice(m, t).wire == m.wire
  {
    Shift(open);
    Shift(open + 1);
  }

  /** Uninterrupted, the steps of a caller are the dispatch of the sequential model. */
  lemma AloneIsDispatch(m: Machine, s: P.State, t: nat, task: Task)
    requires Mirrors(m, s) && At(m.desk, t).Idle?
    ensures Mirrors(Alone(m, t, task), P.Dispatch(s, task.key, task.sample))
  {
    var n := Get(m.desk.counts, task.key);
    if n < MAX_EXEMPLARS {
      GatedTwiceEffect(Next(m, Count(t, task)), t, s.open);
    }
  }

  // ---------- the dispatch counter ----------

  function Busy(callers: map<nat, Phase>): set<nat> {
    set t | t in callers && !callers[t].Idle?
  }

  ghost function Total(counts: map<nat, nat>): nat {
    if counts.Keys == {} then 0
    else
      var k :| k in counts;
      counts[k] + Total(counts - {k})
  }

  lemma {:induction false} TotalRemove(counts: map<nat, nat>, k: nat)
    requires k in counts
    ensures Total(counts) == counts[k] + Total(counts - {k})
    decreases |counts|
  {
    var j :| j in counts && Total(counts) == counts[j] + Total(counts - {j});
    if j != k {
      TotalRemove(counts - {j}, k);
      TotalRemove(counts - {k}, j);
      assert counts - {j} - {k} == counts - {k} - {j};
    }
  }

  lemma TotalBump(counts: map<nat, nat>, k: nat)
    ensures Total(Bump(counts, k)) == Total(counts) + 1
  {
    TotalRemove(Bump(counts, k), k);
    if k in counts {
      TotalRemove(counts, k);
      assert Bump(counts, k) - {k} == counts - {k};
    } else {
      assert Bump(counts, k) - {k} == counts;
    }
  }

  lemma BusyAfter(d: Desk, t: nat, p: Phase)
    ensures |Busy(d.callers[t := p])| == |Busy(d.callers)| - One(!At(d, t).Idle?) + One(!p.Idle?)
  {
    var s, s' := Busy(d.callers), Busy(d.callers[t := p]);
    assert s - {t} == s' - {t};
    SizeAround(s, s', t);
  }

  ghost predicate TallyOk(d: Desk) {
    d.dispatches + |Busy(d.callers)| == Total(d.counts)
  }

  lemma NextTally(m: Machine, a: Action)
    requires TallyOk(m.desk)
    ensures TallyOk(Next(m, a).desk)
  {
    var d := m.desk;
    match a {
      case Count(t, task) =>
        TotalBump(d.counts, task.key);
        var n := Get(d.counts, task.key);
        BusyAfter(d, t, Counted(task, n == 0, n + 1 >= MAX_EXEMPLARS));
      case Gate(t) =>
        if At(d, t).Counted? {
          BusyAfter(d, t, At(d, t).(opens := false));
          BusyAfter(d, t, At(d, t).(closes := false));
        }
      case Send(t) => BusyAfter(d, t, Sent);
      case Tally(t) => BusyAfter(d, t, Idle);
      case _ =>
    }
  }

  /** The dispatch counter and the dispatches under way together are the sum of all counts; tasks lost
  at a full channel are counted too. */
  lemma {:induction false} DispatchesAccounted(capacity: nat, acts: seq<Action>)
    ensures TallyOk(Run(capacity, acts).desk)
  {
    if acts == [] {
      assert Busy(map[]) == {};
    } else {
      DispatchesAccounted(capacity, Init(acts));
      NextTally(Run(capacity, Init(acts)), Last(acts));
    }
  }

  // ---------- the onboarding bound ----------

  predicate IsUnsent(p: Phase, k: nat) {
    p.Counted? && p.task.key == k
  }

  function Unsent(callers: map<nat, Phase>, k: nat): set<nat> {
    set t | t in callers && IsUnsent(callers[t], k)
  }

  function Queued(channel: seq<Task>, k: nat): nat {
    if channel == [] then 0 else One(channel[0].key == k) + Queued(channel[1..], k)
  }

  /** Every counted exemplar of a key is still on its way, was sent, or was dropped at a full channel. */
  ghost predicate Dispatched(d: Desk, w: Wire, k: nat) {
    Get(d.counts, k) == |Unsent(d.callers, k)| + Get(w.sent, k) + Get(w.dropped, k)
  }

  /** Every sent exemplar is queued or was received. */
  ghost predicate Carried(w: Wire, k: nat) {
    Get(w.sent, k) == Queued(w.channel, k) + Get(w.received, k)
  }

  predicate Holds(b: Bench, k: nat) {
    b.worker.Holding? && b.worker.task.key == k
  }

  /** Each onboarding used up three received exemplars, and synthesis starts from at least three. */
  ghost predicate Consumed(b: Bench, received: nat, k: nat) {
    && 3 * Get(b.onboards, k) + |Samples(b, k)| + One(Holds(b, k)) <= received
    && (b.worker == Trying(k) ==> |Samples(b, k)| >= ONBOARD_MIN_SAMPLES)
  }

  ghost predicate FlowOk(m: Machine, k: nat) {
    Dispatched(m.desk, m.wire, k) && Carried(m.wire, k) && Consumed(m.bench, Get(m.wire.received, k), k)
  }

  lemma UnsentAfter(callers: map<nat, Phase>, t: nat, p: Phase, k: nat)
    ensures |Unsent(callers[t := p], k)|
            == |Unsent(callers, k)| - One(t in callers && IsUnsent(callers[t], k)) + One(IsUnsent(p, k))
  {
    var s, s' := Unsent(callers, k), Unsent(callers[t := p], k);
    assert s - {t} == s' - {t};
    SizeAround(s, s', t);
  }

  lemma {:induction false} QueuedPush(channel: seq<Task>, task: Task, k: nat)
    ensures Queued(channel + [task], k) == Queued(channel, k) + One(task.key == k)
  {
    if channel == [] {
      assert [task][1..] == [];
    } else {
      QueuedPush(channel[1..], task, k);
      assert (channel + [task])[1..] == channel[1..] + [task];
    }
  }

  lemma GetBump(m: map<nat, nat>, j: nat, k: nat)
    ensures Get(Bump(m, j), k) == Get(m, k) + One(j == k)
  {}

  lemma CountFlow(d: Desk, w: Wire, t: nat, task: Task, k: nat)
    requires Dispatched(d, w, k)
    ensures Dispatched(Counting(d, t, task), w, k)
  {
    var n := Get(d.counts, task.key);
    UnsentAfter(d.callers, t, Counted(task, n == 0, n + 1 >= MAX_EXEMPLARS), k);
    GetBump(d.counts, task.key, k);
  }

  lemma GateFlow(d: Desk, w: Wire, t: nat, k: nat)
    requires Dispatched(d, w, k)
    ensures Dispatched(Gating(d, t), w, k)
  {
    var p := At(d, t);
    if IsOpening(p) {
      UnsentAfter(d.callers, t, p.(opens := false), k);
    } else if IsClosing(p) {
      UnsentAfter(d.callers, t, p.(closes := false), k);
    }
  }

  lemma TransmitFlow(w: Wire, task: Task, k: nat)
    requires Carried(w, k)
    ensures var w' := Transmit(w, task);
            && Carried(w', k)
            && w'.received == w.received
            && Get(w'.sent, k) + Get(w'.dropped, k) == Get(w.sent, k) + Get(w.dropped, k) + One(task.key == k)
  {
    QueuedPush(w.channel, task, k);
    GetBump(w.sent, task.key, k);
    GetBump(w.dropped, task.key, k);
  }

  lemma SendFlow(m: Machine, t: nat, k: nat)
    requires FlowOk(m, k) && ReadyToSend(At(m.desk, t))
    ensures FlowOk(Next(m, Send(t)), k)
  {
    UnsentAfter(m.desk.callers, t, Sent, k);
    TransmitFlow(m.wire, At(m.desk, t).task, k);
  }

  lemma TakeFlow(w: Wire, k: nat)
    requires w.channel != [] && Carried(w, k)
    ensures Carried(TakeFront(w), k)
    ensures Get(TakeFront(w).received, k) == Get(w.received, k) + One(w.channel[0].key == k)
  {
    GetBump(w.received, w.channel[0].key, k);
  }

  lemma ReceiveFlow(m: Machine, k: nat)
    requires FlowOk(m, k) && m.bench.worker.Waiting? && m.wire.channel != []
    ensures FlowOk(Next(m, Receive), k)
  {
    TakeFlow(m.wire, k);
    assert Samples(m.bench.(worker := Holding(m.wire.channel[0])), k) == Samples(m.bench, k);
  }

  lemma BufferFlow(b: Bench, received: nat, k: nat)
    requires Consumed(b, received, k)
    ensures Consumed(Buffering(b), received, k)
  {}

  lemma AttemptFlow(b: Bench, success: bool, received: nat, k: nat)
    requires Consumed(b, received, k)
    ensures Consumed(Attempting(b, success), received, k)
  {
    if b.worker.Trying? { GetBump(b.onboards, b.worker.key, k); }
  }

  lemma NextFlow(m: Machine, a: Action, k: nat)
    requires FlowOk(m, k)
    ensures FlowOk(Next(m, a), k)
  {
    match a {
      case Count(t, task) => CountFlow(m.desk, m.wire, t, task, k);
      case Gate(t) => GateFlow(m.desk, m.wire, t, k);
      case Send(t) => if ReadyToSend(At(m.desk, t)) { SendFlow(m, t, k); }
      case Tally(t) => UnsentAfter(m.desk.callers, t, Idle, k);
      case Receive => if m.bench.worker.Waiting? && m.wire.channel != [] { ReceiveFlow(m, k); }
      case Skip =>
      case Buffer => BufferFlow(m.bench, Get(m.wire.received, k), k);
      case Attempt(success) => AttemptFlow(m.bench, success, Get(m.wire.received, k), k);
    }
  }

  lemma StartFlow(capacity: nat, k: nat)
    ensures FlowOk(Start(capacity), k)
  {
    assert Unsent(map[], k) == {};
  }

  lemma {:induction false} FlowAccounted(capacity: nat, acts: seq<Action>, k: nat)
    ensures FlowOk(Run(capacity, acts), k)
  {
    if acts == [] {
      StartFlow(capacity, k);
    } else {
      FlowAccounted(capacity, Init(acts), k);
      NextFlow(Run(capacity, Init(acts)), Last(acts), k);
    }
  }

  /** For every key in every interleaving: three times its onboardings plus its buffered exemplars never
  exceed the tasks received, which never exceed the budget of eight. So no key is onboarded more than
  twice, and never from fewer than three samples. */
  lemma OnboardingBound(capacity: nat, acts: seq<Action>, k: nat)
    ensures var m := Run(capacity, acts); var onboards, buffered := Get(m.bench.onboards, k), |Samples(m.bench, k)|;
            && 3 * onboards + buffered <= Get(m.wire.received, k) <= Get(m.desk.counts, k) <= MAX_EXEMPLARS
            && onboards <= 2
            && (m.bench.worker == Trying(k) ==> buffered >= ONBOARD_MIN_SAMPLES)
  {
    GateAccounted(capacity, acts);
    FlowAccounted(capacity, acts, k);
  }
}
