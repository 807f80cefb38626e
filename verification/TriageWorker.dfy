/** The Tier-3 worker at work: what it buffers, when it tries, what a success and a failure leave, and a
run that reaches the onboarding bound. */
module TriageWorker {
  import opened Collections
  import opened TriageProtocol

  // ---------- what the worker does ----------

  /** A send through a channel with room delivers the task at its end; through a full one it is lost. */
  lemma SendDelivers(m: Machine, t: nat)
    requires ReadyToSend(At(m.desk, t))
    ensures var m', task := Next(m, Send(t)), At(m.desk, t).task;
            && m'.bench == m.bench && At(m'.desk, t).Sent?
            && m'.wire.channel == m.wire.channel + if |m.wire.channel| < m.wire.capacity then [task] else []
  {}

  /** The worker takes the next task and buffers its sample: with fewer than three samples it goes back to
  waiting, with three or more it tries to make a parser of them. Only that key's buffer changes, and it
  stops growing at eight. */
  lemma ReceiveAndBuffer(m: Machine)
    requires m.bench.worker.Waiting? && m.wire.channel != []
    ensures var m', task := Next(Next(m, Receive), Buffer), m.wire.channel[0];
            var before, after := Samples(m.bench, task.key), Samples(m'.bench, task.key);
            && after == before + (if |before| < 8 then [task.sample] else [])
            && m'.bench.worker == (if |after| < 3 then Waiting else Trying(task.key))
            && (forall k :: k != task.key ==> Samples(m'.bench, k) == Samples(m.bench, k))
            && m'.bench.onboards == m.bench.onboards && m'.wire.channel == m.wire.channel[1..] && m'.desk == m.desk
  {
    assert MAX_EXEMPLARS == 8 && ONBOARD_MIN_SAMPLES == 3;
  }

  /** Three tasks of a key with an empty buffer leave the worker trying exactly their samples, in order. */
  lemma ThreeSamplesTry(m: Machine, a: Task, b: Task, c: Task, rest: seq<Task>)
    requires m.bench.worker.Waiting? && m.wire.channel == [a, b, c] + rest
    requires a.key == b.key == c.key && Samples(m.bench, a.key) == []
    ensures var m1 := Next(Next(m, Receive), Buffer); var m2 := Next(Next(m1, Receive), Buffer);
            var m3 := Next(Next(m2, Receive), Buffer);
            && m1.bench.worker.Waiting? && m2.bench.worker.Waiting? && m3.bench.worker == Trying(a.key)
            && Samples(m3.bench, a.key) == [a.sample, b.sample, c.sample] && m3.wire.channel == rest
            && m3.bench.onboards == m.bench.onboards
  {
    var m1 := Next(Next(m, Receive), Buffer);
    ReceiveAndBuffer(m);
    assert m1.wire.channel == [b, c] + rest;
    ReceiveAndBuffer(m1);
    var m2 := Next(Next(m1, Receive), Buffer);
    assert m2.wire.channel == [c] + rest;
    ReceiveAndBuffer(m2);
  }

  /** A parser that passes is onboarded once and uses its buffer up. A failure keeps the buffer for another
  sample, and gives it up at eight. */
  lemma AttemptEffect(m: Machine, key: nat, success: bool)
    requires m.bench.worker == Trying(key)
    ensures var m', before := Next(m, Attempt(success)), Samples(m.bench, key);
            && m'.bench.worker.Waiting?
            && (forall k :: Get(m'.bench.onboards, k) == Get(m.bench.onboards, k) + One(success && k == key))
            && Samples(m'.bench, key) == (if success || |before| >= 8 then [] else before)
            && (forall k :: k != key ==> Samples(m'.bench, k) == Samples(m.bench, k))
            && m'.wire == m.wire && m'.desk == m.desk
  {
    assert MAX_EXEMPLARS == 8;
  }

  // ---------- the bound is reached ----------

  ghost predicate OthersIdle(d: Desk) {
    forall t: nat :: t != 0 ==> At(d, t).Idle?
  }

  lemma MoveIdle(d: Desk, d': Desk, p: Phase)
    requires OthersIdle(d) && d'.callers == d.callers[0 := p]
    ensures OthersIdle(d') && At(d', 0) == p
  {
    forall t: nat | t != 0 ensures At(d', t).Idle? { assert At(d, t).Idle?; }
  }

  /** Nobody is dispatching, nothing is queued and the worker waits. */
  ghost predicate AtEase(m: Machine) {
    && OthersIdle(m.desk) && At(m.desk, 0).Idle?
    && m.wire.channel == [] && m.wire.capacity > 0 && m.bench.worker.Waiting?
  }

  /** One caller dispatches a task and the worker takes and buffers it. */
  function Round(m: Machine, task: Task): Machine {
    Next(Next(Alone(m, 0, task), Receive), Buffer)
  }

  lemma CountsAlone(m: Machine, task: Task)
    requires AtEase(m) && Get(m.desk.counts, task.key) < MAX_EXEMPLARS
    ensures var m' := Next(m, Count(0, task));
            && OthersIdle(m'.desk) && At(m'.desk, 0).Counted? && At(m'.desk, 0).task == task
            && m'.wire == m.wire && m'.bench == m.bench && m'.desk.counts == Bump(m.desk.counts, task.key)
  {
    var m' := Next(m, Count(0, task));
    MoveIdle(m.desk, m'.desk, m'.desk.callers[0]);
  }

  lemma GatesAlone(m: Machine)
    requires OthersIdle(m.desk) && At(m.desk, 0).Counted?
    ensures var m' := Next(m, Gate(0)); var p := At(m.desk, 0);
            && OthersIdle(m'.desk) && m'.wire == m.wire && m'.bench == m.bench && m'.desk.counts == m.desk.counts
            && At(m'.desk, 0) == (if p.opens then p.(opens := false) else p.(closes := false))
  {
    var m' := Next(m, Gate(0));
    if At(m.desk, 0).opens || At(m.desk, 0).closes { MoveIdle(m.desk, m'.desk, m'.desk.callers[0]); }
  }

  lemma FinishesAlone(m: Machine)
    requires OthersIdle(m.desk) && ReadyToSend(At(m.desk, 0)) && m.wire.channel == [] && m.wire.capacity > 0
    ensures var m' := Next(Next(m, Send(0)), Tally(0));
            && OthersIdle(m'.desk) && At(m'.desk, 0).Idle? && m'.bench == m.bench && m'.desk.counts == m.desk.counts
            && m'.wire.channel == [At(m.desk, 0).task] && m'.wire.capacity == m.wire.capacity
  {
    var m1 := Next(m, Send(0));
    MoveIdle(m.desk, m1.desk, Sent);
    MoveIdle(m1.desk, Next(m1, Tally(0)).desk, Idle);
  }

  lemma AloneSends(m: Machine, task: Task)
    requires AtEase(m) && Get(m.desk.counts, task.key) < MAX_EXEMPLARS
    ensures var m' := Alone(m, 0, task);
            && OthersIdle(m'.desk) && At(m'.desk, 0).Idle?
            && m'.wire.channel == [task] && m'.wire.capacity == m.wire.capacity
            && m'.bench == m.bench && m'.desk.counts == Bump(m.desk.counts, task.key)
  {
    CountsAlone(m, task);
    var m1 := Next(m, Count(0, task));
    GatesAlone(m1);
    GatesAlone(Next(m1, Gate(0)));
    FinishesAlone(GatedTwice(m1, 0));
  }

  lemma RoundEffect(m: Machine, task: Task)
    requires AtEase(m) && Get(m.desk.counts, task.key) < MAX_EXEMPLARS && |Samples(m.bench, task.key)| < 3
    ensures var m' := Round(m, task);
            && m'.desk.counts == Bump(m.desk.counts, task.key) && m'.bench.onboards == m.bench.onboards
            && |Samples(m'.bench, task.key)| == |Samples(m.bench, task.key)| + 1
            && (|Samples(m'.bench, task.key)| < 3 ==> AtEase(m'))
            && (|Samples(m'.bench, task.key)| == 3 ==> AtEase(Next(m', Attempt(true))))
            && (|Samples(m'.bench, task.key)| == 3 ==> m'.bench.worker == Trying(task.key))
  {
    AloneSends(m, task);
    var m1 := Alone(m, 0, task);
    ReceiveAndBuffer(m1);
  }

  /** Three rounds and a success. */
  function Onboarding(m: Machine, task: Task): Machine {
    Next(Round(Round(Round(m, task), task), task), Attempt(true))
  }

  lemma OnboardingEffect(m: Machine, task: Task)
    requires AtEase(m) && Samples(m.bench, task.key) == [] && Get(m.desk.counts, task.key) + 3 <= MAX_EXEMPLARS
    ensures var m' := Onboarding(m, task);
            && AtEase(m') && Samples(m'.bench, task.key) == []
            && Get(m'.desk.counts, task.key) == Get(m.desk.counts, task.key) + 3
            && Get(m'.bench.onboards, task.key) == Get(m.bench.onboards, task.key) + 1
  {
    RoundEffect(m, task);
    var m1 := Round(m, task);
    RoundEffect(m1, task);
    var m2 := Round(m1, task);
    RoundEffect(m2, task);
    AttemptEffect(Round(m2, task), task.key, true);
  }

  function RoundActs(task: Task): seq<Action> {
    [Count(0, task), Gate(0), Gate(0), Send(0), Tally(0), Receive, Buffer]
  }

  function OnboardingActs(task: Task): seq<Action> {
    RoundActs(task) + RoundActs(task) + RoundActs(task) + [Attempt(true)]
  }

  function RunFrom(m: Machine, acts: seq<Action>): Machine {
    if acts == [] then m else Next(RunFrom(m, Init(acts)), Last(acts))
  }

  lemma {:induction false} RunConcat(capacity: nat, before: seq<Action>, acts: seq<Action>)
    ensures Run(capacity, before + acts) == RunFrom(Run(capacity, before), acts)
  {
    if acts == [] {
      assert before + acts == before;
    } else {
      RunConcat(capacity, before, Init(acts));
      assert Init(before + acts) == before + Init(acts);
    }
  }

  lemma {:induction false} RunFromConcat(m: Machine, before: seq<Action>, acts: seq<Action>)
    ensures RunFrom(m, before + acts) == RunFrom(RunFrom(m, before), acts)
  {
    if acts == [] {
      assert before + acts == before;
    } else {
      RunFromConcat(m, before, Init(acts));
      assert Init(before + acts) == before + Init(acts);
    }
  }

  lemma RunFromPush(m: Machine, acts: seq<Action>, a: Action)
    ensures RunFrom(m, acts + [a]) == Next(RunFrom(m, acts), a)
  {
    assert Init(acts + [a]) == acts;
  }

  lemma RoundIsRun(m: Machine, task: Task)
    ensures RunFrom(m, RoundActs(task)) == Round(m, task)
  {
    var send := [] + [Count(0, task)] + [Gate(0)] + [Gate(0)] + [Send(0)] + [Tally(0)];
    RunFromPush(m, [], Count(0, task));
    RunFromPush(m, [] + [Count(0, task)], Gate(0));
    RunFromPush(m, [] + [Count(0, task)] + [Gate(0)], Gate(0));
    RunFromPush(m, [] + [Count(0, task)] + [Gate(0)] + [Gate(0)], Send(0));
    RunFromPush(m, [] + [Count(0, task)] + [Gate(0)] + [Gate(0)] + [Send(0)], Tally(0));
    RunFromPush(m, send, Receive);
    RunFromPush(m, send + [Receive], Buffer);
    assert RoundActs(task) == send + [Receive] + [Buffer];
  }

  lemma OnboardingIsRun(m: Machine, task: Task)
    ensures RunFrom(m, OnboardingActs(task)) == Onboarding(m, task)
  {
    var round := RoundActs(task);
    RoundIsRun(m, task);
    RunFromConcat(m, round, round);
    RoundIsRun(Round(m, task), task);
    RunFromConcat(m, round + round, round);
    RoundIsRun(Round(Round(m, task), task), task);
    RunFromPush(m, round + round + round, Attempt(true));
  }

  /** Some run onboards a key twice, so the bound of two is exact. */
  lemma TwoOnboardingsReached(capacity: nat, task: Task)
    requires capacity > 0
    ensures Get(Run(capacity, OnboardingActs(task) + OnboardingActs(task)).bench.onboards, task.key) == 2
  {
    var acts := OnboardingActs(task);
    assert [] + acts == acts && Run(capacity, []) == Start(capacity);
    RunConcat(capacity, [], acts);
    RunConcat(capacity, acts, acts);
    var m := Onboarding(Start(capacity), task);
    OnboardingIsRun(Start(capacity), task);
    OnboardingIsRun(m, task);
    OnboardingEffect(Start(capacity), task);
    OnboardingEffect(m, task);
  }
}
