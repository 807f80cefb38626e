/** The queue object: the code that runs under its lock, each method performing the queue step that
the interleaving model uses. */
module MemoryQueues {
  import opened Collections
  import opened Hashing
  import opened IngestQueue

  datatype QueueStats = QueueStats(pushed: nat, dropped: nat, blocked: nat, currentLen: nat, queuedBytes: int,
                                   droppedBytes: nat, highWaterBytes: int)

  /** How a push attempt under the lock ends; `MustWait` parks the producer. */
  datatype Attempt = Taken | Dropped | ShutDown | MustWait

  class MemoryQueue {
    const capacity: nat
    const policy: Policy
    var queue: seq<Bytes>
    var pushed: nat
    var dropped: nat
    var blocked: nat
    var queuedBytes: int
    var droppedBytes: nat
    var highWaterBytes: int
    var closed: bool
    ghost var accepted: seq<Bytes>
    ghost var popped: seq<Bytes>
    ghost var shed: seq<Bytes>
    ghost var gauges: seq<int>

    ghost function Abs(): Queue
      reads this
    {
      Queue(queue, pushed, dropped, blocked, queuedBytes, droppedBytes, highWaterBytes, accepted, popped, shed, gauges)
    }

    constructor (capacity: nat, policy: Policy)
      ensures this.capacity == capacity && this.policy == policy && !closed
      ensures Abs() == EMPTY && Conserved(Abs())
    {
      this.capacity, this.policy := capacity, policy;
      queue, pushed, dropped, blocked := [], 0, 0, 0;
      queuedBytes, droppedBytes, highWaterBytes, closed := 0, 0, 0, false;
      accepted, popped, shed, gauges := [], [], [], [0];
    }

    /** One attempt under the lock: an open queue takes the line if it has room; a full one makes a
    blocking producer wait and a dropping producer lose the line. */
    method TryPush(b: Bytes) returns (r: Attempt)
      requires Conserved(Abs()) && |queue| <= capacity
      modifies this
      ensures closed == old(closed) && Conserved(Abs()) && |queue| <= capacity
      ensures var full := |old(queue)| >= capacity;
              r == if closed then ShutDown
                   else if !full then Taken
                   else if policy.Block? then MustWait else Dropped
      ensures queue == old(queue) + if r.Taken? then [b] else []
      ensures Abs() == match r
                       case Taken => Enqueue(old(Abs()), b)
                       case Dropped => Shed(old(Abs()), b)
                       case ShutDown => old(Abs())
                       case MustWait => old(Abs()).(blocked := old(blocked) + 1)
    {
      EnqueueConserves(Abs(), b);
      ShedConserves(Abs(), b);
      if policy.Block? {
        if |queue| >= capacity {
          if closed { return ShutDown; }
          blocked := blocked + 1;
          return MustWait;
        }
        if closed { return ShutDown; }
      } else {
        if closed { return ShutDown; }
        if |queue| >= capacity {
          dropped := dropped + 1;
          droppedBytes := droppedBytes + |b|;
          shed := shed + [b];
          return Dropped;
        }
      }
      Accept(b);
      return Taken;
    }

    /** Appends the line and moves the byte gauge and its high-water mark with it. */
    method Accept(b: Bytes)
      modifies this
      ensures closed == old(closed) && Abs() == Enqueue(old(Abs()), b)
    {
      queue := queue + [b];
      pushed := pushed + 1;
      queuedBytes := queuedBytes + |b|;
      highWaterBytes := Max(highWaterBytes, queuedBytes);
      accepted, gauges := accepted + [b], gauges + [queuedBytes];
    }

    /** Takes up to `max` lines from the front, in order. */
    method PopBatch(max: nat) returns (batch: seq<Bytes>, wake: bool)
      requires Conserved(Abs()) && |queue| <= capacity
      modifies this
      ensures closed == old(closed) && Conserved(Abs()) && |queue| <= capacity
      ensures batch + queue == old(queue)
      ensures |batch| == max || (|batch| < max && queue == [])
      ensures wake <==> batch != []
      ensures Abs() == if old(queue) == [] then old(Abs()) else Drain(old(Abs()), max)
    {
      if queue == [] { return [], false; }
      DrainConserves(Abs(), max);
      var bytesPopped;
      batch, bytesPopped := PopFront(if max < |queue| then max else |queue|);
      if batch != [] && bytesPopped > 0 { queuedBytes := queuedBytes - bytesPopped; }
      popped, gauges := popped + batch, gauges + [queuedBytes];
      wake := batch != [];
    }

    /** The pop loop: one line at a time, adding up the bytes that leave. */
    method PopFront(size: nat) returns (batch: seq<Bytes>, bytes: nat)
      requires size <= |queue|
      modifies this`queue
      ensures batch == old(queue)[..size] && queue == old(queue)[size..]
      ensures bytes == Total(batch)
    {
      batch, bytes := [], 0;
      for i := 0 to size
        invariant batch == old(queue)[..i] && queue == old(queue)[i..]
        invariant bytes == Total(batch)
      {
        var item := queue[0];
        assert Init(batch + [item]) == batch;
        bytes := bytes + |item|;
        batch := batch + [item];
        queue := queue[1..];
      }
    }

    /** A snapshot whose length and byte gauge belong to the same moment. */
    method Stats() returns (s: QueueStats)
      requires Conserved(Abs())
      ensures s == QueueStats(pushed, dropped, blocked, |queue|, Total(queue), droppedBytes, highWaterBytes)
    {
      s := QueueStats(pushed, dropped, blocked, |queue|, queuedBytes, droppedBytes, highWaterBytes);
    }

    /** Leaves the contents and counters alone; from here on `TryPush` answers `ShutDown`. */
    method Close()
      modifies this`closed
      ensures closed && Abs() == old(Abs())
    {
      closed := true;
    }
  }
}
