/** The Tier-1 signature cache: power-of-two many shards, each a map with an insertion queue.

The code is called an LRU cache, but a hit changes nothing: what it evicts is the oldest insertion. */
module SignatureCache {
  import opened Collections
  import opened Recency

  datatype VendorFormat = CiscoAsa | Fortinet | PaloAlto | Suricata | PfSense | Cef | Unknown

  datatype Shard = Shard(capacity: nat, entries: map<nat, VendorFormat>, order: seq<nat>)

  function NewShard(capacity: nat): Shard {
    Shard(capacity, map[], [])
  }

  function ShardGet(s: Shard, key: nat): Option<VendorFormat> {
    if key in s.entries then Some(s.entries[key]) else None
  }

  /** Whether an insertion of a new key pushes the oldest one out. */
  predicate Evicts(s: Shard, key: nat) {
    key !in s.entries && |s.entries| >= s.capacity && s.order != []
  }

  function ShardInsert(s: Shard, key: nat, format: VendorFormat): Shard {
    if key in s.entries then s.(entries := s.entries[key := format])
    else if Evicts(s, key)
    then s.(entries := (s.entries - {s.order[0]})[key := format], order := s.order[1..] + [key])
    else s.(entries := s.entries[key := format], order := s.order + [key])
  }

  // ---------- one shard, over every run ----------

  datatype Op = Lookup(key: nat) | Store(key: nat, format: VendorFormat)

  function Applied(s: Shard, op: Op): Shard {
    match op
    case Lookup(_) => s
    case Store(key, format) => ShardInsert(s, key, format)
  }

  function Run(capacity: nat, ops: seq<Op>): Shard {
    if ops == [] then NewShard(capacity) else Applied(Run(capacity, Init(ops)), Last(ops))
  }

  /** The arrivals so far and the key that the operation stores, if it was absent. */
  function Arrived(s: Shard, arrivals: seq<nat>, op: Op): seq<nat> {
    if op.Store? && op.key !in s.entries then arrivals + [op.key] else arrivals
  }

  /** The keys that were stored while absent, in order. */
  function Arrivals(capacity: nat, ops: seq<Op>): seq<nat> {
    if ops == [] then [] else Arrived(Run(capacity, Init(ops)), Arrivals(capacity, Init(ops)), Last(ops))
  }

  /** The format a key was last stored with. */
  function LastStored(ops: seq<Op>, key: nat): Option<VendorFormat> {
    if ops == [] then None
    else if Last(ops).Store? && Last(ops).key == key then Some(Last(ops).format)
    else LastStored(Init(ops), key)
  }

  function Window(capacity: nat, n: nat): (w: nat)
    ensures w <= n
  {
    var most := if capacity == 0 then 1 else capacity;
    if n < most then n else most
  }

  /** The queue lists the keys of the map, once each. */
  ghost predicate KeySet(entries: map<nat, VendorFormat>, order: seq<nat>) {
    && (forall k :: k in entries <==> k in order)
    && Distinct(order)
    && |entries| == |order|
  }

  lemma KeySetPush(entries: map<nat, VendorFormat>, order: seq<nat>, key: nat, format: VendorFormat)
    requires KeySet(entries, order) && key !in entries
    ensures KeySet(entries[key := format], order + [key])
  {
    assert entries[key := format].Keys == entries.Keys + {key};
    assert |entries.Keys| == |entries|;
  }

  lemma KeySetDropOldest(entries: map<nat, VendorFormat>, order: seq<nat>)
    requires KeySet(entries, order) && order != []
    ensures KeySet(entries - {order[0]}, order[1..])
  {
    assert order == [order[0]] + order[1..];
    assert (entries - {order[0]}).Keys == entries.Keys - {order[0]};
    assert |entries.Keys| == |entries|;
  }

  lemma KeySetRefresh(entries: map<nat, VendorFormat>, order: seq<nat>, key: nat, format: VendorFormat)
    requires KeySet(entries, order) && key in entries
    ensures KeySet(entries[key := format], order)
  {
    assert entries[key := format].Keys == entries.Keys;
    assert |entries.Keys| == |entries|;
  }

  lemma InsertKeepsKeySet(s: Shard, key: nat, format: VendorFormat)
    requires KeySet(s.entries, s.order)
    ensures var s' := ShardInsert(s, key, format); KeySet(s'.entries, s'.order)
  {
    if key in s.entries {
      KeySetRefresh(s.entries, s.order, key, format);
    } else if Evicts(s, key) {
      KeySetDropOldest(s.entries, s.order);
      KeySetPush(s.entries - {s.order[0]}, s.order[1..], key, format);
    } else {
      KeySetPush(s.entries, s.order, key, format);
    }
  }

  /** The last n elements. */
  function Suffix(xs: seq<nat>, n: nat): seq<nat>
    requires n <= |xs|
  {
    xs[|xs| - n..]
  }

  lemma SuffixPush(xs: seq<nat>, n: nat, x: nat)
    requires n <= |xs|
    ensures Suffix(xs + [x], n + 1) == Suffix(xs, n) + [x]
    ensures n > 0 ==> Suffix(xs + [x], n) == Suffix(xs, n)[1..] + [x]
  {}

  /** A shard holds exactly the most recent arrivals, at most its capacity of them (one when the
  capacity is zero). */
  ghost predicate IsWindow(s: Shard, arrivals: seq<nat>) {
    KeySet(s.entries, s.order) && s.order == Suffix(arrivals, Window(s.capacity, |arrivals|))
  }

  lemma InsertSlidesWindow(s: Shard, arrivals: seq<nat>, key: nat, format: VendorFormat)
    requires IsWindow(s, arrivals)
    ensures IsWindow(ShardInsert(s, key, format), if key in s.entries then arrivals else arrivals + [key])
  {
    InsertKeepsKeySet(s, key, format);
    if key !in s.entries { OrderSlides(s.capacity, s.order, arrivals, key); }
  }

  lemma OrderSlides(capacity: nat, order: seq<nat>, arrivals: seq<nat>, key: nat)
    requires order == Suffix(arrivals, Window(capacity, |arrivals|))
    ensures (if |order| >= capacity && order != [] then order[1..] + [key] else order + [key])
            == Suffix(arrivals + [key], Window(capacity, |arrivals| + 1))
  {
    var w := Window(capacity, |arrivals|);
    SuffixPush(arrivals, w, key);
    assert Window(capacity, |arrivals| + 1) == if w >= capacity && w > 0 then w else w + 1;
  }

  lemma EmptyWindow(capacity: nat)
    ensures IsWindow(NewShard(capacity), [])
  {
    var none: seq<nat> := [];
    assert Suffix(none, 0) == none;
  }

  lemma StepWindow(s: Shard, arrivals: seq<nat>, op: Op)
    requires IsWindow(s, arrivals)
    ensures IsWindow(Applied(s, op), Arrived(s, arrivals, op)) && Applied(s, op).capacity == s.capacity
  {
    if op.Store? { InsertSlidesWindow(s, arrivals, op.key, op.format); }
  }

  /** After any run a shard is the window of its last arrivals. Lookups play no part in what stays. */
  lemma {:induction false} ShardIsFifoWindow(capacity: nat, ops: seq<Op>)
    ensures Run(capacity, ops).capacity == capacity
    ensures IsWindow(Run(capacity, ops), Arrivals(capacity, ops))
  {
    if ops == [] {
      EmptyWindow(capacity);
    } else {
      ShardIsFifoWindow(capacity, Init(ops));
      StepWindow(Run(capacity, Init(ops)), Arrivals(capacity, Init(ops)), Last(ops));
    }
  }

  /** And every key it holds answers with the format it was last stored with. */
  lemma {:induction false} ShardAnswersLatest(capacity: nat, ops: seq<Op>, key: nat)
    ensures var r := ShardGet(Run(capacity, ops), key); r == None || r == LastStored(ops, key)
  {
    if ops != [] { ShardAnswersLatest(capacity, Init(ops), key); }
  }

  lemma RunPush(capacity: nat, ops: seq<Op>, op: Op)
    ensures Run(capacity, ops + [op]) == Applied(Run(capacity, ops), op)
  {
    assert Init(ops + [op]) == ops;
  }

  /** What an LRU cache promises and this one does not do: a key that was just hit is evicted while an
  untouched, younger one stays. */
  lemma HitDoesNotRefresh(a: nat, b: nat, c: nat, f: VendorFormat)
    requires a != b && b != c && a != c
    ensures var s := Run(2, [Store(a, f), Store(b, f), Lookup(a), Store(c, f)]); a !in s.entries && b in s.entries
  {
    RunPush(2, [], Store(a, f));
    RunPush(2, [Store(a, f)], Store(b, f));
    RunPush(2, [Store(a, f), Store(b, f)], Lookup(a));
    RunPush(2, [Store(a, f), Store(b, f), Lookup(a)], Store(c, f));
    var s0, s1, s2 := Run(2, []), Run(2, [] + [Store(a, f)]), Run(2, [Store(a, f)] + [Store(b, f)]);
    assert s1 == Shard(2, map[a := f], [a]) by { assert [] + [a] == [a]; }
    assert [] + [Store(a, f)] == [Store(a, f)];
    assert s2 == Shard(2, map[a := f, b := f], [a, b]) by { assert [a] + [b] == [a, b]; }
    assert [Store(a, f)] + [Store(b, f)] == [Store(a, f), Store(b, f)];
    assert [Store(a, f), Store(b, f)] + [Lookup(a)] == [Store(a, f), Store(b, f), Lookup(a)];
    assert [Store(a, f), Store(b, f), Lookup(a)] + [Store(c, f)] == [Store(a, f), Store(b, f), Lookup(a), Store(c, f)];
    assert s2.entries.Keys == {a, b};
    assert |s2.entries| == |s2.entries.Keys| == 2;
  }

  function LruStep(capacity: nat, lru: seq<nat>, op: Op): seq<nat> {
    match op
    case Lookup(key) => Used(lru, key)
    case Store(key, _) => Added(lru, key, capacity)
  }

  /** What an exact LRU cache of this capacity would hold: hits and repeated stores count as uses. */
  function Lru(capacity: nat, ops: seq<Op>): seq<nat> {
    if ops == [] then [] else LruStep(capacity, Lru(capacity, Init(ops)), Last(ops))
  }

  /** The shard has the recency order of the LRU cache after every operation. */
  ghost predicate LruThroughout(capacity: nat, ops: seq<Op>) {
    Run(capacity, ops).order == Lru(capacity, ops) && (ops != [] ==> LruThroughout(capacity, Init(ops)))
  }

  /** Every operation that finds its key in the shard finds it as the newest arrival. */
  predicate TouchesNewest(capacity: nat, ops: seq<Op>) {
    ops == []
    || (TouchesNewest(capacity, Init(ops)) && NewestOrAbsent(Run(capacity, Init(ops)).order, Last(ops).key))
  }

  predicate NewestOrAbsent(order: seq<nat>, key: nat) {
    key in order ==> key == Last(order)
  }

  lemma StepIsLruIff(s: Shard, op: Op)
    requires KeySet(s.entries, s.order)
    ensures Applied(s, op).order == LruStep(s.capacity, s.order, op) <==> NewestOrAbsent(s.order, op.key)
  {
    if op.key in s.order { MovesIff(s.order, op.key); }
  }

  /** A shard keeps the exact recency order throughout a run if and only if no operation of the run
  finds its key anywhere but at the newest end. */
  lemma {:induction false} ShardIsLruIff(capacity: nat, ops: seq<Op>)
    ensures LruThroughout(capacity, ops) <==> TouchesNewest(capacity, ops)
  {
    if ops != [] {
      ShardIsLruIff(capacity, Init(ops));
      ShardIsFifoWindow(capacity, Init(ops));
      StepIsLruIff(Run(capacity, Init(ops)), Last(ops));
    }
  }

  /** The shard holds the keys of the LRU cache after every operation. */
  ghost predicate SameKeysThroughout(capacity: nat, ops: seq<Op>) {
    SameKeys(Run(capacity, ops).order, Lru(capacity, ops)) && (ops != [] ==> SameKeysThroughout(capacity, Init(ops)))
  }

  /** If the operation evicts, the oldest arrival is also the least recently used key. */
  predicate SameVictim(s: Shard, lru: seq<nat>, op: Op) {
    op.Store? && Evicts(s, op.key) ==> lru != [] && s.order[0] == lru[0]
  }

  predicate SameVictims(capacity: nat, ops: seq<Op>) {
    ops == []
    || (SameVictims(capacity, Init(ops)) && SameVictim(Run(capacity, Init(ops)), Lru(capacity, Init(ops)), Last(ops)))
  }

  lemma {:induction false} LruDistinct(capacity: nat, ops: seq<Op>)
    ensures Distinct(Lru(capacity, ops))
  {
    if ops != [] {
      LruDistinct(capacity, Init(ops));
      StaysDistinct(Lru(capacity, Init(ops)), Last(ops).key, capacity);
    }
  }

  lemma StoreSameKeysIff(s: Shard, lru: seq<nat>, key: nat, format: VendorFormat)
    requires KeySet(s.entries, s.order) && Distinct(lru) && SameKeys(s.order, lru) && key !in s.entries
    ensures SameKeys(ShardInsert(s, key, format).order, Added(lru, key, s.capacity))
            <==> SameVictim(s, lru, Store(key, format))
  {
    SameKeysSize(s.order, lru);
    if Evicts(s, key) { ReplaceHeadIff(s.order, lru, key); } else { PushKeys(s.order, lru, key); }
  }

  lemma StepSameKeysIff(s: Shard, lru: seq<nat>, op: Op)
    requires KeySet(s.entries, s.order) && Distinct(lru) && SameKeys(s.order, lru)
    ensures SameKeys(Applied(s, op).order, LruStep(s.capacity, lru, op)) <==> SameVictim(s, lru, op)
  {
    if op.key in lru {
      MoveKeepsKeys(lru, op.key);
    } else if op.Store? {
      StoreSameKeysIff(s, lru, op.key, op.format);
    }
  }

  /** A shard holds exactly the keys of an LRU cache throughout a run if and only if every store that
  evicts finds the same key at the head of both lists. */
  lemma {:induction false} ShardHoldsLruIff(capacity: nat, ops: seq<Op>)
    ensures SameKeysThroughout(capacity, ops) <==> SameVictims(capacity, ops)
  {
    if ops != [] {
      ShardHoldsLruIff(capacity, Init(ops));
      ShardIsFifoWindow(capacity, Init(ops));
      LruDistinct(capacity, Init(ops));
      if SameKeysThroughout(capacity, Init(ops)) {
        StepSameKeysIff(Run(capacity, Init(ops)), Lru(capacity, Init(ops)), Last(ops));
      }
    }
  }

  // ---------- the sharded cache ----------

  type Shards = seq<Shard>

  /** `signature & (n - 1)` for a power of two n. */
  function ShardOf(cache: Shards, signature: nat): nat
    requires cache != []
  {
    signature % |cache|
  }

  function Cached(cache: Shards, signature: nat): Option<VendorFormat>
    requires cache != []
  {
    ShardGet(cache[ShardOf(cache, signature)], signature)
  }

  function Stored(cache: Shards, signature: nat, format: VendorFormat): (r: Shards)
    requires cache != []
    ensures |r| == |cache|
  {
    var i := ShardOf(cache, signature);
    cache[i := ShardInsert(cache[i], signature, format)]
  }

  /** Storing a signature makes it answer with its format and can only make others forget. */
  lemma StoreEffect(cache: Shards, signature: nat, format: VendorFormat, other: nat)
    requires cache != []
    ensures Cached(Stored(cache, signature, format), signature) == Some(format)
    ensures other != signature ==>
              var r := Cached(Stored(cache, signature, format), other); r == None || r == Cached(cache, other)
  {}

  /** Every shard holds only signatures that belong to it, within its capacity, one for a capacity of zero. */
  ghost predicate Sharded(cache: Shards) {
    forall i :: 0 <= i < |cache| ==> ShardOk(cache[i]) && forall sig :: sig in cache[i].entries ==> sig % |cache| == i
  }

  ghost predicate ShardOk(s: Shard) {
    KeySet(s.entries, s.order) && |s.entries| <= if s.capacity == 0 then 1 else s.capacity
  }

  lemma InsertKeepsShardOk(s: Shard, key: nat, format: VendorFormat)
    requires ShardOk(s)
    ensures ShardOk(ShardInsert(s, key, format))
  {
    InsertKeepsKeySet(s, key, format);
  }

  lemma NewCacheSharded(n: nat, capacity: nat)
    ensures Sharded(seq(n, _ => NewShard(capacity)))
  {}

  /** A store keeps every signature in its own shard and every shard within its capacity. */
  lemma StoreKeepsSharded(cache: Shards, signature: nat, format: VendorFormat)
    requires cache != [] && Sharded(cache)
    ensures Sharded(Stored(cache, signature, format))
  {
    var i := ShardOf(cache, signature);
    var cache' := Stored(cache, signature, format);
    InsertKeepsShardOk(cache[i], signature, format);
    forall j | 0 <= j < |cache'|
      ensures ShardOk(cache'[j]) && forall sig :: sig in cache'[j].entries ==> sig % |cache'| == j
    {
      assert ShardOk(cache[j]);
    }
  }

  /** The cache object with its counters. */
  class SignatureLruCache {
    var shards: Shards
    var hits: nat
    var misses: nat
    var evictions: nat

    constructor (numShards: nat, capacity: nat)
      requires numShards > 0
      ensures shards == seq(numShards, _ => NewShard(capacity)) && hits == misses == evictions == 0
    {
      shards := seq(numShards, _ => NewShard(capacity));
      hits, misses, evictions := 0, 0, 0;
    }

    method Get(signature: nat) returns (r: Option<VendorFormat>)
      requires shards != []
      modifies this`hits, this`misses
      ensures r == Cached(shards, signature)
      ensures hits + misses == old(hits + misses) + 1 && (hits > old(hits) <==> r.Some?)
    {
      r := ShardGet(shards[signature % |shards|], signature);
      if r.Some? { hits := hits + 1; } else { misses := misses + 1; }
    }

    method Insert(signature: nat, format: VendorFormat)
      requires shards != []
      modifies this`shards, this`evictions
      ensures shards == Stored(old(shards), signature, format)
      ensures evictions == old(evictions)
                           + if Evicts(old(shards)[ShardOf(old(shards), signature)], signature) then 1 else 0
    {
      var i := signature % |shards|;
      if Evicts(shards[i], signature) { evictions := evictions + 1; }
      shards := shards[i := ShardInsert(shards[i], signature, format)];
    }
  }
}
