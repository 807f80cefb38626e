/** The pipeline as an object over the cache and registry objects: each method performs exactly the
step that `Pipeline` describes. */
module TieredPipelines {
  import opened Collections
  import opened SignatureCache
  import R = Registry
  import opened ParserRegistry
  import P = Pipeline

  class TieredPipeline {
    const world: P.World
    const cache: SignatureLruCache
    const registry: DynamicParserRegistry
    const channelCapacity: nat
    var counts: map<nat, nat>
    var open: int
    var channel: seq<P.Task>
    var dispatches: nat
    var routes: map<nat, string>
    var routesOpen: int
    var total: nat
    var drainHits: nat

    ghost function Abs(): P.State
      reads this, cache, registry
    {
      P.State(cache.shards, counts, open, channel, channelCapacity, dispatches, routes, routesOpen, registry.Abs(),
              total, drainHits)
    }

    constructor (world: P.World, shards: nat, perShard: nat, channelCapacity: nat, registryCapacity: nat)
      requires shards > 0
      ensures fresh(cache) && fresh(registry) && this.world == world
      ensures Abs() == P.Start(shards, perShard, channelCapacity, registryCapacity)
    {
      this.world, this.channelCapacity := world, channelCapacity;
      cache := new SignatureLruCache(shards, perShard);
      registry := new DynamicParserRegistry(registryCapacity);
      counts, open, channel, dispatches := map[], 0, [], 0;
      routes, routesOpen, total, drainHits := map[], 0, 0, 0;
    }

    method DispatchTriageExemplar(key: nat, raw: string)
      modifies this
      ensures Abs() == P.Dispatch(old(Abs()), key, raw)
      ensures var within, room := P.CountOf(old(counts), key) < 8, |old(channel)| < channelCapacity;
              && channel == old(channel) + (if within && room then [P.Task(key, raw)] else [])
              && dispatches == old(dispatches) + if within then 1 else 0
    {
      var n := P.CountOf(counts, key);
      if n >= P.MAX_EXEMPLARS_PER_CLUSTER { return; }
      counts := counts[key := n + 1];
      if n == 0 { open := open + 1; }
      if n + 1 >= P.MAX_EXEMPLARS_PER_CLUSTER { open := open - 1; }
      if |channel| < channelCapacity { channel := channel + [P.Task(key, raw)]; }
      dispatches := dispatches + 1;
    }

    method InstallRoute(sig: nat, key: string)
      modifies this`routes, this`routesOpen
      ensures Abs() == P.AddRoute(old(Abs()), sig, key)
    {
      if sig !in routes { routesOpen := routesOpen + 1; }
      routes := routes[sig := key];
    }

    method RemoveRoute(sig: nat)
      modifies this`routes, this`routesOpen
      ensures Abs() == P.DropRoute(old(Abs()), sig)
    {
      if sig in routes { routesOpen := routesOpen - 1; }
      routes := routes - {sig};
    }

    lemma WinnerIs(r: R.Registry, raw: string, key: string)
      requires R.IsLeast(key, R.Matching(world.matcher, r, raw))
      ensures P.Winner(world, r, raw) == Some(key)
    {
      var w := P.Winner(world, r, raw).value;
      R.LexTotal(w, key);
    }

    /** Unknown shapes only: the registry scan, and lossless when nothing matches. */
    method ParseDynamic(raw: string, sig: nat) returns (a: P.Activity)
      requires cache.shards != [] && world.classify(raw).Unknown?
      modifies this`routes, this`routesOpen, registry
      ensures (Abs(), a) == P.ParsePinned(world, old(Abs()), raw, sig)
    {
      var hit := registry.ParseAnyKeyed(world.matcher, raw);
      if hit.Some? {
        WinnerIs(old(registry.Abs()), raw, hit.value.0);
        InstallRoute(sig, hit.value.0);
        return P.Dynamic(hit.value.0, hit.value.1, raw);
      }
      return P.ParseLossless(world, raw);
    }

    method ParsePinned(raw: string, sig: nat) returns (a: P.Activity)
      requires cache.shards != []
      modifies this`routes, this`routesOpen, registry, cache
      ensures (Abs(), a) == P.ParsePinned(world, old(Abs()), raw, sig)
    {
      var format := world.classify(raw);
      if format.Unknown? {
        a := ParseDynamic(raw, sig);
        return;
      }
      var parsed := P.ParseWithFormat(world, raw, format);
      if parsed.None? { return P.ParseLossless(world, raw); }
      cache.Insert(sig, format);
      return parsed.value;
    }

    method TryRoute(raw: string, sig: nat) returns (r: Option<P.Activity>)
      modifies this`routes, this`routesOpen, registry
      ensures (Abs(), r) == P.TryRoute(world, old(Abs()), raw, sig)
    {
      if routesOpen <= 0 || sig !in routes || !world.classify(raw).Unknown? { return None; }
      var key := routes[sig];
      var parsed := registry.ParseKey(world.matcher, key, raw);
      if parsed.Some? { return Some(P.Dynamic(key, parsed.value, raw)); }
      RemoveRoute(sig);
      return None;
    }

    method Mine(raw: string, sig: nat, isNew: bool)
      modifies this
      ensures Abs() == P.Mined(old(Abs()), raw, sig, isNew)
    {
      if !isNew { drainHits := drainHits + 1; }
      DispatchTriageExemplar(sig, raw);
    }

    /** `isNew` is the template miner's answer to the line. */
    method ProcessMiss(raw: string, sig: nat, isNew: bool) returns (a: P.Activity)
      requires cache.shards != []
      modifies this, registry, cache
      ensures (Abs(), a) == P.ProcessMiss(world, old(Abs()), raw, sig, isNew)
    {
      var routed := TryRoute(raw, sig);
      if routed.Some? { return routed.value; }
      Mine(raw, sig, isNew);
      a := ParsePinned(raw, sig);
    }

    /** A Tier-1 hit dispatches only while some budget is open. */
    method ProcessHit(raw: string, sig: nat, format: VendorFormat) returns (a: P.Activity)
      modifies this
      ensures (Abs(), a) == (P.GatedDispatch(old(Abs()), sig, raw), P.ParseOrLossless(world, raw, format))
    {
      if open > 0 { DispatchTriageExemplar(sig, raw); }
      return P.ParseOrLossless(world, raw, format);
    }

    /** Counts the line and looks its signature up. */
    method Lookup(sig: nat) returns (hit: Option<VendorFormat>)
      requires cache.shards != []
      modifies this`total, cache`hits, cache`misses
      ensures Abs() == P.Counted(old(Abs())) && hit == Cached(cache.shards, sig)
    {
      total := total + 1;
      hit := cache.Get(sig);
    }

    method Process(raw: string, isNew: bool) returns (a: P.Activity)
      requires cache.shards != []
      modifies this, registry, cache
      ensures (Abs(), a) == P.Process(world, old(Abs()), raw, isNew)
    {
      var sig := world.signature(raw);
      var hit := Lookup(sig);
      if hit.Some? { a := ProcessHit(raw, sig, hit.value); } else { a := ProcessMiss(raw, sig, isNew); }
    }
  }
}
