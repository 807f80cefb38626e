/** The three-tier pipeline, one call at a time.

Signatures, the classifier, the native extractors and dynamic matching are parameters. What the
template miner answers to a line is a parameter of the call; it only decides a counter. Event ids and
timestamps, which differ between any two calls, are not part of an activity here. */
module Pipeline {
  import opened Collections
  import opened SignatureCache
  import opened R = Registry

  const MAX_EXEMPLARS_PER_CLUSTER: nat := 8

  datatype World = World(signature: string -> nat, classify: string -> VendorFormat,
                         extract: (VendorFormat, string) -> Option<string>, matcher: Matcher)

  /** A normalised event; `raw` is the preserved line. A native event carries what its extractor found and
  does not name the extractor. */
  datatype Activity =
    | Native(fields: string, raw: string)
    | Dynamic(key: string, fields: string, raw: string)
    | Unparsed(raw: string)

  // ---------- the universal parser ----------

  function ParseWithFormat(w: World, raw: string, format: VendorFormat): Option<Activity> {
    if format.Unknown? then None
    else match w.extract(format, raw)
         case None => None
         case Some(fields) => Some(Native(fields, raw))
  }

  function Parse(w: World, raw: string): Option<Activity> {
    ParseWithFormat(w, raw, w.classify(raw))
  }

  function ParseLossless(w: World, raw: string): Activity {
    match Parse(w, raw)
    case Some(a) => a
    case None => Unparsed(raw)
  }

  /** The pipeline's helper: the given format's extractor, falling back to lossless parsing. */
  function ParseOrLossless(w: World, raw: string, format: VendorFormat): Activity {
    match ParseWithFormat(w, raw, format)
    case Some(a) => a
    case None => ParseLossless(w, raw)
  }

  // ---------- state ----------

  datatype Task = Task(key: nat, sample: string)

  datatype State = State(cache: Shards, counts: map<nat, nat>, open: int, channel: seq<Task>, channelCapacity: nat,
                         dispatches: nat, routes: map<nat, string>, routesOpen: int, registry: Registry,
                         total: nat, drainHits: nat)

  function CountOf(counts: map<nat, nat>, key: nat): nat {
    if key in counts then counts[key] else 0
  }

  /** `dispatch_triage_exemplar` */
  function Dispatch(s: State, key: nat, raw: string): State {
    var n := CountOf(s.counts, key);
    if n >= MAX_EXEMPLARS_PER_CLUSTER then s
    else
      s.(counts := s.counts[key := n + 1],
         open := s.open + One(n == 0) - One(n + 1 >= MAX_EXEMPLARS_PER_CLUSTER),
         channel := if |s.channel| < s.channelCapacity then s.channel + [Task(key, raw)] else s.channel,
         dispatches := s.dispatches + 1)
  }

  /** The smallest matching key, if any parser matches. */
  ghost function Winner(w: World, r: Registry, raw: string): (k: Option<string>)
    ensures k.Some? ==> IsLeast(k.value, Matching(w.matcher, r, raw))
    ensures k.None? <==> Matching(w.matcher, r, raw) == {}
  {
    var keys := Matching(w.matcher, r, raw);
    if keys == {} then None
    else
      LeastExists(keys);
      var k :| IsLeast(k, keys);
      Some(k)
  }

  function AddRoute(s: State, sig: nat, key: string): State {
    s.(routes := s.routes[sig := key], routesOpen := s.routesOpen + if sig in s.routes then 0 else 1)
  }

  function DropRoute(s: State, sig: nat): State {
    s.(routes := s.routes - {sig}, routesOpen := s.routesOpen - if sig in s.routes then 1 else 0)
  }

  /** `parse_pinned`: native, then registry, then lossless. */
  ghost function ParsePinned(w: World, s: State, raw: string, sig: nat): (r: (State, Activity))
    requires s.cache != []
    ensures r.0.cache != []
  {
    var format := w.classify(raw);
    if !format.Unknown? then
      match ParseWithFormat(w, raw, format)
      case Some(a) => (s.(cache := Stored(s.cache, sig, format)), a)
      case None => (s, ParseLossless(w, raw))
    else
      match Winner(w, s.registry, raw)
      case Some(key) =>
        var fields := w.matcher(s.registry.parsers[key].parser, raw).value;
        (AddRoute(s.(registry := Touch(Tick(s.registry), key)), sig, key), Dynamic(key, fields, raw))
      case None => (s.(registry := Tick(s.registry)), ParseLossless(w, raw))
  }

  /** Tier 1b: what the route for this signature leads to, and the state after trying it. */
  function TryRoute(w: World, s: State, raw: string, sig: nat): (r: (State, Option<Activity>))
    ensures r.0.cache == s.cache
  {
    if s.routesOpen <= 0 || sig !in s.routes || !w.classify(raw).Unknown? then (s, None)
    else
      var key := s.routes[sig];
      var used := s.(registry := Touch(Tick(s.registry), key));
      if MatchesLine(w.matcher, s.registry, key, raw)
      then (used, Some(Dynamic(key, w.matcher(s.registry.parsers[key].parser, raw).value, raw)))
      else (DropRoute(used, sig), None)
  }

  /** The line goes through the miner and, within its budget, to the triage worker. */
  function Mined(s: State, raw: string, sig: nat, isNew: bool): (s': State)
    ensures s'.cache == s.cache
  {
    Dispatch(s.(drainHits := s.drainHits + if isNew then 0 else 1), sig, raw)
  }

  /** Everything behind a Tier-1 miss. */
  ghost function ProcessMiss(w: World, s: State, raw: string, sig: nat, isNew: bool): (r: (State, Activity))
    requires s.cache != []
    ensures r.0.cache != []
  {
    var t := TryRoute(w, s, raw, sig);
    if t.1.Some? then (t.0, t.1.value) else ParsePinned(w, Mined(t.0, raw, sig, isNew), raw, sig)
  }

  /** The Tier-1 dispatch, made only while some budget is open. */
  function GatedDispatch(s: State, sig: nat, raw: string): State {
    if s.open > 0 then Dispatch(s, sig, raw) else s
  }

  function Counted(s: State): State {
    s.(total := s.total + 1)
  }

  ghost function Process(w: World, s: State, raw: string, isNew: bool): (r: (State, Activity))
    requires s.cache != []
    ensures r.0.cache != []
  {
    var sig := w.signature(raw);
    var hit := Cached(s.cache, sig);
    if hit.Some? then (GatedDispatch(Counted(s), sig, raw), ParseOrLossless(w, raw, hit.value))
    else ProcessMiss(w, Counted(s), raw, sig, isNew)
  }

  /** The same call without the gate: a Tier-1 hit always goes to the dispatch map. */
  ghost function ProcessUngated(w: World, s: State, raw: string, isNew: bool): (r: (State, Activity))
    requires s.cache != []
    ensures r.0.cache != []
  {
    var sig := w.signature(raw);
    var hit := Cached(s.cache, sig);
    if hit.Some? then (Dispatch(Counted(s), sig, raw), ParseOrLossless(w, raw, hit.value))
    else ProcessMiss(w, Counted(s), raw, sig, isNew)
  }

  // ---------- runs ----------

  /** A processed line, the worker taking a task, or the worker installing a parser and its route. */
  datatype Event =
    | ELog(raw: string, isNew: bool)
    | ETake
    | EInstall(sig: nat, key: string, parser: Parser, victim: string)

  ghost function Step(w: World, gated: bool, s: State, e: Event): (s': State)
    requires s.cache != []
    ensures s'.cache != []
  {
    match e
    case ELog(raw, isNew) => if gated then Process(w, s, raw, isNew).0 else ProcessUngated(w, s, raw, isNew).0
    case ETake => if s.channel == [] then s else s.(channel := s.channel[1..])
    case EInstall(sig, key, parser, victim) =>
      AddRoute(s.(registry := Registered(s.registry, key, parser, victim)), sig, key)
  }

  function Start(shards: nat, perShard: nat, channelCapacity: nat, registryCapacity: nat): (s: State)
    requires shards > 0
    ensures s.cache != []
  {
    State(seq(shards, _ => NewShard(perShard)), map[], 0, [], channelCapacity, 0, map[], 0,
          R.Registry(map[], 0, registryCapacity), 0, 0)
  }

  ghost function Run(w: World, gated: bool, start: State, events: seq<Event>): (s: State)
    requires start.cache != []
    ensures s.cache != []
  {
    if events == [] then start else Step(w, gated, Run(w, gated, start, Init(events)), Last(events))
  }

  // ---------- the gate ----------

  function UnderBudget(counts: map<nat, nat>): set<nat> {
    set k | k in counts && counts[k] < MAX_EXEMPLARS_PER_CLUSTER
  }

  ghost predicate CacheCovered(cache: Shards, counts: map<nat, nat>) {
    cache != [] && forall i, sig :: 0 <= i < |cache| && sig in cache[i].entries ==> sig in counts
  }

  ghost predicate BudgetExact(counts: map<nat, nat>, open: int) {
    && (forall k :: k in counts ==> 0 < counts[k] <= MAX_EXEMPLARS_PER_CLUSTER)
    && open == |UnderBudget(counts)|
  }

  /** Every cached signature has a dispatch entry, no entry passes the budget, and each gate counts
  exactly what it stands for. */
  ghost predicate GatesExact(s: State) {
    CacheCovered(s.cache, s.counts) && BudgetExact(s.counts, s.open) && s.routesOpen == |s.routes|
  }

  lemma BudgetStep(counts: map<nat, nat>, open: int, key: nat)
    requires BudgetExact(counts, open) && CountOf(counts, key) < MAX_EXEMPLARS_PER_CLUSTER
    ensures var n := CountOf(counts, key);
            BudgetExact(counts[key := n + 1], open + One(n == 0) - One(n + 1 >= MAX_EXEMPLARS_PER_CLUSTER))
  {
    var under, under' := UnderBudget(counts), UnderBudget(counts[key := CountOf(counts, key) + 1]);
    assert under - {key} == under' - {key};
    SizeAround(under, under', key);
  }

  lemma DispatchKeeps(s: State, key: nat, raw: string)
    requires GatesExact(s)
    ensures GatesExact(Dispatch(s, key, raw)) && key in Dispatch(s, key, raw).counts
  {
    if CountOf(s.counts, key) < MAX_EXEMPLARS_PER_CLUSTER { BudgetStep(s.counts, s.open, key); }
  }

  lemma MinedKeeps(s: State, raw: string, sig: nat, isNew: bool)
    requires GatesExact(s)
    ensures GatesExact(Mined(s, raw, sig, isNew)) && sig in Mined(s, raw, sig, isNew).counts
  {
    DispatchKeeps(s.(drainHits := s.drainHits + if isNew then 0 else 1), sig, raw);
  }

  lemma AddRouteKeeps(s: State, sig: nat, key: string)
    requires GatesExact(s)
    ensures GatesExact(AddRoute(s, sig, key))
  {
    assert s.routes[sig := key].Keys == s.routes.Keys + {sig};
    assert |s.routes.Keys| == |s.routes| && |s.routes[sig := key].Keys| == |s.routes[sig := key]|;
  }

  lemma DropRouteKeeps(s: State, sig: nat)
    requires GatesExact(s)
    ensures GatesExact(DropRoute(s, sig))
  {
    assert (s.routes - {sig}).Keys == s.routes.Keys - {sig};
    assert |s.routes.Keys| == |s.routes| && |(s.routes - {sig}).Keys| == |s.routes - {sig}|;
  }

  lemma StoreKeepsCovered(cache: Shards, counts: map<nat, nat>, sig: nat, format: VendorFormat)
    requires CacheCovered(cache, counts) && sig in counts
    ensures CacheCovered(Stored(cache, sig, format), counts)
  {}

  lemma PinnedKeeps(w: World, s: State, raw: string, sig: nat)
    requires GatesExact(s) && sig in s.counts
    ensures GatesExact(ParsePinned(w, s, raw, sig).0)
  {
    var format := w.classify(raw);
    if !format.Unknown? {
      StoreKeepsCovered(s.cache, s.counts, sig, format);
    } else {
      match Winner(w, s.registry, raw) {
        case Some(key) => AddRouteKeeps(s.(registry := Touch(Tick(s.registry), key)), sig, key);
        case None =>
      }
    }
  }

  lemma TryRouteKeeps(w: World, s: State, raw: string, sig: nat)
    requires GatesExact(s)
    ensures GatesExact(TryRoute(w, s, raw, sig).0)
  {
    if sig in s.routes { DropRouteKeeps(s.(registry := Touch(Tick(s.registry), s.routes[sig])), sig); }
  }

  lemma MissKeeps(w: World, s: State, raw: string, sig: nat, isNew: bool)
    requires GatesExact(s)
    ensures GatesExact(ProcessMiss(w, s, raw, sig, isNew).0)
  {
    TryRouteKeeps(w, s, raw, sig);
    var s1 := TryRoute(w, s, raw, sig).0;
    MinedKeeps(s1, raw, sig, isNew);
    PinnedKeeps(w, Mined(s1, raw, sig, isNew), raw, sig);
  }

  lemma GatedDispatchKeeps(s: State, sig: nat, raw: string)
    requires GatesExact(s)
    ensures GatesExact(GatedDispatch(s, sig, raw))
  {
    DispatchKeeps(s, sig, raw);
  }

  lemma ProcessKeeps(w: World, s: State, raw: string, isNew: bool)
    requires GatesExact(s)
    ensures GatesExact(Process(w, s, raw, isNew).0)
  {
    GatedDispatchKeeps(Counted(s), w.signature(raw), raw);
    MissKeeps(w, Counted(s), raw, w.signature(raw), isNew);
  }

  lemma StepKeeps(w: World, s: State, e: Event)
    requires GatesExact(s)
    ensures GatesExact(Step(w, true, s, e))
  {
    match e {
      case ELog(raw, isNew) => ProcessKeeps(w, s, raw, isNew);
      case ETake =>
      case EInstall(sig, key, parser, victim) =>
        AddRouteKeeps(s.(registry := Registered(s.registry, key, parser, victim)), sig, key);
    }
  }

  /** In a state with exact gates, a closed gate on a Tier-1 hit skips a dispatch that would have done
  nothing: the gated call and the ungated one agree on the answer and on the whole state. */
  lemma GateIsTransparent(w: World, s: State, raw: string, isNew: bool)
    requires GatesExact(s)
    ensures Process(w, s, raw, isNew) == ProcessUngated(w, s, raw, isNew)
  {
    var sig := w.signature(raw);
    if Cached(s.cache, sig).Some? && s.open <= 0 {
      assert UnderBudget(s.counts) == {};
      assert sig !in UnderBudget(s.counts);
    }
  }

  /** The gated pipeline refines the ungated one in every run, and its gates stay exact. */
  lemma {:induction false} GatedRefinesUngated(w: World, start: State, events: seq<Event>)
    requires GatesExact(start)
    ensures Run(w, true, start, events) == Run(w, false, start, events)
    ensures GatesExact(Run(w, true, start, events))
  {
    if events != [] {
      GatedRefinesUngated(w, start, Init(events));
      var s := Run(w, true, start, Init(events));
      StepKeeps(w, s, Last(events));
      match Last(events) {
        case ELog(raw, isNew) => GateIsTransparent(w, s, raw, isNew);
        case _ =>
      }
    }
  }

  lemma StartExact(shards: nat, perShard: nat, channelCapacity: nat, registryCapacity: nat)
    requires shards > 0
    ensures GatesExact(Start(shards, perShard, channelCapacity, registryCapacity))
  {}

  /** From the initial state the gate never makes a difference. */
  lemma GateNeverMatters(w: World, shards: nat, perShard: nat, channelCapacity: nat, registryCapacity: nat,
                         events: seq<Event>)
    requires shards > 0
    ensures var start := Start(shards, perShard, channelCapacity, registryCapacity);
            Run(w, true, start, events) == Run(w, false, start, events) && GatesExact(Run(w, true, start, events))
  {
    StartExact(shards, perShard, channelCapacity, registryCapacity);
    GatedRefinesUngated(w, Start(shards, perShard, channelCapacity, registryCapacity), events);
  }
}
