/** What the pipeline answers, said without its tiers: in terms of the cache, the routes, the registered
parsers and the extractors alone. */
module PipelineAnswers {
  import opened Collections
  import opened SignatureCache
  import opened R = Registry
  import opened Pipeline

  /** What the parser registered under a key makes of the line. */
  function Found(w: World, r: Registry, key: string, raw: string): Option<string> {
    if key in r.parsers then w.matcher(r.parsers[key].parser, raw) else None
  }

  /** The key that an open route leads this line's signature to. */
  function Route(s: State, sig: nat): Option<string> {
    if s.routesOpen > 0 && sig in s.routes then Some(s.routes[sig]) else None
  }

  /** With exact gates every installed route is open. */
  lemma RoutesAreOpen(s: State, sig: nat)
    requires GatesExact(s)
    ensures Route(s, sig) == if sig in s.routes then Some(s.routes[sig]) else None
  {
    if sig in s.routes { assert s.routes.Keys != {} && |s.routes.Keys| == |s.routes|; }
  }

  /** What the classifier's own extractor makes of the line. */
  function Own(w: World, raw: string): Activity {
    if w.classify(raw).Unknown? then Unparsed(raw)
    else match w.extract(w.classify(raw), raw)
         case Some(fields) => Native(fields, raw)
         case None => Unparsed(raw)
  }

  lemma LosslessIsOwn(w: World, raw: string)
    ensures ParseLossless(w, raw) == Own(w, raw)
  {}

  // ---------- recognised lines and hits ----------

  /** A cached format answers with its own extractor, and failing that with the line's. */
  lemma HitAnswer(w: World, s: State, raw: string, isNew: bool)
    requires s.cache != [] && Cached(s.cache, w.signature(raw)).Some?
    ensures var format := Cached(s.cache, w.signature(raw)).value;
            Process(w, s, raw, isNew).1
            == if !format.Unknown? && w.extract(format, raw).Some? then Native(w.extract(format, raw).value, raw)
               else Own(w, raw)
  {}

  /** Without a cached format a recognised line is answered by its own extractor, or kept unparsed; a
  success answers the next line of that signature from the cache. */
  lemma RecognisedAnswer(w: World, s: State, raw: string, isNew: bool)
    requires s.cache != [] && Cached(s.cache, w.signature(raw)).None? && !w.classify(raw).Unknown?
    ensures var (s', a) := Process(w, s, raw, isNew);
            && a == Own(w, raw)
            && Cached(s'.cache, w.signature(raw)) == if a.Native? then Some(w.classify(raw)) else None
  {
    var sig := w.signature(raw);
    var s1 := TryRoute(w, Counted(s), raw, sig).0;
    assert s1.cache == s.cache;
    StoreEffect(s.cache, sig, w.classify(raw), sig);
  }

  // ---------- unknown lines ----------

  lemma SameMatching(w: World, r: Registry, r': Registry, raw: string)
    requires r'.parsers.Keys == r.parsers.Keys
    requires forall k :: k in r.parsers ==> r'.parsers[k].parser == r.parsers[k].parser
    ensures Matching(w.matcher, r', raw) == Matching(w.matcher, r, raw)
    ensures forall k :: Found(w, r', k, raw) == Found(w, r, k, raw)
  {}

  lemma TouchKeepsParsers(r: Registry, key: string)
    ensures var r' := Touch(Tick(r), key);
            r'.parsers.Keys == r.parsers.Keys && forall k :: k in r.parsers ==> r'.parsers[k].parser == r.parsers[k].parser
  {}

  /** The state that reaches the scan when no route answers. */
  function BeforeScan(w: World, s: State, raw: string, isNew: bool): State {
    var sig := w.signature(raw);
    Mined(TryRoute(w, Counted(s), raw, sig).0, raw, sig, isNew)
  }

  lemma ScanSeesSame(w: World, s: State, raw: string, isNew: bool)
    ensures var r := BeforeScan(w, s, raw, isNew).registry;
            && Matching(w.matcher, r, raw) == Matching(w.matcher, s.registry, raw)
            && (forall k :: Found(w, r, k, raw) == Found(w, s.registry, k, raw))
            && BeforeScan(w, s, raw, isNew).cache == s.cache
  {
    var r := BeforeScan(w, s, raw, isNew).registry;
    if r != s.registry {
      TouchKeepsParsers(s.registry, s.routes[w.signature(raw)]);
      SameMatching(w, s.registry, r, raw);
    }
  }

  lemma WinnerIsLeast(w: World, r: Registry, raw: string, key: string)
    requires IsLeast(key, Matching(w.matcher, r, raw))
    ensures Winner(w, r, raw) == Some(key)
  {
    LexTotal(Winner(w, r, raw).value, key);
  }

  /** An open route whose parser matches the line answers it with that parser's fields. */
  lemma RouteAnswers(w: World, s: State, raw: string, isNew: bool, key: string)
    requires s.cache != [] && Cached(s.cache, w.signature(raw)).None? && w.classify(raw).Unknown?
    requires Route(s, w.signature(raw)) == Some(key) && Found(w, s.registry, key, raw).Some?
    ensures Process(w, s, raw, isNew).1 == Dynamic(key, Found(w, s.registry, key, raw).value, raw)
  {}

  /** Whether an open route answers the line. */
  predicate Routed(w: World, s: State, raw: string) {
    var route := Route(s, w.signature(raw));
    route.Some? && Found(w, s.registry, route.value, raw).Some?
  }

  lemma Unrouted(w: World, s: State, raw: string, isNew: bool)
    requires s.cache != [] && Cached(s.cache, w.signature(raw)).None? && w.classify(raw).Unknown? && !Routed(w, s, raw)
    ensures Process(w, s, raw, isNew) == ParsePinned(w, BeforeScan(w, s, raw, isNew), raw, w.signature(raw))
  {
    assert TryRoute(w, Counted(s), raw, w.signature(raw)).1.None?;
  }

  /** Without a route that answers, the least key whose parser matches answers with its fields. */
  lemma ScanAnswers(w: World, s: State, raw: string, isNew: bool, key: string)
    requires s.cache != [] && Cached(s.cache, w.signature(raw)).None? && w.classify(raw).Unknown? && !Routed(w, s, raw)
    requires IsLeast(key, Matching(w.matcher, s.registry, raw))
    ensures var (s', a) := Process(w, s, raw, isNew);
            && Found(w, s.registry, key, raw).Some? && a == Dynamic(key, Found(w, s.registry, key, raw).value, raw)
            && w.signature(raw) in s'.routes && s'.routes[w.signature(raw)] == key
            && s'.cache == s.cache
  {
    var s1 := BeforeScan(w, s, raw, isNew);
    Unrouted(w, s, raw, isNew);
    ScanSeesSame(w, s, raw, isNew);
    WinnerIsLeast(w, s1.registry, raw, key);
    assert Found(w, s1.registry, key, raw) == Found(w, s.registry, key, raw);
  }

  /** Without a route and without a match the line is kept unparsed. */
  lemma NothingAnswers(w: World, s: State, raw: string, isNew: bool)
    requires s.cache != [] && Cached(s.cache, w.signature(raw)).None? && w.classify(raw).Unknown? && !Routed(w, s, raw)
    requires forall key :: Found(w, s.registry, key, raw) == None
    ensures Process(w, s, raw, isNew).1 == Unparsed(raw)
  {
    Unrouted(w, s, raw, isNew);
    ScanSeesSame(w, s, raw, isNew);
    var keys := Matching(w.matcher, s.registry, raw);
    forall k ensures k !in keys { assert Found(w, s.registry, k, raw) == None; }
    assert keys == {};
    LosslessIsOwn(w, raw);
  }

  // ---------- promotion ----------

  lemma ScanKeepsParsers(w: World, s: State, raw: string, isNew: bool)
    requires s.cache != [] && Cached(s.cache, w.signature(raw)).None? && w.classify(raw).Unknown? && !Routed(w, s, raw)
    ensures forall k, line :: Found(w, Process(w, s, raw, isNew).0.registry, k, line) == Found(w, s.registry, k, line)
  {
    var s1 := BeforeScan(w, s, raw, isNew);
    Unrouted(w, s, raw, isNew);
    RouteKeepsParsers(w, s, raw, isNew);
    PinnedKeepsParsers(w, s1, raw, w.signature(raw));
  }

  lemma RouteKeepsParsers(w: World, s: State, raw: string, isNew: bool)
    ensures forall k, line :: Found(w, BeforeScan(w, s, raw, isNew).registry, k, line) == Found(w, s.registry, k, line)
  {
    if BeforeScan(w, s, raw, isNew).registry != s.registry {
      TouchKeepsParsers(s.registry, s.routes[w.signature(raw)]);
    }
  }

  lemma PinnedKeepsParsers(w: World, s: State, raw: string, sig: nat)
    requires s.cache != [] && w.classify(raw).Unknown?
    ensures forall k, line :: Found(w, ParsePinned(w, s, raw, sig).0.registry, k, line) == Found(w, s.registry, k, line)
  {
    match Winner(w, s.registry, raw) {
      case Some(key) => TouchKeepsParsers(s.registry, key);
      case None =>
    }
  }

  /** The winner of a scan answers the next unknown line of that signature that its parser matches. */
  lemma WinnerAnswersNext(w: World, s: State, raw: string, isNew: bool, key: string, next: string, isNew': bool)
    requires GatesExact(s) && Cached(s.cache, w.signature(raw)).None? && w.classify(raw).Unknown? && !Routed(w, s, raw)
    requires IsLeast(key, Matching(w.matcher, s.registry, raw))
    requires w.signature(next) == w.signature(raw) && w.classify(next).Unknown? && Found(w, s.registry, key, next).Some?
    ensures var s' := Process(w, s, raw, isNew).0;
            Process(w, s', next, isNew').1 == Dynamic(key, Found(w, s.registry, key, next).value, next)
  {
    var s' := Process(w, s, raw, isNew).0;
    ScanAnswers(w, s, raw, isNew, key);
    ScanKeepsParsers(w, s, raw, isNew);
    ProcessKeeps(w, s, raw, isNew);
    assert s'.routes.Keys != {} && |s'.routes.Keys| == |s'.routes|;
    RouteAnswers(w, s', next, isNew', key);
  }

  /** A route whose parser is gone or no longer matches is dropped, or replaced by the scan's winner. */
  lemma StaleRouteGoes(w: World, s: State, raw: string, isNew: bool)
    requires s.cache != [] && Cached(s.cache, w.signature(raw)).None? && w.classify(raw).Unknown?
    requires Route(s, w.signature(raw)).Some? && !Routed(w, s, raw)
    ensures var s', sig := Process(w, s, raw, isNew).0, w.signature(raw);
            sig in s'.routes ==> IsLeast(s'.routes[sig], Matching(w.matcher, s.registry, raw))
  {
    Unrouted(w, s, raw, isNew);
    ScanSeesSame(w, s, raw, isNew);
  }

  /** Every call counts one line, and one more as known to the miner when it gets there and is not new. */
  lemma EveryLineCounted(w: World, s: State, raw: string, isNew: bool)
    requires s.cache != []
    ensures var s' := Process(w, s, raw, isNew).0;
            var mined := Cached(s.cache, w.signature(raw)).None? && !(w.classify(raw).Unknown? && Routed(w, s, raw));
            s'.total == s.total + 1 && s'.drainHits == s.drainHits + One(mined && !isNew)
  {
    MissTotal(w, Counted(s), raw, w.signature(raw), isNew);
  }

  lemma MissTotal(w: World, s: State, raw: string, sig: nat, isNew: bool)
    requires s.cache != []
    ensures var s', t := ProcessMiss(w, s, raw, sig, isNew).0, TryRoute(w, s, raw, sig).1;
            s'.total == s.total && s'.drainHits == s.drainHits + One(t.None? && !isNew)
  {
    var s1 := TryRoute(w, s, raw, sig).0;
    assert s1.total == s.total && s1.drainHits == s.drainHits;
    PinnedTotal(w, Mined(s1, raw, sig, isNew), raw, sig);
  }

  lemma PinnedTotal(w: World, s: State, raw: string, sig: nat)
    requires s.cache != []
    ensures var s' := ParsePinned(w, s, raw, sig).0; s'.total == s.total && s'.drainHits == s.drainHits
  {}
}
