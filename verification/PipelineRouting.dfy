/** Who answers a line: native extractors own every format the classifier knows. */
module PipelineRouting {
  import opened Collections
  import opened SignatureCache
  import opened Pipeline

  /** In any state whatever, no line the classifier recognises is answered by a dynamic parser, and
  every answer preserves the raw line. */
  lemma NativeNeverDynamic(w: World, s: State, raw: string, isNew: bool)
    requires s.cache != []
    ensures var a := Process(w, s, raw, isNew).1;
            a.raw == raw && (!w.classify(raw).Unknown? ==> !a.Dynamic?)
  {}

  // ---------- agreement with lossless parsing ----------

  /** Every cached format is the classification of some line seen with that signature. */
  ghost predicate CacheJustified(w: World, cache: Shards, lines: set<string>) {
    cache != [] && forall i, sig :: 0 <= i < |cache| && sig in cache[i].entries ==> Justified(w, lines, sig, cache[i].entries[sig])
  }

  ghost predicate Justified(w: World, lines: set<string>, sig: nat, format: VendorFormat) {
    exists l :: l in lines && w.signature(l) == sig && w.classify(l) == format
  }

  function LinesOf(events: seq<Event>): set<string> {
    set e | e in events && e.ELog? :: e.raw
  }

  lemma JustifiedWiden(w: World, lines: set<string>, more: set<string>, sig: nat, format: VendorFormat)
    requires Justified(w, lines, sig, format) && lines <= more
    ensures Justified(w, more, sig, format)
  {}

  lemma StoreJustified(w: World, cache: Shards, lines: set<string>, raw: string)
    requires CacheJustified(w, cache, lines)
    ensures CacheJustified(w, Stored(cache, w.signature(raw), w.classify(raw)), lines + {raw})
    ensures CacheJustified(w, cache, lines + {raw})
  {
    var sig, format := w.signature(raw), w.classify(raw);
    assert Justified(w, lines + {raw}, sig, format) by { assert raw in lines + {raw}; }
    forall i, k | 0 <= i < |cache| && k in cache[i].entries ensures Justified(w, lines + {raw}, k, cache[i].entries[k]) {
      JustifiedWiden(w, lines, lines + {raw}, k, cache[i].entries[k]);
    }
    var cache' := Stored(cache, sig, format);
    forall i, k | 0 <= i < |cache'| && k in cache'[i].entries
      ensures Justified(w, lines + {raw}, k, cache'[i].entries[k])
    {
      if cache'[i] != cache[i] && k != sig { assert k in cache[i].entries && cache'[i].entries[k] == cache[i].entries[k]; }
    }
  }

  lemma PinnedCache(w: World, s: State, raw: string, sig: nat)
    requires s.cache != []
    ensures var cache' := ParsePinned(w, s, raw, sig).0.cache; cache' == s.cache || cache' == Stored(s.cache, sig, w.classify(raw))
  {}

  /** A call leaves the cache alone or stores the line's own classification under its signature. */
  lemma ProcessCache(w: World, s: State, raw: string, isNew: bool)
    requires s.cache != []
    ensures var cache' := Process(w, s, raw, isNew).0.cache;
            cache' == s.cache || cache' == Stored(s.cache, w.signature(raw), w.classify(raw))
  {
    var sig := w.signature(raw);
    if Cached(s.cache, sig).Some? {
      assert GatedDispatch(Counted(s), sig, raw).cache == s.cache;
    } else {
      var t := TryRoute(w, Counted(s), raw, sig);
      PinnedCache(w, Mined(t.0, raw, sig, isNew), raw, sig);
    }
  }

  lemma {:induction false} RunJustified(w: World, start: State, events: seq<Event>)
    requires CacheJustified(w, start.cache, {})
    ensures CacheJustified(w, Pipeline.Run(w, true, start, events).cache, LinesOf(events))
  {
    if events == [] {
      assert LinesOf(events) == {};
    } else {
      var init, e := Init(events), Last(events);
      RunJustified(w, start, init);
      var s := Pipeline.Run(w, true, start, init);
      assert events == init + [e];
      if e.ELog? {
        assert LinesOf(events) == LinesOf(init) + {e.raw};
        StoreJustified(w, s.cache, LinesOf(init), e.raw);
        ProcessCache(w, s, e.raw, e.isNew);
      } else {
        assert LinesOf(events) == LinesOf(init);
      }
    }
  }

  /** Lines with one signature have one classification. */
  ghost predicate SignaturesSeparate(w: World, lines: set<string>) {
    forall a, b :: a in lines && b in lines && w.signature(a) == w.signature(b) ==> w.classify(a) == w.classify(b)
  }

  lemma MissIsLossless(w: World, s: State, raw: string, sig: nat, isNew: bool)
    requires s.cache != [] && !w.classify(raw).Unknown?
    ensures ProcessMiss(w, s, raw, sig, isNew).1 == ParseLossless(w, raw)
  {}

  /** In any run whose lines are told apart by their signatures, every recognised line is answered
  exactly as lossless parsing would answer it, whatever the sharded cache evicted on the way. */
  lemma RecognisedLinesLossless(w: World, start: State, events: seq<Event>, raw: string, isNew: bool)
    requires CacheJustified(w, start.cache, {})
    requires SignaturesSeparate(w, LinesOf(events) + {raw}) && !w.classify(raw).Unknown?
    ensures Process(w, Pipeline.Run(w, true, start, events), raw, isNew).1 == ParseLossless(w, raw)
  {
    RunJustified(w, start, events);
    var s, sig := Pipeline.Run(w, true, start, events), w.signature(raw);
    if Cached(s.cache, sig).Some? {
      var i := ShardOf(s.cache, sig);
      assert Justified(w, LinesOf(events), sig, s.cache[i].entries[sig]);
    } else {
      MissIsLossless(w, Counted(s), raw, sig, isNew);
    }
  }

  /** On a Tier-1 hit a recognised line is answered losslessly exactly when the cached format's
  extractor rejects the line or finds in it what the line's own extractor finds. */
  lemma HitLosslessIff(w: World, s: State, raw: string, isNew: bool)
    requires s.cache != [] && !w.classify(raw).Unknown?
    requires Cached(s.cache, w.signature(raw)).Some?
    ensures var format := Cached(s.cache, w.signature(raw)).value;
            Process(w, s, raw, isNew).1 == ParseLossless(w, raw)
            <==> || format.Unknown? || w.extract(format, raw) == None
                 || w.extract(format, raw) == w.extract(w.classify(raw), raw)
  {}

  /** Two recognised lines that share a signature but not a format: the first one's promotion sends
  the second to the wrong extractor, and the answer is wrong when the two extractors differ on it. */
  lemma SharedSignatureMisroutes(w: World, start: State, a: string, b: string)
    requires start.cache != [] && Cached(start.cache, w.signature(a)) == None
    requires w.signature(a) == w.signature(b) && !w.classify(a).Unknown? && !w.classify(b).Unknown?
    requires w.extract(w.classify(a), a).Some? && w.extract(w.classify(a), b).Some?
    requires w.extract(w.classify(a), b) != w.extract(w.classify(b), b)
    ensures var s := Process(w, start, a, true).0;
            Process(w, s, b, false).1 == Native(w.extract(w.classify(a), b).value, b) != ParseLossless(w, b)
  {
    var sig, format := w.signature(a), w.classify(a);
    var s := Process(w, start, a, true).0;
    assert s.cache == Stored(start.cache, sig, format);
    StoreEffect(start.cache, sig, format, sig);
  }
}
