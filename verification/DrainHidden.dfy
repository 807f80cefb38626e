/** The documented anchor rule over whole runs: an anchor token is never merged into a wildcard.

What a caller can look at before each line decides it: the cluster the line is about to join, and
whether the line repeats the anchor tokens of that cluster's template. */
module DrainHidden {
  import opened Collections
  import opened Drain
  import opened DrainClusters
  import opened DrainRuns

  /** The cluster that the line is about to join, if any. */
  function Joins(m: Miner, line: Line): (id: Option<nat>)
    requires m.config.depth >= 2
    ensures id.Some? ==> Score(m, id.value, line) > 0.0 && AddLog(m, line).0 == Joined(m, id.value, line)
  {
    if line.tokens == [] then None else FindBestMatch(m, line).0
  }

  /** The line joins a cluster without repeating the anchor tokens of its template. */
  predicate Spoils(m: Miner, line: Line)
    requires m.config.depth >= 2
  {
    match Joins(m, line)
    case None => false
    case Some(id) => !Repeats(m, id, line)
  }

  /** The clusters that some line of the run spoiled. */
  function Spoiled(config: Config, lines: seq<Line>): set<nat>
    requires config.depth >= 2
  {
    if lines == [] then {}
    else
      var m := RunLines(config, Init(lines));
      Spoiled(config, Init(lines)) + if Spoils(m, Last(lines)) then {Joins(m, Last(lines)).value} else {}
  }

  /** Nothing lies hidden in the cluster. */
  ghost predicate Clear(m: Miner, id: nat)
    requires id in m.clusters
  {
    NothingHidden(Vocabulary(m.config), m.clusters[id].template, MembersOf(m, id))
  }

  ghost function Clears(m: Miner): map<nat, bool> {
    map id | id in m.clusters :: Clear(m, id)
  }

  /** The entries that are false are exactly these. */
  ghost predicate FalseAt(clears: map<nat, bool>, ids: set<nat>) {
    ids <= clears.Keys && forall id :: id in clears ==> (clears[id] <==> id !in ids)
  }

  // ---------- one step ----------

  lemma JoinClearIff(m: Miner, id: nat, line: Line)
    requires WILD !in Vocabulary(m.config) && ClustersOk(m) && Score(m, id, line) > 0.0
    ensures Clear(Joined(m, id, line), id)
            <==> Clear(m, id) && Repeats(m, id, line)
  {
    assert ClusterOk(m.config, id, m.clusters[id], m.members[id]);
    HiddenAfterIff(Vocabulary(m.config), m.clusters[id].template, m.members[id], line);
  }

  /** The two miners agree on every cluster but one. */
  ghost predicate Elsewhere(m: Miner, m': Miner, id: nat) {
    && m'.config == m.config && id in m'.clusters && m'.clusters.Keys == m.clusters.Keys + {id}
    && forall x :: x in m.clusters && x != id ==> m'.clusters[x] == m.clusters[x] && MembersOf(m', x) == MembersOf(m, x)
  }

  lemma ClearsChange(m: Miner, m': Miner, id: nat)
    requires Elsewhere(m, m', id)
    ensures Clears(m') == Clears(m)[id := Clear(m', id)]
  {
    forall x | x in m.clusters && x != id ensures Clear(m', x) == Clear(m, x) {}
  }

  lemma FalseAtUpdate(clears: map<nat, bool>, ids: set<nat>, id: nat, repeats: bool)
    requires FalseAt(clears, ids) && id in clears
    ensures FalseAt(clears[id := clears[id] && repeats], ids + if repeats then {} else {id})
  {}

  lemma FalseAtAdd(clears: map<nat, bool>, ids: set<nat>, id: nat)
    requires FalseAt(clears, ids) && id !in clears
    ensures FalseAt(clears[id := true], ids)
  {}

  predicate Repeats(m: Miner, id: nat, line: Line)
    requires id in m.clusters && |m.clusters[id].template| == |line.tokens|
  {
    RepeatsAnchors(Vocabulary(m.config), m.clusters[id].template, line.tokens)
  }

  /** Joining touches one cluster. */
  lemma JoinFrame(m: Miner, id: nat, line: Line)
    requires id in m.clusters && |m.clusters[id].template| == |line.tokens|
    ensures Elsewhere(m, Joined(m, id, line), id)
  {}

  lemma ClearsJoin(m: Miner, m': Miner, id: nat, repeats: bool)
    requires id in m.clusters && Elsewhere(m, m', id) && (Clear(m', id) <==> Clear(m, id) && repeats)
    ensures Clears(m') == Clears(m)[id := Clears(m)[id] && repeats]
  {
    ClearsChange(m, m', id);
  }

  lemma JoinClears(m: Miner, id: nat, line: Line)
    requires WILD !in Vocabulary(m.config) && ClustersOk(m) && Score(m, id, line) > 0.0
    ensures Clears(Joined(m, id, line)) == Clears(m)[id := Clears(m)[id] && Repeats(m, id, line)]
  {
    JoinFrame(m, id, line);
    JoinClearIff(m, id, line);
    ClearsJoin(m, Joined(m, id, line), id, Repeats(m, id, line));
  }

  lemma JoinHidden(m: Miner, ids: set<nat>, id: nat, line: Line)
    requires WILD !in Vocabulary(m.config) && ClustersOk(m) && Score(m, id, line) > 0.0 && FalseAt(Clears(m), ids)
    ensures FalseAt(Clears(Joined(m, id, line)), ids + if Repeats(m, id, line) then {} else {id})
  {
    JoinClears(m, id, line);
    FalseAtUpdate(Clears(m), ids, id, Repeats(m, id, line));
  }

  lemma MintClear(m: Miner, line: Line)
    requires m.config.depth >= 2 && WILD !in Vocabulary(m.config)
    ensures Clear(Minted(m, line), m.nextId)
  {
    WildIsNoAnchor(Vocabulary(m.config));
  }

  lemma MintHidden(m: Miner, ids: set<nat>, line: Line)
    requires m.config.depth >= 2 && WILD !in Vocabulary(m.config) && ClustersOk(m) && FalseAt(Clears(m), ids)
    ensures FalseAt(Clears(Minted(m, line)), ids)
  {
    MintClear(m, line);
    assert Elsewhere(m, Minted(m, line), m.nextId);
    ClearsChange(m, Minted(m, line), m.nextId);
    FalseAtAdd(Clears(m), ids, m.nextId);
  }

  lemma EmptyLineHidden(m: Miner)
    ensures Clears(m.(total := m.total + 1)) == Clears(m)
  {
    var m' := m.(total := m.total + 1);
    forall x | x in m.clusters ensures Clear(m', x) == Clear(m, x) {}
  }

  lemma AddLogHidden(m: Miner, ids: set<nat>, line: Line)
    requires m.config.depth >= 2 && WILD !in Vocabulary(m.config) && ClustersOk(m) && FalseAt(Clears(m), ids)
    ensures FalseAt(Clears(AddLog(m, line).0), ids + if Spoils(m, line) then {Joins(m, line).value} else {})
  {
    assert ids + {} == ids;
    if line.tokens == [] {
      EmptyLineHidden(m);
    } else {
      match Joins(m, line) {
        case Some(id) => JoinHidden(m, ids, id, line);
        case None => MintHidden(m, ids, line);
      }
    }
  }

  // ---------- whole runs ----------

  /** In every run a cluster has a vocabulary value behind a wildcard if and only if some line joined it
  without repeating its template's anchor tokens. */
  lemma {:induction false} HiddenIffSpoiled(config: Config, lines: seq<Line>)
    requires config.depth >= 2 && WILD !in Vocabulary(config)
    ensures FalseAt(Clears(RunLines(config, lines)), Spoiled(config, lines))
  {
    if lines != [] {
      HiddenIffSpoiled(config, Init(lines));
      EveryRunOk(config, Init(lines));
      AddLogHidden(RunLines(config, Init(lines)), Spoiled(config, Init(lines)), Last(lines));
    }
  }

  /** No cluster has a vocabulary value behind a wildcard. */
  ghost predicate RuleHolds(m: Miner) {
    forall id :: id in m.clusters ==> Clear(m, id)
  }

  lemma NothingFalse(m: Miner, ids: set<nat>)
    requires FalseAt(Clears(m), ids)
    ensures RuleHolds(m) <==> ids == {}
  {
    if ids != {} {
      var id :| id in ids;
      assert id in Clears(m) && !Clears(m)[id];
      assert !Clear(m, id);
    } else {
      forall id | id in m.clusters ensures Clear(m, id) { assert Clears(m)[id]; }
    }
  }

  /** So the documented rule holds after a run if and only if every line that joined a cluster repeated
  its template's anchor tokens. */
  lemma AnchorRuleIff(config: Config, lines: seq<Line>)
    requires config.depth >= 2 && WILD !in Vocabulary(config)
    ensures RuleHolds(RunLines(config, lines)) <==> AllRepeat(config, lines)
  {
    HiddenIffSpoiled(config, lines);
    NothingFalse(RunLines(config, lines), Spoiled(config, lines));
    SpoiledNoneIff(config, lines);
  }

  /** No line of the run joins a cluster without repeating its anchor tokens. */
  predicate AllRepeat(config: Config, lines: seq<Line>)
    requires config.depth >= 2
  {
    lines == [] || (AllRepeat(config, Init(lines)) && !Spoils(RunLines(config, Init(lines)), Last(lines)))
  }

  lemma {:induction false} SpoiledNoneIff(config: Config, lines: seq<Line>)
    requires config.depth >= 2
    ensures Spoiled(config, lines) == {} <==> AllRepeat(config, lines)
  {
    if lines != [] { SpoiledNoneIff(config, Init(lines)); }
  }

  /** No line joins a cluster that an earlier line spoiled. */
  predicate JoinsUnspoiled(config: Config, lines: seq<Line>)
    requires config.depth >= 2
  {
    lines == []
    || (&& JoinsUnspoiled(config, Init(lines))
        && var id := Joins(RunLines(config, Init(lines)), Last(lines));
           id.Some? ==> id.value !in Spoiled(config, Init(lines)))
  }

  ghost predicate Pinned(m: Miner) {
    forall id :: id in m.members ==> AnchorsPinned(Vocabulary(m.config), m.members[id])
  }

  lemma PinnedShrinks(vocab: seq<string>, members: seq<Line>, line: Line)
    requires AnchorsPinned(vocab, members + [line])
    ensures AnchorsPinned(vocab, members)
  {
    MemberOfPush(members, line);
  }

  lemma MembersPinnedIff(m: Miner, id: nat, line: Line)
    requires Vocabulary(m.config) != [] && WILD !in Vocabulary(m.config) && ClustersOk(m) && Score(m, id, line) > 0.0
    ensures AnchorsPinned(Vocabulary(m.config), m.members[id] + [line])
            <==> AnchorsPinned(Vocabulary(m.config), m.members[id]) && Clear(m, id)
  {
    var vocab, members := Vocabulary(m.config), m.members[id];
    assert ClusterOk(m.config, id, m.clusters[id], members);
    if AnchorsPinned(vocab, members) {
      PinnedStaysIff(vocab, m.clusters[id].template, members, line);
    } else if AnchorsPinned(vocab, members + [line]) {
      PinnedShrinks(vocab, members, line);
    }
  }

  lemma JoinPinnedIff(m: Miner, id: nat, line: Line)
    requires Vocabulary(m.config) != [] && WILD !in Vocabulary(m.config) && ClustersOk(m) && Score(m, id, line) > 0.0
    ensures Pinned(Joined(m, id, line)) <==> Pinned(m) && Clear(m, id)
  {
    MembersPinnedIff(m, id, line);
    OthersPinned(m, Joined(m, id, line), id);
  }

  lemma OthersPinned(m: Miner, m': Miner, id: nat)
    requires id in m.members && m'.config == m.config && m'.members.Keys == m.members.Keys
    requires forall x :: x in m.members && x != id ==> m'.members[x] == m.members[x]
    requires AnchorsPinned(Vocabulary(m.config), m'.members[id]) ==> AnchorsPinned(Vocabulary(m.config), m.members[id])
    ensures Pinned(m') <==> Pinned(m) && AnchorsPinned(Vocabulary(m.config), m'.members[id])
  {
    if Pinned(m') {
      forall x | x in m.members ensures AnchorsPinned(Vocabulary(m.config), m.members[x]) {
        assert AnchorsPinned(Vocabulary(m.config), m'.members[x]);
      }
    }
  }

  lemma MintPinned(m: Miner, line: Line)
    requires m.config.depth >= 2 && ClustersOk(m)
    ensures Pinned(Minted(m, line)) <==> Pinned(m)
  {
    var m' := Minted(m, line);
    assert AnchorsPinned(Vocabulary(m.config), m'.members[m.nextId]);
    forall x | x in m.members ensures x != m.nextId && m'.members[x] == m.members[x] { assert x in m.clusters; }
    if Pinned(m') {
      forall x | x in m.members ensures AnchorsPinned(Vocabulary(m.config), m.members[x]) {
        assert AnchorsPinned(Vocabulary(m.config), m'.members[x]);
      }
    }
  }

  lemma AddLogPinnedIff(m: Miner, ids: set<nat>, line: Line)
    requires m.config.depth >= 2 && Vocabulary(m.config) != [] && WILD !in Vocabulary(m.config)
    requires ClustersOk(m) && FalseAt(Clears(m), ids)
    ensures var id := Joins(m, line);
            Pinned(AddLog(m, line).0) <==> Pinned(m) && (id.Some? ==> id.value !in ids)
  {
    if line.tokens != [] {
      match Joins(m, line) {
        case Some(id) =>
          JoinPinnedIff(m, id, line);
          assert Clears(m)[id] == Clear(m, id);
        case None => MintPinned(m, line);
      }
    }
  }

  /** In every run all lines of a cluster share each vocabulary value any of them carries, if and only
  if no line joins a cluster that an earlier line spoiled. */
  lemma {:induction false} PinnedIffUnspoiled(config: Config, lines: seq<Line>)
    requires config.depth >= 2 && Vocabulary(config) != [] && WILD !in Vocabulary(config)
    ensures Pinned(RunLines(config, lines)) <==> JoinsUnspoiled(config, lines)
  {
    if lines != [] {
      var before := Init(lines);
      PinnedIffUnspoiled(config, before);
      EveryRunOk(config, before);
      HiddenIffSpoiled(config, before);
      AddLogPinnedIff(RunLines(config, before), Spoiled(config, before), Last(lines));
    }
  }
}
