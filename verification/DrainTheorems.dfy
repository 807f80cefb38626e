/** The results about the miner, over every run. */
module DrainTheorems {
  import opened Collections
  import opened Drain
  import opened DrainClusters
  import opened DrainTree
  import opened DrainRuns

  // ---------- the best match is the first argmax ----------

  function Scores(m: Miner, ids: seq<nat>, line: Line): (scores: seq<real>)
    ensures |scores| == |ids| && forall j :: 0 <= j < |ids| ==> scores[j] == Score(m, ids[j], line)
  {
    seq(|ids|, j requires 0 <= j < |ids| => Score(m, ids[j], line))
  }

  /** Position k holds the highest score, and holds it first. */
  ghost predicate FirstMax(scores: seq<real>, k: nat) {
    && k < |scores|
    && (forall j :: 0 <= j < |scores| ==> scores[j] <= scores[k])
    && forall j :: 0 <= j < k ==> scores[j] < scores[k]
  }

  ghost predicate FirstBest(m: Miner, ids: seq<nat>, line: Line, k: nat) {
    k < |ids| && FirstMax(Scores(m, ids, line), k)
  }

  /** The running maximum is zero over all-zero scores, and otherwise the score at k. */
  ghost predicate Top(scores: seq<real>, sim: real, k: nat) {
    if sim == 0.0 then forall j :: 0 <= j < |scores| ==> scores[j] == 0.0
    else FirstMax(scores, k) && scores[k] == sim
  }

  lemma TopPush(scores: seq<real>, sim: real, k: nat, s: real)
    requires Top(scores, sim, k) && sim >= 0.0 && s >= 0.0
    ensures if s > sim then Top(scores + [s], s, |scores|) else Top(scores + [s], sim, k)
  {
    var more := scores + [s];
    assert forall j :: 0 <= j < |scores| ==> more[j] == scores[j] <= sim;
    assert more[|scores|] == s;
  }

  lemma ScoresPush(m: Miner, ids: seq<nat>, line: Line)
    requires ids != []
    ensures Scores(m, ids, line) == Scores(m, Init(ids), line) + [Score(m, Last(ids), line)]
  {}

  lemma {:induction false} ChooseWitness(m: Miner, ids: seq<nat>, line: Line) returns (k: nat)
    ensures var (best, sim) := Choose(m, ids, line);
            && (best.Some? <==> sim > 0.0 && sim >= m.config.threshold)
            && Top(Scores(m, ids, line), sim, k)
            && (best.Some? ==> k < |ids| && best == Some(ids[k]))
  {
    k := 0;
    if ids != [] {
      k := ChooseWitness(m, Init(ids), line);
      var sim, s := Choose(m, Init(ids), line).1, Score(m, Last(ids), line);
      ScoresPush(m, ids, line);
      TopPush(Scores(m, Init(ids), line), sim, k, s);
      if s > sim { k := |ids| - 1; }
    }
  }

  /** The search returns the first of the highest-scoring candidates, provided it scores above zero
  and reaches the threshold; the similarity it reports is the highest score either way. */
  lemma ChooseIsFirstArgmax(m: Miner, ids: seq<nat>, line: Line)
    ensures var (best, sim) := Choose(m, ids, line);
            && (forall j :: 0 <= j < |ids| ==> Score(m, ids[j], line) <= sim)
            && (sim == 0.0 || exists k: nat :: FirstBest(m, ids, line, k) && Score(m, ids[k], line) == sim)
            && (best.Some? <==> sim > 0.0 && sim >= m.config.threshold)
            && (best.Some? ==> exists k: nat :: FirstBest(m, ids, line, k) && best == Some(ids[k]))
  {
    var k := ChooseWitness(m, ids, line);
  }

  // ---------- action inviolability ----------

  /** With anchors on and `<*>` outside the vocabulary: in no run does a cluster ever absorb two
  lines with different vocabulary values at the same token position, and all its lines carry one
  syslog tag. */
  lemma ActionInviolability(config: Config, lines: seq<Line>, id: nat, a: Line, b: Line, i: nat)
    requires config.depth >= 2 && config.anchorsEnabled && WILD !in config.anchorTokens
    requires var members := MembersOf(RunLines(config, lines), id); a in members && b in members
    requires i < |a.tokens|
    ensures |a.tokens| == |b.tokens| && a.tag == b.tag
    ensures IsAnchor(config.anchorTokens, a.tokens[i]) && IsAnchor(config.anchorTokens, b.tokens[i])
            ==> SameValue(a.tokens[i], b.tokens[i])
  {
    EveryRunOk(config, lines);
    var m := RunLines(config, lines);
    assert ClusterOk(config, id, m.clusters[id], m.members[id]);
  }

  /** In every run a template covers all lines its cluster absorbed and no pattern that covers them
  is more specific. */
  lemma TemplatesLeastGeneral(config: Config, lines: seq<Line>, id: nat, pattern: seq<string>)
    requires config.depth >= 2 && id in RunLines(config, lines).clusters
    ensures var m := RunLines(config, lines);
            var template, members := m.clusters[id].template, MembersOf(m, id);
            && members != [] && m.clusters[id].count == |members|
            && (forall l :: l in members ==> Covers(template, l))
            && ((forall l :: l in members ==> Covers(pattern, l)) ==>
                 |pattern| == |template| && forall i :: 0 <= i < |template| ==> Matches(pattern[i], template[i]))
  {
    EveryRunOk(config, lines);
    var m := RunLines(config, lines);
    assert ClusterOk(config, id, m.clusters[id], m.members[id]);
    TemplateIsLeastGeneral(m.clusters[id].template, m.members[id], pattern);
  }

  // ---------- every line is absorbed exactly once ----------

  function NonEmpty(lines: seq<Line>): seq<Line> {
    if lines == [] then []
    else NonEmpty(Init(lines)) + if Last(lines).tokens == [] then [] else [Last(lines)]
  }

  /** All lines absorbed by clusters 1 .. k-1. */
  function AllMembers(members: map<nat, seq<Line>>, k: nat): multiset<Line> {
    if k <= 1 then multiset{}
    else AllMembers(members, k - 1) + multiset(if k - 1 in members then members[k - 1] else [])
  }

  function CountSum(clusters: map<nat, Cluster>, k: nat): nat {
    if k <= 1 then 0 else CountSum(clusters, k - 1) + if k - 1 in clusters then clusters[k - 1].count else 0
  }

  lemma {:induction false} AllMembersGrow(members: map<nat, seq<Line>>, k: nat, id: nat, x: Line)
    requires id in members && 1 <= id < k
    ensures AllMembers(members[id := members[id] + [x]], k) == AllMembers(members, k) + multiset{x}
  {
    if id == k - 1 {
      AllMembersFrame(members, k - 1, id, members[id] + [x]);
      assert multiset(members[id] + [x]) == multiset(members[id]) + multiset{x};
    } else {
      AllMembersGrow(members, k - 1, id, x);
    }
  }

  lemma {:induction false} AllMembersFrame(members: map<nat, seq<Line>>, k: nat, id: nat, s: seq<Line>)
    requires id >= k
    ensures AllMembers(members[id := s], k) == AllMembers(members, k)
  {
    if k > 1 { AllMembersFrame(members, k - 1, id, s); }
  }

  lemma AddLogAbsorbs(m: Miner, line: Line)
    requires m.config.depth >= 2 && m.nextId > 0 && ClustersOk(m)
    ensures var m' := AddLog(m, line).0;
            AllMembers(m'.members, m'.nextId)
            == AllMembers(m.members, m.nextId) + if line.tokens == [] then multiset{} else multiset{line}
  {
    if line.tokens != [] {
      match FindBestMatch(m, line).0 {
        case Some(id) => AllMembersGrow(m.members, m.nextId, id, line);
        case None => AllMembersMint(m.members, m.nextId, line);
      }
    }
  }

  lemma AllMembersMint(members: map<nat, seq<Line>>, id: nat, line: Line)
    requires id > 0
    ensures AllMembers(members[id := [line]], id + 1) == AllMembers(members, id) + multiset{line}
  {
    AllMembersFrame(members, id, id, [line]);
    assert multiset([line]) == multiset{line};
  }

  lemma {:induction false} CountSumIsSize(m: Miner, k: nat)
    requires ClustersOk(m) && k <= m.nextId
    ensures CountSum(m.clusters, k) == |AllMembers(m.members, k)|
  {
    if k > 1 {
      CountSumIsSize(m, k - 1);
      assert ClusterOk(m.config, k - 1, m.clusters[k - 1], m.members[k - 1]);
    }
  }

  /** The clusters of a run partition its non-empty lines, and their counts add up to them. */
  lemma {:induction false} LinesArePartitioned(config: Config, lines: seq<Line>)
    requires config.depth >= 2
    ensures var m := RunLines(config, lines);
            && m.total == |lines|
            && AllMembers(m.members, m.nextId) == multiset(NonEmpty(lines))
            && CountSum(m.clusters, m.nextId) == |NonEmpty(lines)|
  {
    var m := RunLines(config, lines);
    EveryRunOk(config, lines);
    if lines != [] {
      LinesArePartitioned(config, Init(lines));
      EveryRunOk(config, Init(lines));
      AddLogAbsorbs(RunLines(config, Init(lines)), Last(lines));
    }
    CountSumIsSize(m, m.nextId);
  }

  // ---------- the index ----------

  /** Each cluster of a run sits in exactly one leaf, exactly once, and every prefix node has at most
  maxChildren + 1 children. */
  lemma IndexExact(config: Config, lines: seq<Line>, id: nat, n: nat, path: seq<string>)
    requires config.depth >= 2
    ensures var m := RunLines(config, lines);
            && m.home.Keys == m.clusters.Keys
            && (id in LeafIds(m.root, n, path) <==> id in m.home && m.home[id] == (n, path))
            && NoRepeats(LeafIds(m.root, n, path))
            && (NodeAt(LengthNode(m.root, n), path).Some? ==>
                 |NodeAt(LengthNode(m.root, n), path).value.children| <= config.maxChildren + 1)
  {
    EveryRunOk(config, lines);
    var m := RunLines(config, lines);
    assert LeafOk(m.root, m.home, n, path);
    if NodeAt(LengthNode(m.root, n), path).Some? && n in m.root {
      NarrowBound(NodeAt(m.root[n], path).value, config.maxChildren);
    }
  }

  lemma CandidatesAfterMint(m: Miner, line: Line)
    requires m.config.depth >= 2 && ClustersOk(m) && IndexOk(m) && line.tokens != []
    requires !Diverges(LengthNode(m.root, |line.tokens|), PrefixOf(m.config, line.tokens), m.config.maxChildren)
    ensures var ids := Candidates(Minted(m, line), line.tokens);
            ids == [m.nextId] || ids == Candidates(m, line.tokens) + [m.nextId]
  {
    var n, prefix, k := |line.tokens|, PrefixOf(m.config, line.tokens), m.config.maxChildren;
    var node := LengthNode(m.root, n);
    var path := InsertPath(node, prefix, k);
    LookupAfterInsert(node, prefix, m.nextId, k);
    IdsAfterInsert(node, prefix, m.nextId, k, path);
    if NodeAt(node, path).Some? {
      LookupBeforeInsert(node, prefix, k);
      if n !in m.root { IdsOfLeaf(path); }
    }
  }

  lemma {:induction false} ChooseSame(m: Miner, m': Miner, ids: seq<nat>, line: Line)
    requires m.config == m'.config
    requires forall id :: id in ids ==> Score(m, id, line) == Score(m', id, line)
    ensures Choose(m, ids, line) == Choose(m', ids, line)
  {
    if ids != [] { ChooseSame(m, m', Init(ids), line); }
  }

  /** Adding a line again right after it minted a cluster returns that cluster exactly when no prefix
  level on its insertion path was saturated while already holding the literal token. */
  lemma ReAddIff(m: Miner, line: Line)
    requires m.config.depth >= 2 && m.config.threshold <= 1.0 && m.nextId > 0 && ClustersOk(m) && IndexOk(m)
    requires line.tokens != [] && FindBestMatch(m, line).0 == None
    ensures var m' := AddLog(m, line).0;
            var r := AddLog(m', line).1;
            r.clusterId == m.nextId
            <==> !Diverges(LengthNode(m.root, |line.tokens|), PrefixOf(m.config, line.tokens), m.config.maxChildren)
    ensures var m' := AddLog(m, line).0;
            var r := AddLog(m', line).1;
            r.clusterId == m.nextId ==> r == MineResult(m.nextId, line.tokens, false, 1.0)
  {
    var m', id := Minted(m, line), m.nextId;
    var ids := Candidates(m', line.tokens);
    if Diverges(LengthNode(m.root, |line.tokens|), PrefixOf(m.config, line.tokens), m.config.maxChildren) {
      ReAddMisses(m, line);
      assert id !in ids;
    } else {
      CandidatesAfterMint(m, line);
      ReAddFinds(m, line);
      MergeSelf(line.tokens);
    }
  }

  /** The tree after one line of two plain tokens. */
  lemma OneLineTree(config: Config, t: string, x: string)
    requires config.depth == 4 && config.maxChildren > 0 && !HasDigitOrParam(t) && !HasDigitOrParam(x)
    ensures var m := RunLines(config, [Line([t, x], None)]);
            m.root == map[2 := Node(map[t := Node(map[x := Node(map[], [1])], [])], [])] && m.nextId == 2
  {
    var line := Line([t, x], None);
    assert Init([line]) == [] && RunLines(config, []) == NewMiner(config);
    assert PrefixOf(config, [t, x]) == [t, x] && [t, x][1..] == [x] && [x][1..] == [];
    assert Insert(LEAF, [], 1, config.maxChildren) == Node(map[], [1]);
    assert Insert(LEAF, [x], 1, config.maxChildren) == Node(map[x := Node(map[], [1])], []);
    assert Candidates(NewMiner(config), [t, x]) == [];
  }

  /** A run that parts the descents: with room for one child, a second line shares the first token only.
  It mints a cluster that no lookup of the same line will ever reach. */
  lemma ReAddCanMiss(config: Config, t: string, x: string, y: string)
    requires config.depth == 4 && config.maxChildren == 1 && config.threshold <= 1.0
    requires !HasDigitOrParam(t) && t != STAR && !HasDigitOrParam(x) && x != STAR && x != y
    ensures var m, line := RunLines(config, [Line([t, x], None)]), Line([t, y], None);
            var minted := AddLog(m, line);
            minted.1.isNew && AddLog(minted.0, line).1.clusterId != minted.1.clusterId
  {
    var m, line := RunLines(config, [Line([t, x], None)]), Line([t, y], None);
    OneLineTree(config, t, x);
    EveryRunOk(config, [Line([t, x], None)]);
    assert PrefixOf(config, [t, y]) == [t, y];
    PartsWays(t, x, y);
    ReAddIff(m, line);
  }

  lemma PartsWays(t: string, x: string, y: string)
    requires !HasDigitOrParam(t) && t != STAR && x != STAR && x != y
    ensures var top := Node(map[t := Node(map[x := Node(map[], [1])], [])], []);
            LookupPath(top, [t, y]) == None && Diverges(top, [t, y], 1)
  {
    var child := Node(map[x := Node(map[], [1])], []);
    var top := Node(map[t := child], []);
    assert [t, y][1..] == [y];
    assert Descend(child, y) == None && LookupPath(child, [y]) == None;
    assert Descend(top, t) == Some(t) && ChildOr(top, t) == child;
    assert top.children.Keys == {t} && |top.children| == |top.children.Keys|;
  }

  lemma MergeSelf(tokens: seq<string>)
    ensures Merge(tokens, tokens) == tokens
  {}

  /** Where the descents part ways, the second lookup ends in another leaf. */
  lemma ReAddMisses(m: Miner, line: Line)
    requires m.config.depth >= 2 && ClustersOk(m) && IndexOk(m)
    requires Diverges(LengthNode(m.root, |line.tokens|), PrefixOf(m.config, line.tokens), m.config.maxChildren)
    ensures m.nextId !in Candidates(Minted(m, line), line.tokens)
  {
    var m', n, prefix := Minted(m, line), |line.tokens|, PrefixOf(m.config, line.tokens);
    LookupAfterInsert(LengthNode(m.root, n), prefix, m.nextId, m.config.maxChildren);
    MintKeepsIndex(m, line);
    var found := LookupPath(m'.root[n], prefix);
    if found.Some? { assert LeafOk(m'.root, m'.home, n, found.value); }
  }

  lemma CandidatesAreClusters(m: Miner, tokens: seq<string>, id: nat)
    requires m.config.depth >= 2 && IndexOk(m) && id in Candidates(m, tokens)
    ensures id in m.clusters
  {
    assert LeafOk(m.root, m.home, |tokens|, LookupPath(m.root[|tokens|], PrefixOf(m.config, tokens)).value);
  }

  /** Where they agree, the new cluster is the only candidate that reaches the threshold. */
  lemma ReAddFinds(m: Miner, line: Line)
    requires m.config.depth >= 2 && m.config.threshold <= 1.0 && ClustersOk(m) && IndexOk(m) && line.tokens != []
    requires FindBestMatch(m, line).0 == None
    requires var ids := Candidates(Minted(m, line), line.tokens);
             ids == [m.nextId] || ids == Candidates(m, line.tokens) + [m.nextId]
    ensures FindBestMatch(Minted(m, line), line) == (Some(m.nextId), 1.0)
  {
    var m', id, before := Minted(m, line), m.nextId, Candidates(m, line.tokens);
    MintedScores(m, line);
    if Candidates(m', line.tokens) == [id] {
      assert [] + [id] == [id];
      ChooseLast(m', [], id, line);
    } else {
      OldScores(m, line);
      ChooseBelow(m, m', before, line);
      ChooseLast(m', before, id, line);
    }
  }

  lemma ChooseLast(m: Miner, before: seq<nat>, id: nat, line: Line)
    requires Choose(m, before, line).0 == None && Choose(m, before, line).1 < 1.0
    requires Score(m, id, line) == 1.0 && m.config.threshold <= 1.0
    ensures Choose(m, before + [id], line) == (Some(id), 1.0)
  {
    assert Init(before + [id]) == before;
  }

  lemma OldScores(m: Miner, line: Line)
    requires m.config.depth >= 2 && ClustersOk(m) && IndexOk(m)
    ensures forall x :: x in Candidates(m, line.tokens) ==> Score(m, x, line) == Score(Minted(m, line), x, line)
  {
    forall x | x in Candidates(m, line.tokens) ensures Score(m, x, line) == Score(Minted(m, line), x, line) {
      CandidatesAreClusters(m, line.tokens, x);
    }
  }

  lemma MintedScores(m: Miner, line: Line)
    requires m.config.depth >= 2 && line.tokens != []
    ensures Score(Minted(m, line), m.nextId, line) == 1.0
  {
    SelfSimilar(Vocabulary(m.config), line.tokens);
  }

  /** Candidates that did not reach the threshold before do not reach full similarity now. */
  lemma {:induction false} ChooseBelow(m: Miner, m': Miner, ids: seq<nat>, line: Line)
    requires m.config == m'.config && m.config.threshold <= 1.0
    requires forall id :: id in ids ==> Score(m, id, line) == Score(m', id, line)
    requires Choose(m, ids, line).0 == None
    ensures Choose(m', ids, line) == Choose(m, ids, line) && Choose(m', ids, line).1 < 1.0
  {
    ChooseSame(m, m', ids, line);
    ChooseIsFirstArgmax(m, ids, line);
  }
}
