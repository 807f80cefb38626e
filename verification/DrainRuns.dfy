/** What every run of the miner keeps, over any sequence of lines. */
module DrainRuns {
  import opened Collections
  import opened Drain
  import opened DrainClusters
  import opened DrainTree

  function RunLines(config: Config, lines: seq<Line>): (m: Miner)
    requires config.depth >= 2
    ensures m.config == config
  {
    if lines == [] then NewMiner(config) else AddLog(RunLines(config, Init(lines)), Last(lines)).0
  }

  lemma RunLinesPush(config: Config, lines: seq<Line>, line: Line)
    requires config.depth >= 2
    ensures RunLines(config, lines + [line]) == AddLog(RunLines(config, lines), line).0
  {
    assert Init(lines + [line]) == lines;
  }

  // ---------- the invariant ----------

  ghost predicate ClusterOk(config: Config, id: nat, c: Cluster, members: seq<Line>) {
    && c.id == id && c.size == |c.template| > 0
    && c.count == |members|
    && IsTemplate(c.template, members)
    && (config.anchorsEnabled ==> forall l :: l in members ==> l.tag == c.tag)
    && (WILD !in Vocabulary(config) ==> AnchorsAgree(Vocabulary(config), members))
  }

  ghost predicate ClustersOk(m: Miner) {
    && (forall id :: id in m.clusters <==> 1 <= id < m.nextId)
    && m.members.Keys == m.clusters.Keys
    && forall id :: id in m.clusters ==> ClusterOk(m.config, id, m.clusters[id], m.members[id])
  }

  type Tree = map<nat, Node>
  type Homes = map<nat, (nat, seq<string>)>

  function LeafIds(root: Tree, n: nat, path: seq<string>): seq<nat> {
    IdsAt(LengthNode(root, n), path)
  }

  ghost predicate NoRepeats<T>(s: seq<T>) {
    forall i, j :: 0 <= i < j < |s| ==> s[i] != s[j]
  }

  /** A leaf lists exactly the clusters whose home it is, once each. */
  ghost predicate LeafOk(root: Tree, home: Homes, n: nat, path: seq<string>) {
    && NoRepeats(LeafIds(root, n, path))
    && forall id :: id in LeafIds(root, n, path) <==> id in home && home[id] == (n, path)
  }

  ghost predicate Filed(root: Tree, home: Homes) {
    forall n: nat, path :: LeafOk(root, home, n, path)
  }

  ghost predicate Bounded(root: Tree, maxChildren: nat) {
    forall n: nat :: n in root ==> AllNarrow(root[n], maxChildren)
  }

  /** The tree files every cluster under its home leaf, once, and nowhere else. */
  ghost predicate IndexOk(m: Miner) {
    m.home.Keys == m.clusters.Keys && Filed(m.root, m.home) && Bounded(m.root, m.config.maxChildren)
  }

  // ---------- one step ----------

  lemma JoinKeepsCluster(m: Miner, id: nat, line: Line)
    requires ClustersOk(m) && Score(m, id, line) > 0.0
    ensures ClusterOk(m.config, id, Absorbed(m.clusters[id], line.tokens), m.members[id] + [line])
  {
    var c, members, vocab := m.clusters[id], m.members[id], Vocabulary(m.config);
    assert ClusterOk(m.config, id, c, members);
    assert Compatible(vocab, c.template, line.tokens);
    MergeIsTemplate(c.template, members, line);
    MemberOfPush(members, line);
    if WILD !in vocab { AbsorbKeepsAnchors(vocab, c.template, members, line); }
  }

  lemma ReplaceCluster(m: Miner, id: nat, c: Cluster, members: seq<Line>, total: nat)
    requires ClustersOk(m) && id in m.clusters && ClusterOk(m.config, id, c, members)
    ensures ClustersOk(m.(total := total, clusters := m.clusters[id := c], members := m.members[id := members]))
  {
    var m' := m.(total := total, clusters := m.clusters[id := c], members := m.members[id := members]);
    forall x | x in m'.clusters ensures ClusterOk(m.config, x, m'.clusters[x], m'.members[x]) {
      if x != id { assert ClusterOk(m.config, x, m.clusters[x], m.members[x]); }
    }
  }

  lemma JoinKeeps(m: Miner, id: nat, line: Line)
    requires ClustersOk(m) && IndexOk(m) && Score(m, id, line) > 0.0
    ensures ClustersOk(Joined(m, id, line)) && IndexOk(Joined(m, id, line))
  {
    JoinKeepsCluster(m, id, line);
    ReplaceCluster(m, id, Absorbed(m.clusters[id], line.tokens), m.members[id] + [line], m.total + 1);
    assert Joined(m, id, line).clusters.Keys == m.clusters.Keys;
  }

  lemma MintKeepsClusters(m: Miner, line: Line)
    requires m.config.depth >= 2 && ClustersOk(m) && line.tokens != [] && m.nextId > 0
    ensures ClustersOk(Minted(m, line))
  {
    var m', id := Minted(m, line), m.nextId;
    assert line in [line];
    assert IsTemplate(line.tokens, [line]);
    assert ClusterOk(m.config, id, m'.clusters[id], m'.members[id]);
  }

  lemma MintedLeaf(m: Miner, line: Line, n: nat, path: seq<string>)
    requires m.config.depth >= 2 && m.nextId !in m.home && LeafOk(m.root, m.home, n, path)
    ensures var m' := Minted(m, line); LeafOk(m'.root, m'.home, n, path)
  {
    var m', id := Minted(m, line), m.nextId;
    var ids, ids' := LeafIds(m.root, n, path), LeafIds(m'.root, n, path);
    assert id !in ids;
    if n == |line.tokens| {
      IdsAfterInsert(LengthNode(m.root, n), PrefixOf(m.config, line.tokens), id, m.config.maxChildren, path);
    }
    assert ids' == ids + if m'.home[id] == (n, path) then [id] else [];
  }

  lemma MintKeepsIndex(m: Miner, line: Line)
    requires m.config.depth >= 2 && ClustersOk(m) && IndexOk(m)
    ensures IndexOk(Minted(m, line))
  {
    var m', id, k := Minted(m, line), m.nextId, m.config.maxChildren;
    assert id !in m.home;
    forall n: nat, path ensures LeafOk(m'.root, m'.home, n, path) {
      assert LeafOk(m.root, m.home, n, path);
      MintedLeaf(m, line, n, path);
    }
    assert AllNarrow(LEAF, k);
    InsertNarrow(LengthNode(m.root, |line.tokens|), PrefixOf(m.config, line.tokens), id, k);
  }

  lemma AddLogKeeps(m: Miner, line: Line)
    requires m.config.depth >= 2 && m.nextId > 0 && ClustersOk(m) && IndexOk(m)
    ensures var m' := AddLog(m, line).0; m'.nextId > 0 && ClustersOk(m') && IndexOk(m')
  {
    if line.tokens != [] {
      match FindBestMatch(m, line).0 {
        case Some(id) => JoinKeeps(m, id, line);
        case None =>
          MintKeepsClusters(m, line);
          MintKeepsIndex(m, line);
      }
    }
  }

  /** In every run each template is the least general generalisation of the lines its cluster
  absorbed, each cluster has one tag, no cluster ever holds two different verdicts at one position,
  and the tree is an exact index of the clusters with bounded fan-out. */
  lemma {:induction false} EveryRunOk(config: Config, lines: seq<Line>)
    requires config.depth >= 2
    ensures var m := RunLines(config, lines); m.nextId > 0 && ClustersOk(m) && IndexOk(m)
  {
    if lines == [] {
      var m := NewMiner(config);
      forall n: nat, path ensures LeafOk(m.root, m.home, n, path) { IdsOfLeaf(path); }
    } else {
      EveryRunOk(config, Init(lines));
      AddLogKeeps(RunLines(config, Init(lines)), Last(lines));
    }
  }
}
