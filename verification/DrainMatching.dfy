/** What one mining decision answers: which clusters are compared, how they score, and which one takes
the line. */
module DrainMatching {
  import opened Collections
  import opened Text
  import opened Drain
  import opened DrainTree
  import opened DrainRuns
  import opened DrainTheorems

  // ---------- the score ----------

  /** The positions where the template is a wildcard or has the line's token. */
  function MatchPositions(template: seq<string>, tokens: seq<string>): set<nat>
    requires |template| == |tokens|
  {
    set i | 0 <= i < |template| && (template[i] == "<*>" || template[i] == tokens[i])
  }

  lemma {:induction false} MatchCountIsSize(template: seq<string>, tokens: seq<string>)
    requires |template| == |tokens|
    ensures MatchCount(template, tokens) == |MatchPositions(template, tokens)|
  {
    if tokens != [] {
      var last := |tokens| - 1;
      MatchCountIsSize(Init(template), Init(tokens));
      var before, after := MatchPositions(Init(template), Init(tokens)), MatchPositions(template, tokens);
      assert after - {last} == before - {last} && last !in before;
      SizeAround(before, after, last);
    }
  }

  /** Some position keeps template and line apart. */
  predicate Vetoed(vocab: seq<string>, template: seq<string>, tokens: seq<string>)
    requires |template| == |tokens|
  {
    vocab != [] && exists i | 0 <= i < |tokens| :: Conflict(vocab, template[i], tokens[i])
  }

  lemma VetoedIff(vocab: seq<string>, template: seq<string>, tokens: seq<string>)
    requires |template| == |tokens|
    ensures Vetoed(vocab, template, tokens) <==> !Compatible(vocab, template, tokens)
  {}

  lemma SimilarityIs(vocab: seq<string>, template: seq<string>, tokens: seq<string>)
    requires |template| == |tokens| > 0
    ensures Similarity(vocab, template, tokens)
            == if Compatible(vocab, template, tokens) then MatchCount(template, tokens) as real / |tokens| as real else 0.0
  {}

  /** The share of positions that match. */
  function Share(template: seq<string>, tokens: seq<string>): real
    requires |template| == |tokens| > 0
  {
    |MatchPositions(template, tokens)| as real / |tokens| as real
  }

  /** The similarity of a template without conflicts is the share of positions that match; one conflict
  makes it zero. */
  lemma SimilarityIsShare(vocab: seq<string>, template: seq<string>, tokens: seq<string>)
    requires |template| == |tokens| > 0
    ensures Similarity(vocab, template, tokens) == if Vetoed(vocab, template, tokens) then 0.0 else Share(template, tokens)
  {
    VetoedIff(vocab, template, tokens);
    SimilarityIs(vocab, template, tokens);
    MatchCountIsSize(template, tokens);
  }

  /** With anchors on, another tag or a conflict makes the score zero. With anchors off the score is the
  plain share of matching positions, whatever the vocabulary and the tags. */
  lemma ScoreIsShare(m: Miner, id: nat, line: Line)
    requires id in m.clusters && m.clusters[id].size == |m.clusters[id].template| == |line.tokens| > 0
    ensures var c := m.clusters[id];
            var apart := m.config.anchorsEnabled
                         && (c.tag != line.tag || Vetoed(m.config.anchorTokens, c.template, line.tokens));
            Score(m, id, line) == if apart then 0.0 else Share(c.template, line.tokens)
  {
    SimilarityIsShare(Vocabulary(m.config), m.clusters[id].template, line.tokens);
  }

  // ---------- the candidates ----------

  predicate HasDigit(token: string) {
    exists i | 0 <= i < |token| :: '0' <= token[i] <= '9'
  }

  /** Tokens that steer the descent the same way. */
  predicate Alike(a: string, b: string) {
    a == b || (HasDigit(a) && HasDigit(b))
  }

  lemma DescendAlike(node: Node, a: string, b: string)
    requires Alike(a, b)
    ensures Descend(node, a) == Descend(node, b)
  {
    if a != b {
      var i :| 0 <= i < |a| && '0' <= a[i] <= '9';
      var j :| 0 <= j < |b| && '0' <= b[j] <= '9';
      assert IsDigit(a[i]) && IsDigit(b[j]);
    }
  }

  lemma {:induction false} LookupAlike(node: Node, p: seq<string>, q: seq<string>)
    requires |p| == |q| && forall i :: 0 <= i < |p| ==> Alike(p[i], q[i])
    ensures LookupPath(node, p) == LookupPath(node, q)
    decreases |p|
  {
    if p != [] {
      assert Alike(p[0], q[0]);
      DescendAlike(node, p[0], q[0]);
      if Descend(node, p[0]).Some? {
        LookupAlike(ChildOr(node, Descend(node, p[0]).value), p[1..], q[1..]);
      }
    }
  }

  /** Lines of one length are compared with the same clusters when their leading tokens are equal or both
  carry digits. */
  lemma CandidatesAlike(m: Miner, u: seq<string>, v: seq<string>)
    requires m.config.depth >= 2 && |u| == |v|
    requires forall i :: 0 <= i < |u| && i < m.config.depth - 2 ==> Alike(u[i], v[i])
    ensures Candidates(m, u) == Candidates(m, v)
  {
    if |u| in m.root { LookupAlike(m.root[|u|], PrefixOf(m.config, u), PrefixOf(m.config, v)); }
  }

  /** The candidates are the clusters filed where the lookup ends, and no others. */
  lemma CandidatesExact(m: Miner, tokens: seq<string>, id: nat)
    requires m.config.depth >= 2 && IndexOk(m)
    ensures id in Candidates(m, tokens)
            <==> && id in m.home
                 && LookupPath(LengthNode(m.root, |tokens|), PrefixOf(m.config, tokens)) == Some(m.home[id].1)
                 && m.home[id].0 == |tokens|
  {
    var n, found := |tokens|, LookupPath(LengthNode(m.root, |tokens|), PrefixOf(m.config, tokens));
    if found.Some? {
      assert LeafOk(m.root, m.home, n, found.value);
      if n !in m.root { IdsOfLeaf(found.value); }
    }
  }

  // ---------- the decision ----------

  ghost predicate Reaches(m: Miner, line: Line, id: nat) {
    Score(m, id, line) > 0.0 && Score(m, id, line) >= m.config.threshold
  }

  /** Cluster `id` took the line: it alone changed, by that line. */
  ghost predicate Took(m: Miner, m': Miner, r: MineResult, id: nat, line: Line) {
    && id in m.members && m'.members == m.members[id := m.members[id] + [line]]
    && m'.clusters.Keys == m.clusters.Keys && id in m.clusters && r.template == m'.clusters[id].template
    && (forall x :: x in m.clusters && x != id ==> m'.clusters[x] == m.clusters[x])
    && r.clusterId == id && !r.isNew && r.similarity == Score(m, id, line)
  }

  lemma JoinTakes(m: Miner, line: Line, id: nat)
    requires m.config.depth >= 2 && ClustersOk(m) && line.tokens != [] && FindBestMatch(m, line).0 == Some(id)
    ensures Took(m, AddLog(m, line).0, AddLog(m, line).1, id, line)
  {
    assert AddLog(m, line).0 == Joined(m, id, line);
    assert id in m.clusters && m.members.Keys == m.clusters.Keys;
  }

  /** If some candidate scores above zero and reaches the threshold, the first of the best ones takes the
  line and nothing else changes hands. */
  lemma AddLogJoins(m: Miner, line: Line, id: nat) returns (k: nat)
    requires m.config.depth >= 2 && ClustersOk(m) && line.tokens != []
    requires id in Candidates(m, line.tokens) && Reaches(m, line, id)
    ensures var ids := Candidates(m, line.tokens);
            FirstBest(m, ids, line, k) && Took(m, AddLog(m, line).0, AddLog(m, line).1, ids[k], line)
  {
    var ids := Candidates(m, line.tokens);
    var j :| 0 <= j < |ids| && ids[j] == id;
    k := ChooseWitness(m, ids, line);
    assert Scores(m, ids, line)[j] == Score(m, id, line);
    JoinTakes(m, line, ids[k]);
  }

  /** If no candidate does, the line mints the next cluster. */
  lemma AddLogMints(m: Miner, line: Line)
    requires m.config.depth >= 2 && line.tokens != []
    requires forall id :: id in Candidates(m, line.tokens) ==> !Reaches(m, line, id)
    ensures var (m', r) := AddLog(m, line);
            && r.clusterId == m.nextId && r.isNew && r.template == line.tokens
            && m'.members == m.members[m.nextId := [line]] && m'.nextId == m.nextId + 1
  {
    var best := FindBestMatch(m, line).0;
    if best.Some? { assert Reaches(m, line, best.value); }
  }
}
