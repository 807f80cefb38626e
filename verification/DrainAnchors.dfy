/** Spellings of one vocabulary value: a run in which two of them put an anchor behind a wildcard, and the
discipline on the input under which members always share the values they carry. */
module DrainAnchors {
  import opened Collections
  import opened Text
  import opened Drain
  import opened DrainClusters
  import opened DrainTree
  import opened DrainRuns
  import opened DrainTheorems

  // ---------- where it holds ----------

  ghost predicate Used(lines: seq<Line>, token: string) {
    exists l :: l in lines && token in l.tokens
  }

  /** Every vocabulary value is spelled one way: tokens with the same vocabulary value are equal. */
  ghost predicate OneSpelling(vocab: seq<string>, lines: seq<Line>) {
    forall a, b :: Used(lines, a) && Used(lines, b) && IsAnchor(vocab, a) && SameValue(a, b) ==> a == b
  }

  lemma OneSpellingHidesNothing(vocab: seq<string>, template: seq<string>, members: seq<Line>, lines: seq<Line>)
    requires WILD !in vocab && IsTemplate(template, members) && AnchorsPinned(vocab, members)
    requires OneSpelling(vocab, lines) && forall l :: l in members ==> l in lines
    ensures NothingHidden(vocab, template, members)
  {
    forall l, i | l in members && 0 <= i < |template| && IsAnchor(vocab, l.tokens[i]) ensures template[i] != WILD {
      forall k | k in members ensures k.tokens[i] == l.tokens[i] {
        assert SameValue(l.tokens[i], k.tokens[i]);
        assert Used(lines, l.tokens[i]) && Used(lines, k.tokens[i]);
      }
      assert members[0] in members && Agree(members, i);
      WildIsNoAnchor(vocab);
    }
  }

  ghost predicate PinnedFrom(vocab: seq<string>, members: seq<Line>, lines: seq<Line>) {
    AnchorsPinned(vocab, members) && forall l :: l in members ==> l in lines
  }

  ghost predicate AllPinned(m: Miner, lines: seq<Line>) {
    forall id :: id in m.members ==> PinnedFrom(Vocabulary(m.config), m.members[id], lines)
  }

  lemma AbsorbKeepsPinned(vocab: seq<string>, template: seq<string>, members: seq<Line>, line: Line, lines: seq<Line>)
    requires vocab != [] && WILD !in vocab && IsTemplate(template, members) && |line.tokens| == |template|
    requires Compatible(vocab, template, line.tokens) && PinnedFrom(vocab, members, lines)
    requires OneSpelling(vocab, lines) && line in lines
    ensures PinnedFrom(vocab, members + [line], lines)
  {
    OneSpellingHidesNothing(vocab, template, members, lines);
    PinnedStaysIff(vocab, template, members, line);
    MemberOfPush(members, line);
  }

  lemma JoinKeepsPinned(m: Miner, id: nat, line: Line, lines: seq<Line>)
    requires id in m.clusters && ClustersOk(m) && AllPinned(m, lines) && line in lines
    requires var v := Vocabulary(m.config); v != [] && WILD !in v && OneSpelling(v, lines)
    requires |line.tokens| == |m.clusters[id].template|
    requires Compatible(Vocabulary(m.config), m.clusters[id].template, line.tokens)
    ensures AllPinned(Joined(m, id, line), lines)
  {
    var c, members := m.clusters[id], m.members[id];
    assert ClusterOk(m.config, id, c, members) && PinnedFrom(Vocabulary(m.config), members, lines);
    AbsorbKeepsPinned(Vocabulary(m.config), c.template, members, line, lines);
  }

  lemma MintKeepsPinned(m: Miner, line: Line, lines: seq<Line>)
    requires m.config.depth >= 2 && AllPinned(m, lines) && line in lines
    ensures AllPinned(Minted(m, line), lines)
  {
    assert PinnedFrom(Vocabulary(m.config), [line], lines);
  }

  lemma AddLogKeepsPinned(m: Miner, line: Line, lines: seq<Line>)
    requires m.config.depth >= 2 && m.nextId > 0 && ClustersOk(m) && AllPinned(m, lines) && line in lines
    requires var v := Vocabulary(m.config); v != [] && WILD !in v && OneSpelling(v, lines)
    ensures AllPinned(AddLog(m, line).0, lines)
  {
    if line.tokens != [] {
      match FindBestMatch(m, line).0 {
        case Some(id) =>
          assert ClusterOk(m.config, id, m.clusters[id], m.members[id]);
          JoinKeepsPinned(m, id, line, lines);
        case None => MintKeepsPinned(m, line, lines);
      }
    }
  }

  /** If a run spells every vocabulary value one way, then wherever one line of a cluster carries a
  vocabulary value, all its lines carry that value. */
  lemma {:induction false} OneSpellingPins(config: Config, lines: seq<Line>, n: nat)
    requires config.depth >= 2 && n <= |lines|
    requires var v := Vocabulary(config); v != [] && WILD !in v && OneSpelling(v, lines)
    ensures AllPinned(RunLines(config, lines[..n]), lines)
  {
    if n > 0 {
      var before := lines[..n - 1];
      assert lines[..n] == before + [lines[n - 1]];
      OneSpellingPins(config, lines, n - 1);
      LineKeepsPinned(config, before, lines[n - 1], lines);
    }
  }

  lemma LineKeepsPinned(config: Config, before: seq<Line>, line: Line, lines: seq<Line>)
    requires config.depth >= 2 && line in lines && AllPinned(RunLines(config, before), lines)
    requires var v := Vocabulary(config); v != [] && WILD !in v && OneSpelling(v, lines)
    ensures AllPinned(RunLines(config, before + [line]), lines)
  {
    RunLinesPush(config, before, line);
    EveryRunOk(config, before);
    AddLogKeepsPinned(RunLines(config, before), line, lines);
  }

  // ---------- where it fails ----------

  lemma MatchCountFour(t: seq<string>, u: seq<string>)
    requires |t| == |u| == 4
    ensures MatchCount(t, u) == (if Matches(t[0], u[0]) then 1 else 0) + (if Matches(t[1], u[1]) then 1 else 0)
                              + (if Matches(t[2], u[2]) then 1 else 0) + (if Matches(t[3], u[3]) then 1 else 0)
  {
    assert Init(t) == t[..3] && Init(t[..3]) == t[..2] && Init(t[..2]) == t[..1] && Init(t[..1]) == [];
    assert Init(u) == u[..3] && Init(u[..3]) == u[..2] && Init(u[..2]) == u[..1] && Init(u[..1]) == [];
    assert MatchCount(t[..1], u[..1]) == if Matches(t[0], u[0]) then 1 else 0;
    assert MatchCount(t[..2], u[..2]) == MatchCount(t[..1], u[..1]) + if Matches(t[1], u[1]) then 1 else 0;
    assert MatchCount(t[..3], u[..3]) == MatchCount(t[..2], u[..2]) + if Matches(t[2], u[2]) then 1 else 0;
  }

  /** A miner whose only cluster, in the leaf these tokens lead to, scores at least the threshold. */
  lemma JoinsOnlyCandidate(m: Miner, line: Line)
    requires m.config.depth >= 2 && line.tokens != [] && Candidates(m, line.tokens) == [1]
    requires Score(m, 1, line) > 0.0 && Score(m, 1, line) >= m.config.threshold
    ensures AddLog(m, line).0 == Joined(m, 1, line)
  {
    var ids: seq<nat> := [1];
    assert Candidates(m, line.tokens) == ids && Init(ids) == [] && Last(ids) == 1;
    assert Choose(m, [], line) == (None, 0.0);
  }

  lemma SimilarFour(vocab: seq<string>, t: seq<string>, u: seq<string>)
    requires |t| == |u| == 4 && Compatible(vocab, t, u)
    requires Matches(t[0], u[0]) && Matches(t[1], u[1]) && Matches(t[3], u[3])
    ensures Similarity(vocab, t, u) >= 0.75
  {
    MatchCountFour(t, u);
  }

  lemma WildConflictsOnlyWithAnchors(vocab: seq<string>, x: string)
    requires WILD !in vocab && !IsAnchor(vocab, x)
    ensures !Conflict(vocab, WILD, x)
  {
    WildIsNoAnchor(vocab);
    var s := WILD;
    assert s[1..] == "*>" && s[1..][1..] == ">" && s[1..][1..][1..] == "";
    assert Find(s[1..][1..][1..], '=') == None && FindPair(s[1..][1..], '"', ':') == None;
    assert KvKey(WILD) == None;
  }

  lemma FirstLine(config: Config, line: Line)
    requires config.depth >= 2 && line.tokens != []
    ensures var m := RunLines(config, [line]);
            m == Minted(NewMiner(config), line) && Candidates(m, line.tokens) == [1]
  {
    var m0 := NewMiner(config);
    assert Init([line]) == [] && RunLines(config, []) == m0;
    EveryRunOk(config, []);
    EmptyNeverDiverges(PrefixOf(config, line.tokens), config.maxChildren);
    CandidatesAfterMint(m0, line);
  }

  function Four(p: string, q: string, x: string, r: string): Line {
    Line([p, q, x, r], None)
  }

  lemma FourCandidates(m: Miner, p: string, q: string, x: string, y: string, r: string)
    requires 2 <= m.config.depth <= 4
    ensures Candidates(m, Four(p, q, x, r).tokens) == Candidates(m, Four(p, q, y, r).tokens)
  {
    var k := m.config.depth - 2;
    assert Four(p, q, x, r).tokens[..k] == Four(p, q, y, r).tokens[..k];
  }

  /** The only cluster, with template t, takes a line that matches it outside position 2. */
  lemma TakesFour(m: Miner, t: seq<string>, p: string, q: string, x: string, r: string)
    requires 2 <= m.config.depth <= 4 && m.config.anchorsEnabled && m.config.threshold <= 0.75
    requires 1 in m.clusters && m.clusters[1].template == t && m.clusters[1].size == 4 && m.clusters[1].tag == None
    requires |t| == 4 && t[0] == p && t[1] == q && t[3] == r && Candidates(m, Four(p, q, x, r).tokens) == [1]
    requires !Conflict(m.config.anchorTokens, t[2], x)
    ensures AddLog(m, Four(p, q, x, r)).0 == Joined(m, 1, Four(p, q, x, r))
  {
    FourScore(m, t, p, q, x, r);
    JoinsOnlyCandidate(m, Four(p, q, x, r));
  }

  lemma FourScore(m: Miner, t: seq<string>, p: string, q: string, x: string, r: string)
    requires m.config.anchorsEnabled
    requires 1 in m.clusters && m.clusters[1].template == t && m.clusters[1].size == 4 && m.clusters[1].tag == None
    requires |t| == 4 && t[0] == p && t[1] == q && t[3] == r && !Conflict(m.config.anchorTokens, t[2], x)
    ensures Score(m, 1, Four(p, q, x, r)) >= 0.75
  {
    CompatibleFour(m.config.anchorTokens, t, Four(p, q, x, r).tokens);
    SimilarFour(m.config.anchorTokens, t, Four(p, q, x, r).tokens);
  }

  lemma CompatibleFour(vocab: seq<string>, t: seq<string>, u: seq<string>)
    requires |t| == |u| == 4 && t[0] == u[0] && t[1] == u[1] && t[3] == u[3] && !Conflict(vocab, t[2], u[2])
    ensures Compatible(vocab, t, u)
  {
    forall i | 0 <= i < 4 ensures !Conflict(vocab, t[i], u[i]) {
      if i != 2 { assert t[i] == u[i] && SameValue(t[i], u[i]); }
    }
  }

  /** A second line that agrees but for a token in no conflict joins the first and leaves a wildcard where they differ. */
  lemma SecondFour(m: Miner, p: string, q: string, r: string, a: string, b: string)
    requires 2 <= m.config.depth <= 4 && m.config.anchorsEnabled && m.config.threshold <= 0.75
    requires m.clusters == map[1 := Cluster(1, [p, q, a, r], 1, 4, None)] && m.members == map[1 := [Four(p, q, a, r)]]
    requires Candidates(m, Four(p, q, a, r).tokens) == [1] && a != b && !Conflict(m.config.anchorTokens, a, b)
    ensures var m' := AddLog(m, Four(p, q, b, r)).0;
            && m'.config == m.config && m'.members == map[1 := [Four(p, q, a, r), Four(p, q, b, r)]]
            && m'.clusters == map[1 := Cluster(1, [p, q, WILD, r], 2, 4, None)]
            && Candidates(m', Four(p, q, a, r).tokens) == [1]
  {
    FourCandidates(m, p, q, a, b, r);
    TakesFour(m, [p, q, a, r], p, q, b, r);
    MergeFour(p, q, a, b, r);
    assert [Four(p, q, a, r)] + [Four(p, q, b, r)] == [Four(p, q, a, r), Four(p, q, b, r)];
  }

  lemma MergeFour(p: string, q: string, a: string, b: string, r: string)
    requires a != b
    ensures Merge([p, q, a, r], [p, q, b, r]) == [p, q, WILD, r]
  {}

  lemma FirstFour(config: Config, p: string, q: string, a: string, r: string)
    requires config.depth >= 2
    ensures var m := RunLines(config, [Four(p, q, a, r)]);
            && m.clusters == map[1 := Cluster(1, [p, q, a, r], 1, 4, None)] && m.members == map[1 := [Four(p, q, a, r)]]
            && Candidates(m, Four(p, q, a, r).tokens) == [1]
  {
    FirstLine(config, Four(p, q, a, r));
  }

  /** Two spellings of one vocabulary value (such as ALLOW and allow) turn their position into a
  wildcard; after that a line with any ordinary token there is absorbed too. */
  lemma TwoSpellingsHideAnchor(config: Config, p: string, q: string, r: string, a: string, b: string, x: string)
    requires 2 <= config.depth <= 4 && config.anchorsEnabled && config.threshold <= 0.75
    requires WILD !in config.anchorTokens
    requires a != b && SameValue(a, b) && IsAnchor(config.anchorTokens, a) && !IsAnchor(config.anchorTokens, x)
    ensures var lines := [Four(p, q, a, r), Four(p, q, b, r), Four(p, q, x, r)];
            var m2, m3 := RunLines(config, lines[..2]), RunLines(config, lines);
            && 1 in m2.clusters && m2.clusters[1].template == [p, q, WILD, r]
            && !NothingHidden(config.anchorTokens, m2.clusters[1].template, MembersOf(m2, 1))
            && MembersOf(m3, 1) == lines && !AnchorsPinned(config.anchorTokens, MembersOf(m3, 1))
  {
    var l1, l2, l3 := Four(p, q, a, r), Four(p, q, b, r), Four(p, q, x, r);
    ThreeJoin(config, p, q, r, a, b, x);
    HiddenBehind(config.anchorTokens, [p, q, WILD, r], [l1, l2], 2);
    NotPinned(config.anchorTokens, [l1, l2, l3], 0, 2, 2);
  }

  /** Two lines that differ in one token without a conflict leave a wildcard there, and any ordinary token
  joins them. */
  lemma ThreeJoin(config: Config, p: string, q: string, r: string, a: string, b: string, x: string)
    requires 2 <= config.depth <= 4 && config.anchorsEnabled && config.threshold <= 0.75
    requires WILD !in config.anchorTokens
    requires a != b && !Conflict(config.anchorTokens, a, b) && !IsAnchor(config.anchorTokens, x)
    ensures var lines := [Four(p, q, a, r), Four(p, q, b, r), Four(p, q, x, r)];
            var m2, m3 := RunLines(config, lines[..2]), RunLines(config, lines);
            && 1 in m2.clusters && m2.clusters[1].template == [p, q, WILD, r]
            && MembersOf(m2, 1) == lines[..2] && MembersOf(m3, 1) == lines
  {
    var l1, l2, l3 := Four(p, q, a, r), Four(p, q, b, r), Four(p, q, x, r);
    ThreeLines(config, l1, l2, l3);
    var m1 := RunLines(config, [l1]);
    FirstFour(config, p, q, a, r);
    SecondFour(m1, p, q, r, a, b);
    TwoLines(config, l1, l2);
    assert [l1, l2, l3][..2] == [l1, l2];
    ThirdLine(AddLog(m1, l2).0, p, q, r, a, b, x);
  }

  lemma TwoLines(config: Config, a: Line, b: Line)
    requires config.depth >= 2
    ensures RunLines(config, [a, b]) == AddLog(RunLines(config, [a]), b).0
  {
    RunLinesPush(config, [a], b);
    assert [a] + [b] == [a, b];
  }

  lemma HiddenBehind(vocab: seq<string>, template: seq<string>, members: seq<Line>, i: nat)
    requires members != [] && i < |template| && i < |members[0].tokens|
    requires template[i] == WILD && IsAnchor(vocab, members[0].tokens[i])
    ensures !NothingHidden(vocab, template, members)
  {
    assert members[0] in members;
  }

  lemma ThreeLines(config: Config, a: Line, b: Line, c: Line)
    requires config.depth >= 2
    ensures RunLines(config, [a, b, c]) == AddLog(AddLog(RunLines(config, [a]), b).0, c).0
  {
    RunLinesPush(config, [a], b);
    RunLinesPush(config, [a, b], c);
    assert [a] + [b] == [a, b] && [a, b] + [c] == [a, b, c];
  }

  lemma ThirdLine(m: Miner, p: string, q: string, r: string, a: string, b: string, x: string)
    requires 2 <= m.config.depth <= 4 && m.config.anchorsEnabled && m.config.threshold <= 0.75
    requires WILD !in m.config.anchorTokens && !IsAnchor(m.config.anchorTokens, x)
    requires m.members == map[1 := [Four(p, q, a, r), Four(p, q, b, r)]]
    requires m.clusters == map[1 := Cluster(1, [p, q, WILD, r], 2, 4, None)]
    requires Candidates(m, Four(p, q, a, r).tokens) == [1]
    ensures MembersOf(AddLog(m, Four(p, q, x, r)).0, 1) == [Four(p, q, a, r), Four(p, q, b, r), Four(p, q, x, r)]
  {
    FourCandidates(m, p, q, a, x, r);
    WildConflictsOnlyWithAnchors(m.config.anchorTokens, x);
    TakesFour(m, [p, q, WILD, r], p, q, x, r);
  }

  lemma NotPinned(vocab: seq<string>, members: seq<Line>, k: nat, j: nat, i: nat)
    requires k < |members| && j < |members| && i < |members[k].tokens| && i < |members[j].tokens|
    requires IsAnchor(vocab, members[k].tokens[i]) && !IsAnchor(vocab, members[j].tokens[i])
    ensures !AnchorsPinned(vocab, members)
  {
    if SameValue(members[k].tokens[i], members[j].tokens[i]) {
      AnchorByValue(vocab, members[k].tokens[i], members[j].tokens[i]);
    }
    assert members[k] in members && members[j] in members;
  }
}
