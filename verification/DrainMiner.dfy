/** The miner as an object: its search loops, its in-place template update, and `AddLog`. The prefix
tree is a value that insertions replace. */
module DrainMiners {
  import opened Collections
  import opened Drain
  import opened DrainRuns

  /** The two loops of the similarity computation. */
  method ComputeSimilarity(vocab: seq<string>, template: seq<string>, tokens: seq<string>) returns (s: real)
    ensures s == Similarity(vocab, template, tokens)
  {
    if |template| != |tokens| || template == [] { return 0.0; }
    if vocab != [] {
      for i := 0 to |tokens|
        invariant forall j :: 0 <= j < i ==> !Conflict(vocab, template[j], tokens[j])
      {
        if Conflict(vocab, template[i], tokens[i]) { return 0.0; }
      }
    }
    var matches := CountMatches(template, tokens);
    return matches as real / |tokens| as real;
  }

  method CountMatches(template: seq<string>, tokens: seq<string>) returns (matches: nat)
    requires |template| == |tokens|
    ensures matches == MatchCount(template, tokens)
  {
    matches := 0;
    for i := 0 to |tokens|
      invariant matches == MatchCount(template[..i], tokens[..i])
    {
      assert Init(template[..i + 1]) == template[..i] && Init(tokens[..i + 1]) == tokens[..i];
      if template[i] == WILD || template[i] == tokens[i] { matches := matches + 1; }
    }
    assert template[..|tokens|] == template && tokens[..|tokens|] == tokens;
  }

  /** Turns every template token that differs into a wildcard, one position at a time. */
  method UpdateTemplate(template: seq<string>, tokens: seq<string>) returns (updated: seq<string>, changed: bool)
    requires |template| == |tokens|
    ensures updated == Merge(template, tokens)
    ensures changed <==> updated != template
  {
    updated, changed := template, false;
    for i := 0 to |template|
      invariant |updated| == |template|
      invariant forall j :: 0 <= j < i ==> updated[j] == Merge(template, tokens)[j]
      invariant forall j :: i <= j < |template| ==> updated[j] == template[j]
      invariant changed <==> exists j :: 0 <= j < i && updated[j] != template[j]
    {
      if updated[i] != tokens[i] && updated[i] != WILD {
        updated, changed := updated[i := WILD], true;
      }
    }
  }

  /** Where a descent ends. */
  function LeafOf(node: Node, prefix: seq<string>): Option<Node>
    decreases |prefix|
  {
    if prefix == [] then Some(node)
    else match Descend(node, prefix[0])
         case None => None
         case Some(key) => LeafOf(ChildOr(node, key), prefix[1..])
  }

  lemma {:induction false} LeafOfPath(node: Node, prefix: seq<string>)
    ensures match LookupPath(node, prefix)
            case None => LeafOf(node, prefix) == None
            case Some(path) => LeafOf(node, prefix).Some? && LeafOf(node, prefix).value.clusterIds == IdsAt(node, path)
    decreases |prefix|
  {
    if prefix != [] {
      var key := Descend(node, prefix[0]);
      if key.Some? {
        var child := ChildOr(node, key.value);
        LeafOfPath(child, prefix[1..]);
        var rest := LookupPath(child, prefix[1..]);
        if rest.Some? { assert ([key.value] + rest.value)[1..] == rest.value; }
      }
    }
  }

  class DrainMiner {
    const config: Config
    var root: map<nat, Node>
    var clusters: map<nat, Cluster>
    var nextClusterId: nat
    var totalLogs: nat
    ghost var members: map<nat, seq<Line>>
    ghost var home: map<nat, (nat, seq<string>)>

    ghost function Abs(): Miner
      reads this
    {
      Miner(config, root, clusters, nextClusterId, totalLogs, members, home)
    }

    ghost predicate Valid()
      reads this
    {
      config.depth >= 2 && nextClusterId > 0 && ClustersOk(Abs()) && IndexOk(Abs())
    }

    constructor (config: Config)
      requires config.depth >= 2
      ensures Valid() && Abs() == NewMiner(config)
    {
      this.config := config;
      root, clusters, nextClusterId, totalLogs := map[], map[], 1, 0;
      members, home := map[], map[];
      new;
      assert Abs() == RunLines(config, []);
      EveryRunOk(config, []);
    }

    /** The descent loop: the ids in the leaf the tokens lead to. */
    method LeafCandidates(tokens: seq<string>) returns (ids: seq<nat>)
      requires config.depth >= 2
      ensures ids == Candidates(Abs(), tokens)
    {
      if |tokens| !in root { return []; }
      var prefix := PrefixOf(config, tokens);
      var current := root[|tokens|];
      LeafOfPath(current, prefix);
      for i := 0 to |prefix|
        invariant LeafOf(current, prefix[i..]) == LeafOf(root[|tokens|], prefix)
      {
        assert prefix[i..][0] == prefix[i] && prefix[i..][1..] == prefix[i + 1..];
        var key := if HasDigitOrParam(prefix[i]) then STAR else prefix[i];
        if key in current.children {
          current := current.children[key];
        } else if STAR in current.children {
          current := current.children[STAR];
        } else {
          return [];
        }
      }
      return current.clusterIds;
    }

    /** The argmax loop. */
    method FindBestMatch(line: Line) returns (best: Option<nat>, maxSim: real)
      requires config.depth >= 2
      ensures (best, maxSim) == Drain.FindBestMatch(Abs(), line)
    {
      var vocab := if config.anchorsEnabled then config.anchorTokens else [];
      var ids := LeafCandidates(line.tokens);
      best, maxSim := None, 0.0;
      for i := 0 to |ids|
        invariant (best, maxSim) == Choose(Abs(), ids[..i], line)
      {
        assert Init(ids[..i + 1]) == ids[..i];
        var id := ids[i];
        if id in clusters {
          var cluster := clusters[id];
          if cluster.size == |line.tokens| && !(config.anchorsEnabled && cluster.tag != line.tag) {
            var sim := ComputeSimilarity(vocab, cluster.template, line.tokens);
            if sim > maxSim {
              maxSim := sim;
              if sim >= config.threshold { best := Some(id); }
            }
          }
        }
      }
      assert ids[..|ids|] == ids;
    }

    method AddLog(line: Line) returns (r: MineResult)
      requires Valid()
      modifies this
      ensures Valid()
      ensures (Abs(), r) == Drain.AddLog(old(Abs()), line)
    {
      AddLogKeeps(Abs(), line);
      if line.tokens == [] {
        totalLogs := totalLogs + 1;
        return MineResult(0, [], false, 1.0);
      }
      var best, maxSim := FindBestMatch(line);
      if best.Some? {
        var template := Join(best.value, line);
        return MineResult(best.value, template, false, maxSim);
      } else {
        var id := Mint(line);
        return MineResult(id, line.tokens, true, maxSim);
      }
    }

    method Join(id: nat, line: Line) returns (template: seq<string>)
      requires id in clusters && |clusters[id].template| == |line.tokens|
      modifies this
      ensures Abs() == Joined(old(Abs()), id, line) && template == clusters[id].template
    {
      totalLogs := totalLogs + 1;
      var cluster := clusters[id];
      var changed;
      template, changed := UpdateTemplate(cluster.template, line.tokens);
      clusters := clusters[id := cluster.(count := cluster.count + 1, template := template)];
      members := members[id := (if id in members then members[id] else []) + [line]];
    }

    method Mint(line: Line) returns (id: nat)
      requires config.depth >= 2
      modifies this
      ensures Abs() == Minted(old(Abs()), line) && id == old(nextClusterId)
    {
      totalLogs := totalLogs + 1;
      id := nextClusterId;
      nextClusterId := nextClusterId + 1;
      var n, prefix := |line.tokens|, PrefixOf(config, line.tokens);
      var lengthNode := if n in root then root[n] else LEAF;
      home := home[id := (n, InsertPath(lengthNode, prefix, config.maxChildren))];
      root := root[n := Insert(lengthNode, prefix, id, config.maxChildren)];
      clusters := clusters[id := Cluster(id, line.tokens, 1, n, line.tag)];
      members := members[id := [line]];
    }
  }
}
