/** The class partition: tokens that assign different words to `type` keep their lines apart, as long as
the template still shows one of them. */
module DrainClasses {
  import opened Collections
  import opened Text
  import opened Drain
  import opened DrainClusters
  import opened DrainRuns
  import opened DrainAnchors
  import V = DrainValues

  /** The token assigns to a class key. */
  predicate IsClass(token: string) {
    KvKey(token).Some? && exists i | 0 <= i < |CLASS_KEYS| :: SameIgnoringCase(KvKey(token).value, CLASS_KEYS[i])
  }

  lemma WildIsNoClass()
    ensures !IsClass(WILD)
  {
    var s := WILD;
    assert s[1..] == "*>" && s[1..][1..] == ">" && s[1..][1..][1..] == "";
    assert Find(s[1..][1..][1..], '=') == None && FindPair(s[1..][1..], '"', ':') == None;
    assert KvKey(WILD) == None;
  }

  // ---------- one decision ----------

  /** A line never joins a cluster whose template shows another class at some position. */
  lemma OtherClassNeverJoins(m: Miner, id: nat, line: Line, i: nat, s: V.Token, t: V.Token)
    requires id in m.clusters && Vocabulary(m.config) != []
    requires i < |m.clusters[id].template| && i < |line.tokens|
    requires m.clusters[id].template[i] == V.Spell(s) && line.tokens[i] == V.Spell(t)
    requires V.Legal(s) && V.Legal(t) && V.BothTypes(s, t) && !SameIgnoringCase(s.value.text, t.value.text)
    ensures Score(m, id, line) == 0.0
  {
    V.ConflictIff(Vocabulary(m.config), s, t);
  }

  // ---------- classes behind wildcards ----------

  /** No class token of a member lies behind a wildcard of the template. */
  ghost predicate ClassesShown(template: seq<string>, members: seq<Line>) {
    forall l, i :: l in members && 0 <= i < |template| && i < |l.tokens| && template[i] == WILD ==> !IsClass(l.tokens[i])
  }

  /** Template and line have the same token wherever either has a class token. */
  predicate ClassesRepeat(template: seq<string>, tokens: seq<string>)
    requires |template| == |tokens|
  {
    forall i | 0 <= i < |template| :: IsClass(template[i]) || IsClass(tokens[i]) ==> template[i] == tokens[i]
  }

  lemma StaysShown(template: seq<string>, members: seq<Line>, line: Line, l: Line, i: nat)
    requires IsTemplate(template, members) && |line.tokens| == |template| && i < |template|
    requires ClassesShown(template, members) && ClassesRepeat(template, line.tokens)
    requires (l in members || l == line) && IsClass(l.tokens[i])
    ensures Merge(template, line.tokens)[i] != WILD
  {
    WildIsNoClass();
    if l in members { TemplateToken(template, members, l, i); }
  }

  lemma BecomesCovered(template: seq<string>, members: seq<Line>, line: Line)
    requires IsTemplate(template, members) && |line.tokens| == |template|
    requires !ClassesShown(template, members) || !ClassesRepeat(template, line.tokens)
    ensures !ClassesShown(Merge(template, line.tokens), members + [line])
  {
    MemberOfPush(members, line);
    WildIsNoClass();
    if !ClassesShown(template, members) {
      var l, i :| l in members && 0 <= i < |template| && i < |l.tokens| && template[i] == WILD && IsClass(l.tokens[i]);
      assert l in members + [line] && Merge(template, line.tokens)[i] == WILD;
    } else {
      var i :| 0 <= i < |template| && (IsClass(template[i]) || IsClass(line.tokens[i])) && template[i] != line.tokens[i];
      TemplateToken(template, members, members[0], i);
      assert members[0] in members + [line] && line in members + [line] && Merge(template, line.tokens)[i] == WILD;
    }
  }

  /** Absorbing a line leaves every class shown exactly when every class was shown and the line has the
  template's token wherever either has a class token. */
  lemma ShownAfterIff(template: seq<string>, members: seq<Line>, line: Line)
    requires IsTemplate(template, members) && |line.tokens| == |template|
    ensures ClassesShown(Merge(template, line.tokens), members + [line])
            <==> ClassesShown(template, members) && ClassesRepeat(template, line.tokens)
  {
    if ClassesShown(template, members) && ClassesRepeat(template, line.tokens) {
      MemberOfPush(members, line);
      forall l, i | l in members + [line] && 0 <= i < |template| && i < |l.tokens| && IsClass(l.tokens[i])
        ensures Merge(template, line.tokens)[i] != WILD
      {
        StaysShown(template, members, line, l, i);
      }
    } else {
      BecomesCovered(template, members, line);
    }
  }

  /** With every class shown, members with a class token at a position have the same one. */
  lemma ShownAgree(template: seq<string>, members: seq<Line>, a: Line, b: Line, i: nat)
    requires IsTemplate(template, members) && ClassesShown(template, members)
    requires a in members && b in members && i < |template| && IsClass(a.tokens[i])
    ensures a.tokens[i] == b.tokens[i]
  {
    TemplateToken(template, members, a, i);
    TemplateToken(template, members, b, i);
  }

  // ---------- whole runs ----------

  ghost predicate Shown(m: Miner, id: nat)
    requires id in m.clusters
  {
    ClassesShown(m.clusters[id].template, MembersOf(m, id))
  }

  ghost predicate AllShown(m: Miner) {
    forall id :: id in m.clusters ==> Shown(m, id)
  }

  predicate Fits(m: Miner, line: Line)
    requires m.config.depth >= 2
  {
    line.tokens == [] ||
    match FindBestMatch(m, line).0
    case None => true
    case Some(id) => ClassesRepeat(m.clusters[id].template, line.tokens)
  }

  predicate AllFit(config: Config, lines: seq<Line>)
    requires config.depth >= 2
  {
    lines == [] || (AllFit(config, Init(lines)) && Fits(RunLines(config, Init(lines)), Last(lines)))
  }

  lemma SameShown(m: Miner, m': Miner, id: nat)
    requires id in m.clusters && id in m'.clusters
    requires m'.clusters[id] == m.clusters[id] && MembersOf(m', id) == MembersOf(m, id)
    ensures Shown(m', id) == Shown(m, id)
  {}

  lemma JoinedShownIff(m: Miner, id: nat, line: Line)
    requires ClustersOk(m) && Score(m, id, line) > 0.0
    ensures Shown(Joined(m, id, line), id) <==> Shown(m, id) && ClassesRepeat(m.clusters[id].template, line.tokens)
  {
    assert ClusterOk(m.config, id, m.clusters[id], m.members[id]);
    ShownAfterIff(m.clusters[id].template, m.members[id], line);
  }

  /** The two miners agree on every cluster but one. */
  lemma AllShownChange(m: Miner, m': Miner, id: nat)
    requires id in m.clusters && m'.clusters.Keys == m.clusters.Keys && (Shown(m', id) ==> Shown(m, id))
    requires forall x :: x in m.clusters && x != id ==> m'.clusters[x] == m.clusters[x] && MembersOf(m', x) == MembersOf(m, x)
    ensures AllShown(m') <==> AllShown(m) && Shown(m', id)
  {
    forall x | x in m.clusters && x != id ensures Shown(m', x) == Shown(m, x) { SameShown(m, m', x); }
  }

  lemma JoinShownIff(m: Miner, id: nat, line: Line)
    requires ClustersOk(m) && Score(m, id, line) > 0.0
    ensures AllShown(Joined(m, id, line)) <==> AllShown(m) && ClassesRepeat(m.clusters[id].template, line.tokens)
  {
    JoinedShownIff(m, id, line);
    AllShownChange(m, Joined(m, id, line), id);
  }

  lemma MintShownIff(m: Miner, line: Line)
    requires m.config.depth >= 2 && ClustersOk(m)
    ensures AllShown(Minted(m, line)) <==> AllShown(m)
  {
    var m', id := Minted(m, line), m.nextId;
    WildIsNoClass();
    assert Shown(m', id);
    forall x | x in m.clusters ensures x != id && Shown(m', x) == Shown(m, x) { SameShown(m, m', x); }
  }

  lemma AddLogShownIff(m: Miner, line: Line)
    requires m.config.depth >= 2 && ClustersOk(m)
    ensures AllShown(AddLog(m, line).0) <==> AllShown(m) && Fits(m, line)
  {
    if line.tokens == [] {
      forall x | x in m.clusters ensures Shown(AddLog(m, line).0, x) == Shown(m, x) { SameShown(m, AddLog(m, line).0, x); }
    } else {
      match FindBestMatch(m, line).0 {
        case Some(id) => JoinShownIff(m, id, line);
        case None => MintShownIff(m, line);
      }
    }
  }

  /** After a run no class token lies behind a wildcard, if and only if every joining line has its
  template's token wherever either has a class token. */
  lemma {:induction false} ClassesShownIff(config: Config, lines: seq<Line>)
    requires config.depth >= 2
    ensures AllShown(RunLines(config, lines)) <==> AllFit(config, lines)
  {
    if lines != [] {
      ClassesShownIff(config, Init(lines));
      EveryRunOk(config, Init(lines));
      AddLogShownIff(RunLines(config, Init(lines)), Last(lines));
    }
  }

  // ---------- where the partition leaks ----------

  function Plain(text: string): V.Word {
    V.Word("", text, "")
  }

  function Assign(key: string, text: string): V.Token {
    V.Assigned(Plain(key), Plain(text))
  }

  /** A line with another key in the same place turns the class into a wildcard, and then any class joins:
  `type=x`, `key=y`, `type=z` end up in one cluster. */
  lemma ClassesCanMix(config: Config, p: string, q: string, r: string, key: string, x: string, y: string, z: string)
    requires 2 <= config.depth <= 4 && config.anchorsEnabled && config.threshold <= 0.75
    requires config.anchorTokens != [] && WILD !in config.anchorTokens
    requires var ts := [Assign("type", x), Assign(key, y), Assign("type", z)]; forall t :: t in ts ==> V.Legal(t)
    requires forall w :: w in [x, y, z] ==> !V.Listed(config.anchorTokens, w)
    requires !SameIgnoringCase(key, "type")
    ensures var lines := [Four(p, q, V.Spell(Assign("type", x)), r), Four(p, q, V.Spell(Assign(key, y)), r),
                          Four(p, q, V.Spell(Assign("type", z)), r)];
            MembersOf(RunLines(config, lines), 1) == lines
  {
    var s, t, u := Assign("type", x), Assign(key, y), Assign("type", z);
    assert V.Legal(s) && V.Legal(t) && V.Legal(u) by { assert s in [s, t, u] && t in [s, t, u] && u in [s, t, u]; }
    assert x in [x, y, z] && y in [x, y, z] && z in [x, y, z];
    V.ConflictIff(config.anchorTokens, s, t);
    V.TokenSeen(s);
    V.TokenSeen(t);
    V.TokenSeen(u);
    assert V.Spell(s) != V.Spell(t);
    ThreeJoin(config, p, q, r, V.Spell(s), V.Spell(t), V.Spell(u));
  }
}
