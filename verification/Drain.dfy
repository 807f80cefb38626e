/** The Drain template miner: similarity, anchors, the prefix tree and one step of mining.

A `Line` is what masking, tokenising and tag extraction make of a raw log line. Similarity is an
exact rational. `members` and `home` record, for each cluster, the lines it absorbed and the leaf it
was filed under. */
module Drain {
  import opened Collections
  import opened Text

  const WILD: string := "<*>"
  const STAR: string := "*"
  const CLASS_KEYS: seq<string> := ["type"]

  datatype Config = Config(depth: nat, threshold: real, maxChildren: nat, anchorTokens: seq<string>, anchorsEnabled: bool)

  datatype Line = Line(tokens: seq<string>, tag: Option<string>)

  datatype Cluster = Cluster(id: nat, template: seq<string>, count: nat, size: nat, tag: Option<string>)

  // ---------- anchors ----------

  predicate IsQuoteOrSpace(c: char) {
    c == '"' || c == '\'' || c == ',' || c == ';' || IsWhitespace(c)
  }

  /** The value part of `key=value` or `"key":"value"`, otherwise the whole token. */
  function AnchorValue(token: string): string {
    var eq := Find(token, '=');
    var colon := FindPair(token, '"', ':');
    var value := if eq.Some? then token[eq.value + 1..] else if colon.Some? then token[colon.value + 2..] else token;
    TrimMatches(value, IsQuoteOrSpace)
  }

  function KvKey(token: string): Option<string> {
    var eq := Find(token, '=');
    var colon := FindPair(token, '"', ':');
    if eq.Some? then Some(TrimMatches(token[..eq.value], IsQuoteOrSpace))
    else if colon.Some? then Some(TrimMatches(token[..colon.value], IsQuoteOrSpace))
    else None
  }

  /** The token's value is in the vocabulary, ignoring case. */
  predicate IsAnchor(vocab: seq<string>, token: string) {
    exists i | 0 <= i < |vocab| :: SameIgnoringCase(AnchorValue(token), vocab[i])
  }

  predicate SameValue(a: string, b: string) {
    SameIgnoringCase(AnchorValue(a), AnchorValue(b))
  }

  predicate ClassConflict(a: string, b: string) {
    var ka, kb := KvKey(a), KvKey(b);
    && ka.Some? && kb.Some? && SameIgnoringCase(ka.value, kb.value)
    && (exists i | 0 <= i < |CLASS_KEYS| :: SameIgnoringCase(ka.value, CLASS_KEYS[i]))
    && !SameValue(a, b)
  }

  /** The two tokens force distinct clusters. */
  predicate Conflict(vocab: seq<string>, a: string, b: string) {
    || ((IsAnchor(vocab, a) || IsAnchor(vocab, b)) && !SameValue(a, b))
    || ClassConflict(a, b)
  }

  // ---------- similarity ----------

  predicate Compatible(vocab: seq<string>, template: seq<string>, tokens: seq<string>)
    requires |template| == |tokens|
  {
    vocab != [] ==> forall i | 0 <= i < |tokens| :: !Conflict(vocab, template[i], tokens[i])
  }

  predicate Matches(templateToken: string, token: string) {
    templateToken == WILD || templateToken == token
  }

  function MatchCount(template: seq<string>, tokens: seq<string>): (n: nat)
    requires |template| == |tokens|
    ensures n <= |tokens|
  {
    if tokens == [] then 0
    else MatchCount(Init(template), Init(tokens)) + if Matches(Last(template), Last(tokens)) then 1 else 0
  }

  function Similarity(vocab: seq<string>, template: seq<string>, tokens: seq<string>): (s: real)
    ensures 0.0 <= s <= 1.0
  {
    if |template| != |tokens| || template == [] || !Compatible(vocab, template, tokens) then 0.0
    else
      var n, d := MatchCount(template, tokens) as real, |tokens| as real;
      assert 0.0 <= n <= d;
      n / d
  }

  lemma {:induction false} MatchCountSelf(tokens: seq<string>)
    ensures MatchCount(tokens, tokens) == |tokens|
  {
    if tokens != [] { MatchCountSelf(Init(tokens)); }
  }

  /** A line is wholly similar to the template it would mint. */
  lemma SelfSimilar(vocab: seq<string>, tokens: seq<string>)
    requires tokens != []
    ensures Similarity(vocab, tokens, tokens) == 1.0
  {
    MatchCountSelf(tokens);
  }

  // ---------- templates ----------

  /** `update` on the template: a token that differs becomes a wildcard and stays one. */
  function Merge(template: seq<string>, tokens: seq<string>): (r: seq<string>)
    requires |template| == |tokens|
    ensures |r| == |template|
    ensures forall i :: 0 <= i < |r| ==> r[i] == if template[i] == tokens[i] then template[i] else WILD
  {
    seq(|template|, i requires 0 <= i < |template| =>
      if template[i] != tokens[i] && template[i] != WILD then WILD else template[i])
  }

  function Absorbed(c: Cluster, tokens: seq<string>): Cluster
    requires |c.template| == |tokens|
  {
    c.(count := c.count + 1, template := Merge(c.template, tokens))
  }

  // ---------- the prefix tree ----------

  datatype Node = Node(children: map<string, Node>, clusterIds: seq<nat>)

  const LEAF := Node(map[], [])

  predicate HasDigitOrParam(token: string) {
    token == WILD || exists i | 0 <= i < |token| :: IsDigit(token[i])
  }

  function LookupKey(token: string): string {
    if HasDigitOrParam(token) then STAR else token
  }

  function InsertKey(node: Node, token: string, maxChildren: nat): string {
    if HasDigitOrParam(token) || |node.children| >= maxChildren then STAR else token
  }

  function ChildOr(node: Node, key: string): Node {
    if key in node.children then node.children[key] else LEAF
  }

  /** The child the lookup descends to: the token's own child, else the `*` child. */
  function Descend(node: Node, token: string): Option<string> {
    if LookupKey(token) in node.children then Some(LookupKey(token))
    else if STAR in node.children then Some(STAR)
    else None
  }

  /** The keys from a node to the leaf where the lookup ends. */
  function LookupPath(node: Node, prefix: seq<string>): Option<seq<string>>
    decreases |prefix|
  {
    if prefix == [] then Some([])
    else
      match Descend(node, prefix[0])
      case None => None
      case Some(key) =>
        match LookupPath(ChildOr(node, key), prefix[1..])
        case None => None
        case Some(rest) => Some([key] + rest)
  }

  /** The keys from a node to the leaf where an insertion files its cluster. */
  function InsertPath(node: Node, prefix: seq<string>, maxChildren: nat): seq<string>
    decreases |prefix|
  {
    if prefix == [] then []
    else
      var key := InsertKey(node, prefix[0], maxChildren);
      [key] + InsertPath(ChildOr(node, key), prefix[1..], maxChildren)
  }

  function Insert(node: Node, prefix: seq<string>, id: nat, maxChildren: nat): Node
    decreases |prefix|
  {
    if prefix == [] then node.(clusterIds := node.clusterIds + [id])
    else
      var key := InsertKey(node, prefix[0], maxChildren);
      node.(children := node.children[key := Insert(ChildOr(node, key), prefix[1..], id, maxChildren)])
  }

  /** The node at the end of a path, if there is one. */
  function NodeAt(node: Node, path: seq<string>): Option<Node>
    decreases |path|
  {
    if path == [] then Some(node)
    else if path[0] in node.children then NodeAt(node.children[path[0]], path[1..])
    else None
  }

  function IdsAt(node: Node, path: seq<string>): seq<nat> {
    match NodeAt(node, path)
    case None => []
    case Some(n) => n.clusterIds
  }

  // ---------- the miner ----------

  datatype Miner = Miner(config: Config, root: map<nat, Node>, clusters: map<nat, Cluster>, nextId: nat, total: nat,
                         members: map<nat, seq<Line>>, home: map<nat, (nat, seq<string>)>)

  datatype MineResult = MineResult(clusterId: nat, template: seq<string>, isNew: bool, similarity: real)

  function NewMiner(config: Config): Miner {
    Miner(config, map[], map[], 1, 0, map[], map[])
  }

  /** The tokens that steer the descent: at most depth - 2 of them. */
  function PrefixOf(config: Config, tokens: seq<string>): seq<string>
    requires config.depth >= 2
  {
    if config.depth - 2 <= |tokens| then tokens[..config.depth - 2] else tokens
  }

  function LengthNode(root: map<nat, Node>, n: nat): Node {
    if n in root then root[n] else LEAF
  }

  /** The cluster ids in the leaf where the lookup ends; none when the descent fails. */
  function Candidates(m: Miner, tokens: seq<string>): seq<nat>
    requires m.config.depth >= 2
  {
    if |tokens| !in m.root then []
    else
      match LookupPath(m.root[|tokens|], PrefixOf(m.config, tokens))
      case None => []
      case Some(path) => IdsAt(m.root[|tokens|], path)
  }

  function Vocabulary(config: Config): seq<string> {
    if config.anchorsEnabled then config.anchorTokens else []
  }

  /** What a candidate scores; clusters of another size or another tag are passed over. */
  function Score(m: Miner, id: nat, line: Line): (s: real)
    ensures 0.0 <= s <= 1.0
  {
    if id !in m.clusters then 0.0
    else
      var c := m.clusters[id];
      if c.size != |line.tokens| || (m.config.anchorsEnabled && c.tag != line.tag) then 0.0
      else Similarity(Vocabulary(m.config), c.template, line.tokens)
  }

  /** The running choice after the candidates seen so far. */
  function Choose(m: Miner, ids: seq<nat>, line: Line): (r: (Option<nat>, real))
    ensures 0.0 <= r.1 <= 1.0
    ensures r.0.Some? ==> r.0.value in ids && Score(m, r.0.value, line) == r.1 > 0.0 && r.1 >= m.config.threshold
  {
    if ids == [] then (None, 0.0)
    else
      var (best, maxSim) := Choose(m, Init(ids), line);
      var s := Score(m, Last(ids), line);
      if s > maxSim then (if s >= m.config.threshold then Some(Last(ids)) else best, s) else (best, maxSim)
  }

  function FindBestMatch(m: Miner, line: Line): (r: (Option<nat>, real))
    requires m.config.depth >= 2
    ensures r.0.Some? ==> Score(m, r.0.value, line) == r.1 > 0.0 && r.1 >= m.config.threshold
  {
    Choose(m, Candidates(m, line.tokens), line)
  }

  function MembersOf(m: Miner, id: nat): seq<Line> {
    if id in m.members then m.members[id] else []
  }

  function Joined(m: Miner, id: nat, line: Line): Miner
    requires id in m.clusters && |m.clusters[id].template| == |line.tokens|
  {
    m.(total := m.total + 1,
       clusters := m.clusters[id := Absorbed(m.clusters[id], line.tokens)],
       members := m.members[id := MembersOf(m, id) + [line]])
  }

  function Minted(m: Miner, line: Line): Miner
    requires m.config.depth >= 2
  {
    var n, prefix, id := |line.tokens|, PrefixOf(m.config, line.tokens), m.nextId;
    var node := LengthNode(m.root, n);
    m.(total := m.total + 1,
       nextId := id + 1,
       root := m.root[n := Insert(node, prefix, id, m.config.maxChildren)],
       clusters := m.clusters[id := Cluster(id, line.tokens, 1, n, line.tag)],
       members := m.members[id := [line]],
       home := m.home[id := (n, InsertPath(node, prefix, m.config.maxChildren))])
  }

  /** One line: join the best matching cluster, or mint a new one. */
  function AddLog(m: Miner, line: Line): (Miner, MineResult)
    requires m.config.depth >= 2
  {
    if line.tokens == [] then (m.(total := m.total + 1), MineResult(0, [], false, 1.0))
    else
      var (best, maxSim) := FindBestMatch(m, line);
      match best
      case Some(id) =>
        var m' := Joined(m, id, line);
        (m', MineResult(id, m'.clusters[id].template, false, maxSim))
      case None => (Minted(m, line), MineResult(m.nextId, line.tokens, true, maxSim))
  }
}
