/** The RFC 6962 Merkle tree: construction, audit paths and consistency proofs.

The tree value, the proof generators and the two proof-stack verifiers of the integrity crate,
each next to the definition of section 2.1 of RFC 6962 it has to meet. */
module Merkle {
  import opened Hashing
  import opened Collections

  // ---------- the split point ----------

  function Pow2(e: nat): nat {
    if e == 0 then 1 else 2 * Pow2(e - 1)
  }

  /** Index of the highest set bit: `BITS - 1 - leading_zeros(x)`. */
  function FloorLog2(x: nat): nat
    requires x > 0
  {
    if x == 1 then 0 else 1 + FloorLog2(x / 2)
  }

  /** The bit expression that picks where a list of n leaves is split. */
  function LargestPowerOfTwoLessThan(n: nat): (k: nat)
    requires n > 1
    ensures k == SplitPoint(n)
  {
    SplitPointIsHighBit(n);
    Pow2(FloorLog2(n - 1))
  }

  /** The same number by halving, with the bounds that make it the largest power of two below n. */
  function SplitPoint(n: nat): (k: nat)
    requires n > 1
    ensures 0 < k < n <= 2 * k
  {
    if n == 2 then 1 else 2 * SplitPoint((n + 1) / 2)
  }

  lemma {:induction false} SplitPointIsHighBit(n: nat)
    requires n > 1
    ensures Pow2(FloorLog2(n - 1)) == SplitPoint(n)
  {
    if n > 2 {
      SplitPointIsHighBit((n + 1) / 2);
      assert (n + 1) / 2 - 1 == (n - 1) / 2;
    }
  }

  /** A prefix that reaches beyond the left subtree splits where the whole list splits. */
  lemma {:induction false} SplitOfPrefix(m: nat, n: nat)
    requires n > 1 && SplitPoint(n) < m <= n
    ensures SplitPoint(m) == SplitPoint(n)
  {
    if n > 2 { SplitOfPrefix((m + 1) / 2, (n + 1) / 2); }
  }

  // ---------- the shape of a list ----------

  /** A non-empty list, split the way section 2.1 of RFC 6962 splits it. */
  datatype Shape<T> = One(x: T) | Fork(left: Shape<T>, right: Shape<T>)

  function Size<T>(t: Shape<T>): (n: nat)
    ensures n > 0
  {
    match t
    case One(_) => 1
    case Fork(left, right) => Size(left) + Size(right)
  }

  function ShapeOf<T>(xs: seq<T>): (t: Shape<T>)
    requires |xs| > 0
    ensures Size(t) == |xs|
    decreases |xs|
  {
    if |xs| == 1 then One(xs[0])
    else
      var k := SplitPoint(|xs|);
      Fork(ShapeOf(xs[..k]), ShapeOf(xs[k..]))
  }

  /** Every fork divides its leaves at the split point. */
  ghost predicate Split<T>(t: Shape<T>) {
    t.Fork? ==> Size(t.left) == SplitPoint(Size(t)) && Split(t.left) && Split(t.right)
  }

  function Flatten<T>(t: Shape<T>): (xs: seq<T>)
    ensures |xs| == Size(t)
  {
    match t
    case One(x) => [x]
    case Fork(left, right) => Flatten(left) + Flatten(right)
  }

  lemma {:induction false} FlattenShape<T>(xs: seq<T>)
    requires |xs| > 0
    ensures Flatten(ShapeOf(xs)) == xs
    decreases |xs|
  {
    if |xs| > 1 {
      var k := SplitPoint(|xs|);
      var l, r := xs[..k], xs[k..];
      FlattenShape(l);
      FlattenShape(r);
      TakeDrop(xs, k);
    }
  }

  lemma {:induction false} ShapeSplits<T>(xs: seq<T>)
    requires |xs| > 0
    ensures Split(ShapeOf(xs))
    decreases |xs|
  {
    if |xs| > 1 {
      ShapeSplits(xs[..SplitPoint(|xs|)]);
      ShapeSplits(xs[SplitPoint(|xs|)..]);
    }
  }

  /** The shape of the first m leaves, obtained without rebalancing anything. */
  function Prefix<T>(t: Shape<T>, m: nat): Shape<T>
    requires 0 < m <= Size(t)
  {
    if m == Size(t) then t
    else if m <= Size(t.left) then Prefix(t.left, m)
    else Fork(t.left, Prefix(t.right, m - Size(t.left)))
  }

  lemma {:induction false} PrefixFlattens<T>(t: Shape<T>, m: nat)
    requires 0 < m <= Size(t)
    ensures Flatten(Prefix(t, m)) == Flatten(t)[..m]
  {
    if m < Size(t) {
      var l, r := Flatten(t.left), Flatten(t.right);
      TakeConcat(l, r, m);
      if m <= |l| {
        PrefixFlattens(t.left, m);
      } else {
        PrefixFlattens(t.right, m - |l|);
      }
    }
  }

  lemma {:induction false} PrefixSplits<T>(t: Shape<T>, m: nat)
    requires 0 < m <= Size(t) && Split(t)
    ensures Split(Prefix(t, m)) && Size(Prefix(t, m)) == m
  {
    if m < Size(t) {
      if m <= Size(t.left) {
        PrefixSplits(t.left, m);
      } else {
        PrefixSplits(t.right, m - Size(t.left));
        SplitOfPrefix(m, Size(t));
      }
    }
  }

  /** A list has exactly one split shape. */
  lemma {:induction false} ShapeUnique<T>(t: Shape<T>)
    requires Split(t)
    ensures ShapeOf(Flatten(t)) == t
  {
    if t.Fork? {
      ShapeUnique(t.left);
      ShapeUnique(t.right);
      var xs, k := Flatten(t), SplitPoint(Size(t));
      assert xs[..k] == Flatten(t.left) && xs[k..] == Flatten(t.right);
    }
  }

  lemma PrefixOfShape<T>(xs: seq<T>, m: nat)
    requires 0 < m <= |xs|
    ensures Prefix(ShapeOf(xs), m) == ShapeOf(xs[..m])
  {
    FlattenShape(xs);
    ShapeSplits(xs);
    PrefixFlattens(ShapeOf(xs), m);
    PrefixSplits(ShapeOf(xs), m);
    ShapeUnique(Prefix(ShapeOf(xs), m));
  }

  // ---------- roots ----------

  function ShapeRoot(sha: Sha, t: Shape<Digest>): Digest {
    match t
    case One(h) => h
    case Fork(left, right) => HashChildren(sha, ShapeRoot(sha, left), ShapeRoot(sha, right))
  }

  /** MTH of section 2.1 of RFC 6962, over leaf hashes. */
  function Root(sha: Sha, leaves: seq<Digest>): Digest {
    if leaves == [] then EmptyTreeHash(sha) else ShapeRoot(sha, ShapeOf(leaves))
  }

  /** Every input hashed above the leaves while computing the root. */
  function NodeInputs(sha: Sha, t: Shape<Digest>): set<Input> {
    match t
    case One(_) => {}
    case Fork(left, right) =>
      {NodeInput(ShapeRoot(sha, left), ShapeRoot(sha, right))} + NodeInputs(sha, left) + NodeInputs(sha, right)
  }

  function LeafHashes(sha: Sha, logs: seq<Bytes>): (hs: seq<Digest>)
    ensures |hs| == |logs|
    ensures forall i :: 0 <= i < |logs| ==> hs[i] == HashLeaf(sha, logs[i])
  {
    seq(|logs|, i requires 0 <= i < |logs| => HashLeaf(sha, logs[i]))
  }

  /** The root of the tree over raw logs. */
  function RootOfLogs(sha: Sha, logs: seq<Bytes>): Digest {
    Root(sha, LeafHashes(sha, logs))
  }

  /** The same root, computed from the shape of the log list. */
  function LogRoot(sha: Sha, t: Shape<Bytes>): Digest
    decreases t, 1
  {
    sha(TopInput(sha, t))
  }

  /** The input whose digest is the root. */
  function TopInput(sha: Sha, t: Shape<Bytes>): Input
    decreases t, 0
  {
    match t
    case One(log) => LeafInput(log)
    case Fork(left, right) => NodeInput(LogRoot(sha, left), LogRoot(sha, right))
  }

  function HashShape(sha: Sha, t: Shape<Bytes>): (d: Shape<Digest>)
    ensures Size(d) == Size(t)
  {
    match t
    case One(log) => One(HashLeaf(sha, log))
    case Fork(left, right) => Fork(HashShape(sha, left), HashShape(sha, right))
  }

  lemma {:induction false} HashShapeRoot(sha: Sha, t: Shape<Bytes>)
    ensures ShapeRoot(sha, HashShape(sha, t)) == LogRoot(sha, t)
    ensures Split(t) ==> Split(HashShape(sha, t))
  {
    if t.Fork? {
      HashShapeRoot(sha, t.left);
      HashShapeRoot(sha, t.right);
    }
  }

  lemma {:induction false} HashShapeLeaves(sha: Sha, t: Shape<Bytes>)
    ensures Flatten(HashShape(sha, t)) == LeafHashes(sha, Flatten(t))
  {
    if t.Fork? {
      var l, r := Flatten(t.left), Flatten(t.right);
      HashShapeLeaves(sha, t.left);
      HashShapeLeaves(sha, t.right);
      assert LeafHashes(sha, l) + LeafHashes(sha, r) == LeafHashes(sha, l + r);
    }
  }

  lemma LogShape(sha: Sha, logs: seq<Bytes>)
    requires logs != []
    ensures ShapeOf(LeafHashes(sha, logs)) == HashShape(sha, ShapeOf(logs))
    ensures RootOfLogs(sha, logs) == LogRoot(sha, ShapeOf(logs))
  {
    FlattenShape(logs);
    ShapeSplits(logs);
    HashShapeRoot(sha, ShapeOf(logs));
    HashShapeLeaves(sha, ShapeOf(logs));
    ShapeUnique(HashShape(sha, ShapeOf(logs)));
  }

  /** Every input hashed while computing the root over a shape of raw logs. */
  function LogInputs(sha: Sha, t: Shape<Bytes>): (xs: set<Input>)
    ensures TopInput(sha, t) in xs
  {
    match t
    case One(_) => {TopInput(sha, t)}
    case Fork(left, right) => {TopInput(sha, t)} + LogInputs(sha, left) + LogInputs(sha, right)
  }

  /** Every input hashed while computing `RootOfLogs`. */
  function TreeInputs(sha: Sha, logs: seq<Bytes>): set<Input> {
    if logs == [] then {EmptyInput} else LogInputs(sha, ShapeOf(logs))
  }

  // ---------- the tree value ----------

  datatype TreeNode =
    | Leaf(hash: Digest, index: nat)
    | Internal(hash: Digest, size: nat, left: TreeNode, right: TreeNode)

  function BuildSubtree(sha: Sha, leaves: seq<Digest>, offset: nat): (t: TreeNode)
    requires |leaves| > 0
    decreases |leaves|
  {
    if |leaves| == 1 then Leaf(leaves[0], offset)
    else
      var k := LargestPowerOfTwoLessThan(|leaves|);
      var left := BuildSubtree(sha, leaves[..k], offset);
      var right := BuildSubtree(sha, leaves[k..], offset + k);
      Internal(HashChildren(sha, left.hash, right.hash), |leaves|, left, right)
  }

  /** The stored tree has the shape of the list and carries the RFC hash and size at every node. */
  ghost predicate Annotates(sha: Sha, node: TreeNode, t: Shape<Digest>) {
    && node.hash == ShapeRoot(sha, t)
    && match (node, t)
       case (Leaf(_, _), One(_)) => true
       case (Internal(_, size, l, r), Fork(tl, tr)) => size == Size(t) && Annotates(sha, l, tl) && Annotates(sha, r, tr)
       case _ => false
  }

  function Leaves(node: TreeNode): nat {
    match node
    case Leaf(_, _) => 1
    case Internal(_, _, l, r) => Leaves(l) + Leaves(r)
  }

  /** The leaves carry consecutive indexes from `offset` on. */
  predicate Numbered(node: TreeNode, offset: nat) {
    match node
    case Leaf(_, index) => index == offset
    case Internal(_, _, l, r) => Numbered(l, offset) && Numbered(r, offset + Leaves(l))
  }

  lemma ForkNumbered(hash: Digest, size: nat, left: TreeNode, right: TreeNode, offset: nat)
    requires Numbered(left, offset) && Numbered(right, offset + Leaves(left))
    ensures var node := Internal(hash, size, left, right);
            Numbered(node, offset) && Leaves(node) == Leaves(left) + Leaves(right)
  {}

  lemma BuildUnfolds(sha: Sha, leaves: seq<Digest>, offset: nat)
    requires |leaves| > 1
    ensures var k := SplitPoint(|leaves|);
            var left, right := BuildSubtree(sha, leaves[..k], offset), BuildSubtree(sha, leaves[k..], offset + k);
            BuildSubtree(sha, leaves, offset) == Internal(HashChildren(sha, left.hash, right.hash), |leaves|, left, right)
  {}

  lemma {:induction false} BuildSubtreeNumbers(sha: Sha, leaves: seq<Digest>, offset: nat)
    requires |leaves| > 0
    ensures var node := BuildSubtree(sha, leaves, offset); Numbered(node, offset) && Leaves(node) == |leaves|
    decreases |leaves|
  {
    if |leaves| > 1 {
      var k := SplitPoint(|leaves|);
      var left := BuildSubtree(sha, leaves[..k], offset);
      var right := BuildSubtree(sha, leaves[k..], offset + k);
      BuildUnfolds(sha, leaves, offset);
      BuildSubtreeNumbers(sha, leaves[..k], offset);
      BuildSubtreeNumbers(sha, leaves[k..], offset + k);
      ForkNumbered(HashChildren(sha, left.hash, right.hash), |leaves|, left, right, offset);
    }
  }

  lemma {:induction false} BuildSubtreeAnnotates(sha: Sha, leaves: seq<Digest>, offset: nat)
    requires |leaves| > 0
    ensures Annotates(sha, BuildSubtree(sha, leaves, offset), ShapeOf(leaves))
    decreases |leaves|
  {
    if |leaves| > 1 {
      var k := SplitPoint(|leaves|);
      BuildSubtreeAnnotates(sha, leaves[..k], offset);
      BuildSubtreeAnnotates(sha, leaves[k..], offset + k);
    }
  }

  datatype MerkleTree = MerkleTree(leafHashes: seq<Digest>, root: Digest, rootNode: Option<TreeNode>)

  datatype MerkleError =
    | IndexOutOfBounds(index: nat, size: nat)
    | EmptyTree
    | InvalidConsistencySize(prevSize: nat, size: nat)

  function FromLeafHashes(sha: Sha, leaves: seq<Digest>): (t: MerkleTree)
    ensures t.leafHashes == leaves
    ensures t.root == Root(sha, leaves)
  {
    if leaves == [] then MerkleTree([], EmptyTreeHash(sha), None)
    else
      BuildSubtreeAnnotates(sha, leaves, 0);
      var node := BuildSubtree(sha, leaves, 0);
      MerkleTree(leaves, node.hash, Some(node))
  }

  // ---------- audit paths ----------

  datatype Side = Left | Right

  /** A sibling digest and the side it stands on. */
  datatype Step = Step(sibling: Digest, side: Side)

  type AuditPath = seq<Step>

  /** PATH(m, D[n]) of section 2.1.1 of RFC 6962, listed from the leaf upwards. */
  function PathTo(sha: Sha, t: Shape<Digest>, index: nat): AuditPath
    requires index < Size(t)
  {
    match t
    case One(_) => []
    case Fork(left, right) =>
      if index < Size(left) then PathTo(sha, left, index) + [Step(ShapeRoot(sha, right), Right)]
      else PathTo(sha, right, index - Size(left)) + [Step(ShapeRoot(sha, left), Left)]
  }

  /** Walks the stored tree and pushes siblings; what it pushes is the RFC path. */
  method CollectAuditPath(sha: Sha, ghost t: Shape<Digest>, node: TreeNode, target: nat, path: Vec<Step>)
    requires target < Size(t) && Split(t) && Annotates(sha, node, t)
    modifies path
    ensures path.items == old(path.items) + PathTo(sha, t, target)
  {
    match node
    case Leaf(_, _) =>
    case Internal(_, size, left, right) =>
      var k := LargestPowerOfTwoLessThan(size);
      if target < k {
        CollectAuditPath(sha, t.left, left, target, path);
        path.Push(Step(right.hash, Right));
      } else {
        CollectAuditPath(sha, t.right, right, target - k, path);
        path.Push(Step(left.hash, Left));
      }
  }

  datatype InclusionProof = InclusionProof(leafIndex: nat, treeSize: nat, auditPath: AuditPath)

  method GenerateInclusionProof(sha: Sha, tree: MerkleTree, index: nat) returns (r: Result<InclusionProof, MerkleError>)
    requires tree == FromLeafHashes(sha, tree.leafHashes)
    ensures match r
            case Success(p) => index < |tree.leafHashes|
                               && p == InclusionProof(index, |tree.leafHashes|, PathTo(sha, ShapeOf(tree.leafHashes), index))
            case Failure(e) => index >= |tree.leafHashes|
                               && e == if tree.leafHashes == [] then EmptyTree else IndexOutOfBounds(index, |tree.leafHashes|)
  {
    var size := |tree.leafHashes|;
    if size == 0 { return Failure(EmptyTree); }
    if index >= size { return Failure(IndexOutOfBounds(index, size)); }
    var path := new Vec<Step>([]);
    if tree.rootNode.Some? {
      BuildSubtreeAnnotates(sha, tree.leafHashes, 0);
      ShapeSplits(tree.leafHashes);
      CollectAuditPath(sha, ShapeOf(tree.leafHashes), tree.rootNode.value, index, path);
    }
    return Success(InclusionProof(index, size, path.items));
  }

  /** One step up: combine the digest below with the sibling. */
  function StepInput(below: Digest, step: Step): Input {
    match step.side
    case Right => NodeInput(below, step.sibling)
    case Left => NodeInput(step.sibling, below)
  }

  /** The digest a path leads to from `start`. */
  function FoldPath(sha: Sha, start: Digest, path: AuditPath): Digest {
    if path == [] then start
    else sha(StepInput(FoldPath(sha, start, Init(path)), Last(path)))
  }

  /** Acceptance by the inclusion verifier: only the range of the index is looked at. */
  predicate AcceptsInclusion(sha: Sha, leafHash: Digest, index: nat, size: nat, path: AuditPath, root: Digest) {
    index < size && (size == 1 ==> path == []) && FoldPath(sha, leafHash, path) == root
  }

  method VerifyInclusionByHash(sha: Sha, leafHash: Digest, index: nat, size: nat, path: AuditPath, root: Digest)
    returns (ok: bool)
    ensures ok == AcceptsInclusion(sha, leafHash, index, size, path, root)
    ensures index >= size ==> !ok
    ensures size == 1 ==> (ok <==> index == 0 && path == [] && leafHash == root)
    ensures index < size && size > 1 ==> (ok <==> FoldPath(sha, leafHash, path) == root)
  {
    if size == 0 || index >= size { return false; }
    if size == 1 { return path == [] && index == 0 && leafHash == root; }
    var current := leafHash;
    for i := 0 to |path|
      invariant current == FoldPath(sha, leafHash, path[..i])
    {
      assert path[..i + 1][..i] == path[..i];
      current := match path[i].side
      case Right => HashChildren(sha, current, path[i].sibling)
      case Left => HashChildren(sha, path[i].sibling, current);
    }
    assert path[..|path|] == path;
    return current == root;
  }

  // ---------- consistency proofs ----------

  /** SUBPROOF(m, D[n], b) of section 2.1.2 of RFC 6962. */
  function Subproof(sha: Sha, m: nat, t: Shape<Digest>, b: bool): seq<Digest>
    requires 0 < m <= Size(t)
  {
    if m == Size(t) then (if b then [] else [ShapeRoot(sha, t)])
    else if m <= Size(t.left) then Subproof(sha, m, t.left, b) + [ShapeRoot(sha, t.right)]
    else Subproof(sha, m - Size(t.left), t.right, false) + [ShapeRoot(sha, t.left)]
  }

  function ConsistencyProof(sha: Sha, tree: MerkleTree, prevSize: nat): Result<seq<Digest>, MerkleError> {
    var size := |tree.leafHashes|;
    if prevSize == 0 || prevSize > size then Failure(InvalidConsistencySize(prevSize, size))
    else if prevSize == size then Success([])
    else Success(Subproof(sha, prevSize, ShapeOf(tree.leafHashes), true))
  }

  /** What `verify_subproof_full` computes on the sizes of a shape: both roots and the unused proof. */
  function FullRun<T>(sha: Sha, m: nat, t: Shape<T>, proof: seq<Digest>): Option<(Digest, Digest, seq<Digest>)>
    requires 0 < m <= Size(t)
    decreases t
  {
    if proof == [] then None
    else
      var top, rest := Last(proof), Init(proof);
      if m == Size(t) then Some((top, top, rest))
      else if m <= Size(t.left) then
        match FullRun(sha, m, t.left, rest)
        case None => None
        case Some((subM, subK, rest')) => Some((subM, HashChildren(sha, subK, top), rest'))
      else
        match FullRun(sha, m - Size(t.left), t.right, rest)
        case None => None
        case Some((subM, subN, rest')) =>
          Some((HashChildren(sha, top, subM), HashChildren(sha, top, subN), rest'))
  }

  /** What `verify_consistency_internal` computes. */
  function InternalRun<T>(sha: Sha, m: nat, t: Shape<T>, proof: seq<Digest>, prev: Digest): Option<(Digest, seq<Digest>)>
    requires 0 < m <= Size(t)
    decreases t
  {
    if m == Size(t) then Some((prev, proof))
    else if proof == [] then None
    else
      var top, rest := Last(proof), Init(proof);
      if m <= Size(t.left) then
        match InternalRun(sha, m, t.left, rest, prev)
        case None => None
        case Some((left, rest')) => Some((HashChildren(sha, left, top), rest'))
      else
        match FullRun(sha, m - Size(t.left), t.right, rest)
        case None => None
        case Some((subM, subN, rest')) =>
          if HashChildren(sha, top, subM) != prev then None
          else Some((HashChildren(sha, top, subN), rest'))
  }

  /** The inputs hashed by `verify_subproof_full`. */
  function FullInputs<T>(sha: Sha, m: nat, t: Shape<T>, proof: seq<Digest>): set<Input>
    requires 0 < m <= Size(t)
    decreases t
  {
    if proof == [] || m == Size(t) then {}
    else
      var top, rest := Last(proof), Init(proof);
      if m <= Size(t.left) then
        FullInputs(sha, m, t.left, rest)
        + match FullRun(sha, m, t.left, rest)
          case None => {}
          case Some((_, subK, _)) => {NodeInput(subK, top)}
      else
        FullInputs(sha, m - Size(t.left), t.right, rest)
        + match FullRun(sha, m - Size(t.left), t.right, rest)
          case None => {}
          case Some((subM, subN, _)) => {NodeInput(top, subM), NodeInput(top, subN)}
  }

  /** The inputs hashed by `verify_consistency_internal`. */
  function InternalInputs<T>(sha: Sha, m: nat, t: Shape<T>, proof: seq<Digest>, prev: Digest): set<Input>
    requires 0 < m <= Size(t)
    decreases t
  {
    if proof == [] || m == Size(t) then {}
    else
      var top, rest := Last(proof), Init(proof);
      if m <= Size(t.left) then
        InternalInputs(sha, m, t.left, rest, prev)
        + match InternalRun(sha, m, t.left, rest, prev)
          case None => {}
          case Some((left, _)) => {NodeInput(left, top)}
      else
        FullInputs(sha, m - Size(t.left), t.right, rest)
        + match FullRun(sha, m - Size(t.left), t.right, rest)
          case None => {}
          case Some((subM, subN, _)) =>
            {NodeInput(top, subM)}
            + if HashChildren(sha, top, subM) == prev then {NodeInput(top, subN)} else {}
  }

  /** The verifier knows only sizes: any list of n elements gives it the same shape to follow. */
  function Positions(n: nat): seq<nat> {
    seq(n, i => i)
  }

  predicate AcceptsConsistency(sha: Sha, m: nat, n: nat, prev: Digest, curr: Digest, proof: seq<Digest>) {
    0 < m <= n &&
    if m == n then proof == [] && prev == curr
    else InternalRun(sha, m, ShapeOf(Positions(n)), proof, prev) == Some((curr, []))
  }

  method VerifySubproofFull(sha: Sha, m: nat, n: nat, proof: Vec<Digest>, ghost t: Shape<nat>)
    returns (r: Option<(Digest, Digest)>)
    requires 0 < m <= n == Size(t) && Split(t)
    modifies proof
    ensures match FullRun(sha, m, t, old(proof.items))
            case None => r.None?
            case Some((subM, subN, rest)) => r == Some((subM, subN)) && proof.items == rest
    decreases n
  {
    var top := proof.Pop();
    if top.None? { return None; }
    if m == n { return Some((top.value, top.value)); }
    var k := LargestPowerOfTwoLessThan(n);
    if m <= k {
      var sub := VerifySubproofFull(sha, m, k, proof, t.left);
      if sub.None? { return None; }
      return Some((sub.value.0, HashChildren(sha, sub.value.1, top.value)));
    } else {
      var sub := VerifySubproofFull(sha, m - k, n - k, proof, t.right);
      if sub.None? { return None; }
      return Some((HashChildren(sha, top.value, sub.value.0), HashChildren(sha, top.value, sub.value.1)));
    }
  }

  method VerifyConsistencyInternal(sha: Sha, m: nat, n: nat, proof: Vec<Digest>, prev: Digest, ghost t: Shape<nat>)
    returns (r: Option<Digest>)
    requires 0 < m <= n == Size(t) && Split(t)
    modifies proof
    ensures match InternalRun(sha, m, t, old(proof.items), prev)
            case None => r.None?
            case Some((root, rest)) => r == Some(root) && proof.items == rest
    decreases n
  {
    if m == n { return Some(prev); }
    var k := LargestPowerOfTwoLessThan(n);
    var top := proof.Pop();
    if top.None? { return None; }
    if m <= k {
      var left := VerifyConsistencyInternal(sha, m, k, proof, prev, t.left);
      if left.None? { return None; }
      return Some(HashChildren(sha, left.value, top.value));
    } else {
      var sub := VerifySubproofFull(sha, m - k, n - k, proof, t.right);
      if sub.None? { return None; }
      if HashChildren(sha, top.value, sub.value.0) != prev { return None; }
      return Some(HashChildren(sha, top.value, sub.value.1));
    }
  }

  method VerifyConsistencyProof(sha: Sha, prevSize: nat, currSize: nat, prevRoot: Digest, currRoot: Digest,
                                proof: seq<Digest>)
    returns (ok: bool)
    ensures ok == AcceptsConsistency(sha, prevSize, currSize, prevRoot, currRoot, proof)
    ensures prevSize == 0 || prevSize > currSize ==> !ok
    ensures 0 < prevSize == currSize ==> (ok <==> proof == [] && prevRoot == currRoot)
  {
    if prevSize == 0 || prevSize > currSize { return false; }
    if prevSize == currSize { return proof == [] && prevRoot == currRoot; }
    var stack := new Vec<Digest>(proof);
    ShapeSplits(Positions(currSize));
    var r := VerifyConsistencyInternal(sha, prevSize, currSize, stack, prevRoot, ShapeOf(Positions(currSize)));
    return r.Some? && stack.items == [] && r.value == currRoot;
  }
}
