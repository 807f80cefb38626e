/** What the Merkle verifiers of the integrity crate guarantee, in both directions.

Completeness: every generated proof is accepted. Soundness: an accepted proof forces the claim it
makes, and forces the proof itself to be the one the generator would have built, unless two
different inputs, one hashed for the honest tree and one hashed by the verifier, collide. */
module MerkleProofs {
  import opened Hashing
  import opened Collections
  import opened Merkle

  // ---------- the verifier sees only sizes ----------

  ghost predicate SameShape<T, U>(t: Shape<T>, u: Shape<U>) {
    match (t, u)
    case (One(_), One(_)) => true
    case (Fork(l, r), Fork(l', r')) => SameShape(l, l') && SameShape(r, r')
    case _ => false
  }

  lemma {:induction false} SplitShapesAgree<T, U>(t: Shape<T>, u: Shape<U>)
    requires Split(t) && Split(u) && Size(t) == Size(u)
    ensures SameShape(t, u)
  {
    if t.Fork? && u.Fork? {
      SplitShapesAgree(t.left, u.left);
      SplitShapesAgree(t.right, u.right);
    }
  }

  lemma {:induction false} SameFullRun<T, U>(sha: Sha, m: nat, t: Shape<T>, u: Shape<U>, proof: seq<Digest>)
    requires 0 < m <= Size(t) == Size(u) && SameShape(t, u)
    ensures FullRun(sha, m, t, proof) == FullRun(sha, m, u, proof)
  {
    if m < Size(t) && proof != [] {
      SameSize(t.left, u.left);
      if m <= Size(t.left) { SameFullRun(sha, m, t.left, u.left, Init(proof)); }
      else { SameFullRun(sha, m - Size(t.left), t.right, u.right, Init(proof)); }
    }
  }

  lemma SameSize<T, U>(t: Shape<T>, u: Shape<U>)
    requires SameShape(t, u)
    ensures Size(t) == Size(u)
  {}

  lemma {:induction false} SameInternalRun<T, U>(sha: Sha, m: nat, t: Shape<T>, u: Shape<U>, proof: seq<Digest>,
                                                 prev: Digest)
    requires 0 < m <= Size(t) == Size(u) && SameShape(t, u)
    ensures InternalRun(sha, m, t, proof, prev) == InternalRun(sha, m, u, proof, prev)
  {
    if m < Size(t) && proof != [] {
      SameSize(t.left, u.left);
      if m <= Size(t.left) { SameInternalRun(sha, m, t.left, u.left, Init(proof), prev); }
      else { SameFullRun(sha, m - Size(t.left), t.right, u.right, Init(proof)); }
    }
  }

  /** Acceptance, stated on the shape of the list it is about. */
  lemma AcceptsOnShape(sha: Sha, m: nat, leaves: seq<Digest>, prev: Digest, proof: seq<Digest>)
    requires 0 < m < |leaves|
    ensures AcceptsConsistency(sha, m, |leaves|, prev, Root(sha, leaves), proof)
            <==> InternalRun(sha, m, ShapeOf(leaves), proof, prev) == Some((Root(sha, leaves), []))
  {
    var t, u := ShapeOf(leaves), ShapeOf(Positions(|leaves|));
    ShapeSplits(leaves);
    ShapeSplits(Positions(|leaves|));
    SplitShapesAgree(t, u);
    SameInternalRun(sha, m, t, u, proof, prev);
  }

  // ---------- consistency proofs are accepted ----------

  lemma {:induction false} FullRunComplete(sha: Sha, m: nat, t: Shape<Digest>, rest: seq<Digest>)
    requires 0 < m <= Size(t)
    ensures FullRun(sha, m, t, rest + Subproof(sha, m, t, false))
            == Some((ShapeRoot(sha, Prefix(t, m)), ShapeRoot(sha, t), rest))
  {
    var proof := rest + Subproof(sha, m, t, false);
    if m == Size(t) {
      assert Init(proof) == rest;
    } else if m <= Size(t.left) {
      assert Init(proof) == rest + Subproof(sha, m, t.left, false);
      FullRunComplete(sha, m, t.left, rest);
    } else {
      var k := Size(t.left);
      assert Init(proof) == rest + Subproof(sha, m - k, t.right, false);
      FullRunComplete(sha, m - k, t.right, rest);
    }
  }

  lemma {:induction false} InternalRunComplete(sha: Sha, m: nat, t: Shape<Digest>, rest: seq<Digest>)
    requires 0 < m <= Size(t)
    ensures InternalRun(sha, m, t, rest + Subproof(sha, m, t, true), ShapeRoot(sha, Prefix(t, m)))
            == Some((ShapeRoot(sha, t), rest))
  {
    var proof := rest + Subproof(sha, m, t, true);
    if m == Size(t) {
      assert proof == rest;
    } else if m <= Size(t.left) {
      assert Init(proof) == rest + Subproof(sha, m, t.left, true);
      InternalRunComplete(sha, m, t.left, rest);
    } else {
      var k := Size(t.left);
      assert Init(proof) == rest + Subproof(sha, m - k, t.right, false);
      FullRunComplete(sha, m - k, t.right, rest);
    }
  }

  /** Every consistency proof the tree hands out is accepted, with its stack exactly emptied. */
  lemma ConsistencyComplete(sha: Sha, leaves: seq<Digest>, m: nat)
    ensures var r := ConsistencyProof(sha, FromLeafHashes(sha, leaves), m);
            if 0 < m <= |leaves|
            then r.Success? && AcceptsConsistency(sha, m, |leaves|, Root(sha, leaves[..m]), Root(sha, leaves), r.value)
            else r == Failure(InvalidConsistencySize(m, |leaves|))
  {
    if 0 < m <= |leaves| {
      var t := ShapeOf(leaves);
      PrefixOfShape(leaves, m);
      InternalRunComplete(sha, m, t, []);
      assert [] + Subproof(sha, m, t, true) == Subproof(sha, m, t, true);
      if m < |leaves| { AcceptsOnShape(sha, m, leaves, Root(sha, leaves[..m]), Subproof(sha, m, t, true)); }
    }
  }

  // ---------- accepted consistency proofs are true ----------

  lemma Unpop<T>(proof: seq<T>, rest: seq<T>, sub: seq<T>)
    requires proof != []
    ensures Init(proof) == rest + sub ==> proof == rest + (sub + [Last(proof)])
  {}

  lemma {:induction false} FullRunSound(sha: Sha, m: nat, t: Shape<Digest>, proof: seq<Digest>, subM: Digest,
                                        rest: seq<Digest>)
    requires 0 < m <= Size(t)
    requires FullRun(sha, m, t, proof) == Some((subM, ShapeRoot(sha, t), rest))
    ensures || (subM == ShapeRoot(sha, Prefix(t, m)) && proof == rest + Subproof(sha, m, t, false))
            || Collide(sha, NodeInputs(sha, t), FullInputs(sha, m, t, proof))
  {
    if m == Size(t) {
      Unpop(proof, rest, []);
    } else {
      var xs, ys := NodeInputs(sha, t), FullInputs(sha, m, t, proof);
      var l, r, k := t.left, t.right, Size(t.left);
      if m <= k {
        var Some((a, b, _)) := FullRun(sha, m, l, Init(proof));
        NodeHashesAgree(sha, ShapeRoot(sha, l), ShapeRoot(sha, r), b, Last(proof), xs, ys);
        if b == ShapeRoot(sha, l) && Last(proof) == ShapeRoot(sha, r) {
          FullRunSound(sha, m, l, Init(proof), a, rest);
          CollideWiden(sha, NodeInputs(sha, l), FullInputs(sha, m, l, Init(proof)), xs, ys);
          Unpop(proof, rest, Subproof(sha, m, l, false));
        }
      } else {
        var Some((a, b, _)) := FullRun(sha, m - k, r, Init(proof));
        NodeHashesAgree(sha, ShapeRoot(sha, l), ShapeRoot(sha, r), Last(proof), b, xs, ys);
        if Last(proof) == ShapeRoot(sha, l) && b == ShapeRoot(sha, r) {
          FullRunSound(sha, m - k, r, Init(proof), a, rest);
          CollideWiden(sha, NodeInputs(sha, r), FullInputs(sha, m - k, r, Init(proof)), xs, ys);
          Unpop(proof, rest, Subproof(sha, m - k, r, false));
        }
      }
    }
  }

  lemma {:induction false} InternalRunSound(sha: Sha, m: nat, t: Shape<Digest>, proof: seq<Digest>, prev: Digest,
                                            rest: seq<Digest>)
    requires 0 < m <= Size(t)
    requires InternalRun(sha, m, t, proof, prev) == Some((ShapeRoot(sha, t), rest))
    ensures || (prev == ShapeRoot(sha, Prefix(t, m)) && proof == rest + Subproof(sha, m, t, true))
            || Collide(sha, NodeInputs(sha, t), InternalInputs(sha, m, t, proof, prev))
  {
    if m < Size(t) {
      var xs, ys := NodeInputs(sha, t), InternalInputs(sha, m, t, proof, prev);
      var l, r, k := t.left, t.right, Size(t.left);
      if m <= k {
        var Some((a, _)) := InternalRun(sha, m, l, Init(proof), prev);
        NodeHashesAgree(sha, ShapeRoot(sha, l), ShapeRoot(sha, r), a, Last(proof), xs, ys);
        if a == ShapeRoot(sha, l) && Last(proof) == ShapeRoot(sha, r) {
          InternalRunSound(sha, m, l, Init(proof), prev, rest);
          CollideWiden(sha, NodeInputs(sha, l), InternalInputs(sha, m, l, Init(proof), prev), xs, ys);
          Unpop(proof, rest, Subproof(sha, m, l, true));
        }
      } else {
        var Some((a, b, _)) := FullRun(sha, m - k, r, Init(proof));
        NodeHashesAgree(sha, ShapeRoot(sha, l), ShapeRoot(sha, r), Last(proof), b, xs, ys);
        if Last(proof) == ShapeRoot(sha, l) && b == ShapeRoot(sha, r) {
          FullRunSound(sha, m - k, r, Init(proof), a, rest);
          CollideWiden(sha, NodeInputs(sha, r), FullInputs(sha, m - k, r, Init(proof)), xs, ys);
          Unpop(proof, rest, Subproof(sha, m - k, r, false));
        }
      }
    }
  }

  /** An accepted consistency proof against the root of `leaves` pins down the earlier root and the
  whole proof: the earlier tree is the prefix, and the proof is the one the generator builds. */
  lemma ConsistencySound(sha: Sha, leaves: seq<Digest>, m: nat, prev: Digest, proof: seq<Digest>)
    requires AcceptsConsistency(sha, m, |leaves|, prev, Root(sha, leaves), proof)
    ensures || (prev == Root(sha, leaves[..m])
                && ConsistencyProof(sha, FromLeafHashes(sha, leaves), m) == Success(proof))
            || Collide(sha, NodeInputs(sha, ShapeOf(leaves)), InternalInputs(sha, m, ShapeOf(leaves), proof, prev))
  {
    if m == |leaves| {
      assert leaves[..m] == leaves;
    } else {
      var t := ShapeOf(leaves);
      AcceptsOnShape(sha, m, leaves, prev, proof);
      InternalRunSound(sha, m, t, proof, prev, []);
      PrefixOfShape(leaves, m);
      assert [] + Subproof(sha, m, t, true) == Subproof(sha, m, t, true);
    }
  }

  // ---------- audit paths are accepted ----------

  lemma FoldPush(sha: Sha, start: Digest, path: AuditPath, step: Step)
    ensures FoldPath(sha, start, path + [step]) == sha(StepInput(FoldPath(sha, start, path), step))
  {
    assert Init(path + [step]) == path;
  }

  lemma FoldLeft(sha: Sha, t: Shape<Digest>, i: nat)
    requires t.Fork? && i < Size(t.left)
    requires FoldPath(sha, Flatten(t.left)[i], PathTo(sha, t.left, i)) == ShapeRoot(sha, t.left)
    ensures FoldPath(sha, Flatten(t)[i], PathTo(sha, t, i)) == ShapeRoot(sha, t)
  {
    ConcatAt(Flatten(t.left), Flatten(t.right), i);
    FoldPush(sha, Flatten(t.left)[i], PathTo(sha, t.left, i), Step(ShapeRoot(sha, t.right), Right));
  }

  lemma FoldRight(sha: Sha, t: Shape<Digest>, i: nat, j: nat)
    requires t.Fork? && i < Size(t.right) && j == Size(t.left) + i
    requires FoldPath(sha, Flatten(t.right)[i], PathTo(sha, t.right, i)) == ShapeRoot(sha, t.right)
    ensures FoldPath(sha, Flatten(t)[j], PathTo(sha, t, j)) == ShapeRoot(sha, t)
  {
    ConcatAt(Flatten(t.left), Flatten(t.right), j);
    FoldPush(sha, Flatten(t.right)[i], PathTo(sha, t.right, i), Step(ShapeRoot(sha, t.left), Left));
  }

  lemma {:induction false} PathFolds(sha: Sha, t: Shape<Digest>, i: nat)
    requires i < Size(t)
    ensures FoldPath(sha, Flatten(t)[i], PathTo(sha, t, i)) == ShapeRoot(sha, t)
  {
    if t.Fork? {
      if i < Size(t.left) {
        PathFolds(sha, t.left, i);
        FoldLeft(sha, t, i);
      } else {
        PathFolds(sha, t.right, i - Size(t.left));
        FoldRight(sha, t, i - Size(t.left), i);
      }
    }
  }

  /** Every generated audit path is accepted for its leaf. */
  lemma InclusionComplete(sha: Sha, leaves: seq<Digest>, i: nat)
    requires i < |leaves|
    ensures AcceptsInclusion(sha, leaves[i], i, |leaves|, PathTo(sha, ShapeOf(leaves), i), Root(sha, leaves))
  {
    FlattenShape(leaves);
    PathFolds(sha, ShapeOf(leaves), i);
  }

  lemma {:induction false} SplitPointHalves(n: nat, d: nat)
    requires 1 < n <= Pow2(d)
    ensures d > 0 && SplitPoint(n) <= Pow2(d - 1)
  {
    if n > 2 { SplitPointHalves((n + 1) / 2, d - 1); }
  }

  lemma {:induction false} PathLengthBound(sha: Sha, t: Shape<Digest>, i: nat, d: nat)
    requires i < Size(t) <= Pow2(d) && Split(t)
    ensures |PathTo(sha, t, i)| <= d
  {
    if t.Fork? {
      SplitPointHalves(Size(t), d);
      if i < Size(t.left) { PathLengthBound(sha, t.left, i, d - 1); }
      else { PathLengthBound(sha, t.right, i - Size(t.left), d - 1); }
    }
  }

  /** An audit path has at most ceil(log2 n) steps: one step fewer could not span n leaves. */
  lemma PathLengthIsLogarithmic(sha: Sha, leaves: seq<Digest>, i: nat)
    requires i < |leaves|
    ensures var len := |PathTo(sha, ShapeOf(leaves), i)|; len > 0 ==> Pow2(len - 1) < |leaves|
  {
    var len := |PathTo(sha, ShapeOf(leaves), i)|;
    ShapeSplits(leaves);
    if len > 0 && |leaves| <= Pow2(len - 1) { PathLengthBound(sha, ShapeOf(leaves), i, len - 1); }
  }

  // ---------- accepted audit paths are true ----------

  /** The subtree that the sides of a path lead to, from the top down. */
  function SubtreeAt<T>(t: Shape<T>, path: AuditPath): Option<Shape<T>> {
    if path == [] then Some(t)
    else if t.One? then None
    else SubtreeAt(if Last(path).side.Right? then t.left else t.right, Init(path))
  }

  /** The index of the first leaf of that subtree. */
  function StartAt<T>(t: Shape<T>, path: AuditPath): (i: nat)
    requires SubtreeAt(t, path).Some?
    ensures i + Size(SubtreeAt(t, path).value) <= Size(t)
  {
    if path == [] then 0
    else if Last(path).side.Right? then StartAt(t.left, Init(path))
    else Size(t.left) + StartAt(t.right, Init(path))
  }

  /** The inputs the inclusion verifier hashes on its way up. */
  function FoldInputs(sha: Sha, start: Digest, path: AuditPath): set<Input> {
    if path == [] then {}
    else FoldInputs(sha, start, Init(path)) + {StepInput(FoldPath(sha, start, Init(path)), Last(path))}
  }

  /** A path that folds to the honest root starts from the root of the subtree its sides lead to. */
  lemma {:induction false} FoldSound(sha: Sha, t: Shape<Bytes>, start: Digest, path: AuditPath)
    requires FoldPath(sha, start, path) == LogRoot(sha, t)
    ensures || (SubtreeAt(t, path).Some? && start == LogRoot(sha, SubtreeAt(t, path).value))
            || Collide(sha, LogInputs(sha, t), FoldInputs(sha, start, path))
  {
    if path != [] {
      var xs, ys := LogInputs(sha, t), FoldInputs(sha, start, path);
      var x, y := TopInput(sha, t), StepInput(FoldPath(sha, start, Init(path)), Last(path));
      assert x in xs && y in ys;
      if x == y {
        var sub := if Last(path).side.Right? then t.left else t.right;
        FoldSound(sha, sub, start, Init(path));
        CollideWiden(sha, LogInputs(sha, sub), FoldInputs(sha, start, Init(path)), xs, ys);
      }
    }
  }

  lemma {:induction false} SubtreeInputs(sha: Sha, t: Shape<Bytes>, path: AuditPath)
    requires SubtreeAt(t, path).Some?
    ensures LogInputs(sha, SubtreeAt(t, path).value) <= LogInputs(sha, t)
  {
    if path != [] {
      SubtreeInputs(sha, if Last(path).side.Right? then t.left else t.right, Init(path));
    }
  }

  lemma {:induction false} LeafAtStart<T>(t: Shape<T>, path: AuditPath)
    requires SubtreeAt(t, path).Some? && SubtreeAt(t, path).value.One?
    ensures Flatten(t)[StartAt(t, path)] == SubtreeAt(t, path).value.x
  {
    if path != [] {
      if Last(path).side.Right? {
        LeafAtStart(t.left, Init(path));
      } else {
        LeafAtStart(t.right, Init(path));
      }
    }
  }

  /** Position p of the list is where the sides of the path lead, all the way down to a leaf. */
  predicate SidesLeadTo(logs: seq<Bytes>, path: AuditPath, p: nat) {
    LeadsToLeaf(logs, path) && StartAt(ShapeOf(logs), path) == p
  }

  predicate LeadsToLeaf(logs: seq<Bytes>, path: AuditPath) {
    logs != [] && SubtreeAt(ShapeOf(logs), path).Some? && SubtreeAt(ShapeOf(logs), path).value.One?
  }

  /** The inputs the verifier hashes for a raw log. */
  function ProofInputs(sha: Sha, log: Bytes, path: AuditPath): set<Input> {
    FoldInputs(sha, HashLeaf(sha, log), path) + {LeafInput(log)}
  }

  /** Whatever the verifier is given, what it hashes last is never the empty input. */
  lemma FoldsFromInput(sha: Sha, log: Bytes, path: AuditPath)
    ensures exists x :: x in ProofInputs(sha, log, path) && x != EmptyInput
                        && sha(x) == FoldPath(sha, HashLeaf(sha, log), path)
  {
    var x := if path == [] then LeafInput(log) else StepInput(FoldPath(sha, HashLeaf(sha, log), Init(path)), Last(path));
    assert x in ProofInputs(sha, log, path) && sha(x) == FoldPath(sha, HashLeaf(sha, log), path);
  }

  /** An accepted raw-log proof puts the log into the tree, at the position its sides spell out. The
  stated index and tree size play no part in the conclusion. */
  lemma InclusionSound(sha: Sha, logs: seq<Bytes>, log: Bytes, index: nat, size: nat, path: AuditPath)
    requires AcceptsInclusion(sha, HashLeaf(sha, log), index, size, path, RootOfLogs(sha, logs))
    ensures || (exists p :: 0 <= p < |logs| && SidesLeadTo(logs, path, p) && logs[p] == log)
            || Collide(sha, TreeInputs(sha, logs), ProofInputs(sha, log, path))
  {
    if logs == [] {
      FoldsFromInput(sha, log, path);
      assert EmptyInput in TreeInputs(sha, logs);
    } else {
      InclusionInTree(sha, logs, log, path);
    }
  }

  lemma InclusionInTree(sha: Sha, logs: seq<Bytes>, log: Bytes, path: AuditPath)
    requires logs != [] && FoldPath(sha, HashLeaf(sha, log), path) == RootOfLogs(sha, logs)
    ensures || (exists p :: 0 <= p < |logs| && SidesLeadTo(logs, path, p) && logs[p] == log)
            || Collide(sha, TreeInputs(sha, logs), ProofInputs(sha, log, path))
  {
    var start, t := HashLeaf(sha, log), ShapeOf(logs);
    var xs, ys := TreeInputs(sha, logs), ProofInputs(sha, log, path);
    LogShape(sha, logs);
    FoldSound(sha, t, start, path);
    CollideWiden(sha, xs, FoldInputs(sha, start, path), xs, ys);
    if !Collide(sha, xs, ys) {
      var sub, p := SubtreeAt(t, path).value, StartAt(t, path);
      SubtreeInputs(sha, t, path);
      assert TopInput(sha, sub) in xs && LeafInput(log) in ys;
      assert sub == One(log);
      FlattenShape(logs);
      LeafAtStart(t, path);
    }
  }

  /** The stated index of an accepted proof holds the log exactly when it holds the same log as the
  position the sides spell out, which the verifier never compares with it. When no log is repeated
  that means it is that position. */
  lemma StatedIndexRight(sha: Sha, logs: seq<Bytes>, log: Bytes, index: nat, size: nat, path: AuditPath)
    requires AcceptsInclusion(sha, HashLeaf(sha, log), index, size, path, RootOfLogs(sha, logs))
    ensures || (Holds(logs, index, log) <==> LeadsToLeaf(logs, path) && Holds(logs, index, logs[StartAt(ShapeOf(logs), path)]))
            || Collide(sha, TreeInputs(sha, logs), ProofInputs(sha, log, path))
    ensures (forall i, j :: 0 <= i < j < |logs| ==> logs[i] != logs[j]) ==>
              || (Holds(logs, index, log) <==> SidesLeadTo(logs, path, index))
              || Collide(sha, TreeInputs(sha, logs), ProofInputs(sha, log, path))
  {
    InclusionSound(sha, logs, log, index, size, path);
  }

  predicate Holds(logs: seq<Bytes>, i: nat, log: Bytes) {
    i < |logs| && logs[i] == log
  }

  /** A relabelled proof is accepted: the path of the first of two logs, presented for the second. */
  lemma StatedIndexCanBeWrong(sha: Sha, a: Bytes, b: Bytes)
    requires a != b
    ensures var logs := [a, b];
            var path := PathTo(sha, ShapeOf(LeafHashes(sha, logs)), 0);
            AcceptsInclusion(sha, HashLeaf(sha, a), 1, 2, path, RootOfLogs(sha, logs)) && logs[1] != a
  {
    InclusionComplete(sha, LeafHashes(sha, [a, b]), 0);
  }

  /** An index outside the stated size is rejected, whatever is proved; and for sizes above one the index
  and the size decide nothing else. */
  lemma OnlyRangeMatters(sha: Sha, hash: Digest, path: AuditPath, root: Digest, index: nat, size: nat, index': nat,
                         size': nat)
    ensures index >= size ==> !AcceptsInclusion(sha, hash, index, size, path, root)
    ensures size == 1 && path != [] ==> !AcceptsInclusion(sha, hash, index, size, path, root)
    ensures index < size && size > 1 && index' < size' && size' > 1 ==>
              (AcceptsInclusion(sha, hash, index, size, path, root)
               <==> AcceptsInclusion(sha, hash, index', size', path, root))
  {}

  /** The honest proof of a leaf is accepted for exactly the indexes in range. */
  lemma HonestIndexRange(sha: Sha, leaves: seq<Digest>, i: nat, index: nat)
    requires i < |leaves|
    ensures AcceptsInclusion(sha, leaves[i], index, |leaves|, PathTo(sha, ShapeOf(leaves), i), Root(sha, leaves))
            <==> index < |leaves|
  {
    InclusionComplete(sha, leaves, i);
  }

  // ---------- the entry point that takes a hash ----------

  /** The hash is the root of the subtree the sides lead to; the empty list has only its root. */
  predicate IsNode(sha: Sha, logs: seq<Bytes>, hash: Digest, path: AuditPath) {
    if logs == [] then path == [] && hash == EmptyTreeHash(sha)
    else SubtreeAt(ShapeOf(logs), path).Some? && hash == LogRoot(sha, SubtreeAt(ShapeOf(logs), path).value)
  }

  /** A hash accepted by this entry point is the root of the subtree the sides lead to. */
  lemma HashEntrySound(sha: Sha, logs: seq<Bytes>, hash: Digest, index: nat, size: nat, path: AuditPath)
    requires AcceptsInclusion(sha, hash, index, size, path, RootOfLogs(sha, logs))
    ensures IsNode(sha, logs, hash, path) || Collide(sha, TreeInputs(sha, logs), FoldInputs(sha, hash, path))
  {
    if logs != [] {
      LogShape(sha, logs);
      FoldSound(sha, ShapeOf(logs), hash, path);
    } else if path != [] {
      var x := StepInput(FoldPath(sha, hash, Init(path)), Last(path));
      assert EmptyInput in TreeInputs(sha, logs) && x in FoldInputs(sha, hash, path);
    }
  }

  /** The siblings along the path are the honest ones. */
  predicate Honest(sha: Sha, t: Shape<Bytes>, path: AuditPath) {
    path == []
    || (t.Fork? && (if Last(path).side.Right? then Last(path).sibling == LogRoot(sha, t.right) && Honest(sha, t.left, Init(path))
                    else Last(path).sibling == LogRoot(sha, t.left) && Honest(sha, t.right, Init(path))))
  }

  lemma {:induction false} HonestFolds(sha: Sha, t: Shape<Bytes>, path: AuditPath)
    requires Honest(sha, t, path)
    ensures SubtreeAt(t, path).Some? && FoldPath(sha, LogRoot(sha, SubtreeAt(t, path).value), path) == LogRoot(sha, t)
  {
    if path != [] { HonestFolds(sha, if Last(path).side.Right? then t.left else t.right, Init(path)); }
  }

  /** Every node of the tree is accepted, with the honest siblings above it, for any index in range. */
  lemma AnyNodeAccepted(sha: Sha, logs: seq<Bytes>, index: nat, path: AuditPath)
    requires index < |logs| && Honest(sha, ShapeOf(logs), path)
    ensures SubtreeAt(ShapeOf(logs), path).Some?
    ensures AcceptsInclusion(sha, LogRoot(sha, SubtreeAt(ShapeOf(logs), path).value), index, |logs|, path, RootOfLogs(sha, logs))
  {
    LogShape(sha, logs);
    HonestFolds(sha, ShapeOf(logs), path);
  }

  lemma ShapeOfTwo(a: Bytes, b: Bytes)
    ensures ShapeOf([a, b]) == Fork(One(a), One(b))
  {
    assert SplitPoint(2) == 1 && [a, b][..1] == [a] && [a, b][1..] == [b];
  }

  lemma ShapeOfThree(a: Bytes, b: Bytes, c: Bytes)
    ensures ShapeOf([a, b, c]) == Fork(Fork(One(a), One(b)), One(c))
  {
    var logs := [a, b, c];
    ShapeOfTwo(a, b);
    assert SplitPoint(3) == 2 && logs[..2] == [a, b] && logs[2..] == [c];
  }

  /** So an inner node passes for a leaf: over three logs, the node above the first two. */
  lemma InnerNodeAccepted(sha: Sha, a: Bytes, b: Bytes, c: Bytes)
    ensures var node := HashChildren(sha, HashLeaf(sha, a), HashLeaf(sha, b));
            AcceptsInclusion(sha, node, 0, 3, [Step(HashLeaf(sha, c), Right)], RootOfLogs(sha, [a, b, c]))
  {
    var logs, path := [a, b, c], [Step(HashLeaf(sha, c), Right)];
    var t, inner := ShapeOf(logs), Fork(One(a), One(b));
    ShapeOfThree(a, b, c);
    assert Init(path) == [] && Last(path).side.Right?;
    assert LogRoot(sha, One(c)) == HashLeaf(sha, c) && Honest(sha, t, path);
    assert SubtreeAt(t, path) == SubtreeAt(inner, []) == Some(inner);
    assert LogRoot(sha, inner) == HashChildren(sha, LogRoot(sha, One(a)), LogRoot(sha, One(b)));
    AnyNodeAccepted(sha, logs, 0, path);
  }

  /** Up to a collision, an accepted hash is the leaf hash of some log exactly when the sides lead all
  the way down to a leaf: the length of the path decides, and the verifier does not look at it. */
  lemma HashEntryIsLeafIff(sha: Sha, logs: seq<Bytes>, hash: Digest, index: nat, size: nat, path: AuditPath)
    requires AcceptsInclusion(sha, hash, index, size, path, RootOfLogs(sha, logs))
    ensures || ((exists p :: 0 <= p < |logs| && hash == HashLeaf(sha, logs[p])) <==> LeadsToLeaf(logs, path))
            || Collide(sha, TreeInputs(sha, logs), TreeInputs(sha, logs) + FoldInputs(sha, hash, path))
  {
    if logs != [] {
      var xs := TreeInputs(sha, logs);
      var ys := xs + FoldInputs(sha, hash, path);
      HashEntrySound(sha, logs, hash, index, size, path);
      CollideWiden(sha, xs, FoldInputs(sha, hash, path), xs, ys);
      if !Collide(sha, xs, ys) { NodeIsLeafIff(sha, logs, hash, path, ys); }
    }
  }

  lemma NodeIsLeafIff(sha: Sha, logs: seq<Bytes>, hash: Digest, path: AuditPath, ys: set<Input>)
    requires logs != [] && IsNode(sha, logs, hash, path) && TreeInputs(sha, logs) <= ys
    ensures || ((exists p :: 0 <= p < |logs| && hash == HashLeaf(sha, logs[p])) <==> LeadsToLeaf(logs, path))
            || Collide(sha, TreeInputs(sha, logs), ys)
  {
    var t := ShapeOf(logs);
    var sub := SubtreeAt(t, path).value;
    FlattenShape(logs);
    if LeadsToLeaf(logs, path) {
      LeafAtStart(t, path);
      assert LogRoot(sha, sub) == HashLeaf(sha, sub.x);
      assert logs[StartAt(t, path)] == sub.x;
    } else if p :| 0 <= p < |logs| && hash == HashLeaf(sha, logs[p]) {
      SubtreeInputs(sha, t, path);
      LeafInputIn(sha, t, p);
      assert TopInput(sha, sub) in TreeInputs(sha, logs) && LeafInput(logs[p]) in ys;
    }
  }

  lemma {:induction false} LeafInputIn(sha: Sha, t: Shape<Bytes>, p: nat)
    requires p < Size(t)
    ensures LeafInput(Flatten(t)[p]) in LogInputs(sha, t)
  {
    if t.Fork? {
      if p < Size(t.left) { LeafInputIn(sha, t.left, p); } else { LeafInputIn(sha, t.right, p - Size(t.left)); }
    }
  }

  // ---------- the root determines the list ----------

  lemma {:induction false} LogRootInjective(sha: Sha, a: Shape<Bytes>, b: Shape<Bytes>)
    requires LogRoot(sha, a) == LogRoot(sha, b)
    ensures a == b || Collide(sha, LogInputs(sha, a), LogInputs(sha, b))
  {
    var xs, ys := LogInputs(sha, a), LogInputs(sha, b);
    var x, y := TopInput(sha, a), TopInput(sha, b);
    assert x in xs && y in ys;
    if x == y && a.Fork? {
      LogRootInjective(sha, a.left, b.left);
      LogRootInjective(sha, a.right, b.right);
      CollideWiden(sha, LogInputs(sha, a.left), LogInputs(sha, b.left), xs, ys);
      CollideWiden(sha, LogInputs(sha, a.right), LogInputs(sha, b.right), xs, ys);
    }
  }

  /** The root over raw logs is injective across all list lengths, up to a collision between the
  inputs hashed for the two trees. */
  lemma RootInjective(sha: Sha, a: seq<Bytes>, b: seq<Bytes>)
    requires RootOfLogs(sha, a) == RootOfLogs(sha, b)
    ensures a == b || Collide(sha, TreeInputs(sha, a), TreeInputs(sha, b))
  {
    if a != [] { LogShape(sha, a); FlattenShape(a); }
    if b != [] { LogShape(sha, b); FlattenShape(b); }
    if a != [] && b != [] {
      LogRootInjective(sha, ShapeOf(a), ShapeOf(b));
    } else if a != [] {
      assert TopInput(sha, ShapeOf(a)) in TreeInputs(sha, a) && EmptyInput in TreeInputs(sha, b);
    } else if b != [] {
      assert EmptyInput in TreeInputs(sha, a) && TopInput(sha, ShapeOf(b)) in TreeInputs(sha, b);
    }
  }
}
