/** The prefix tree as an index: where an insertion files a cluster, and where a lookup ends. */
module DrainTree {
  import opened Collections
  import opened Drain

  /** An insertion adds its id to one leaf and changes no other. */
  lemma {:induction false} IdsAfterInsert(node: Node, prefix: seq<string>, id: nat, maxChildren: nat, path: seq<string>)
    ensures IdsAt(Insert(node, prefix, id, maxChildren), path)
            == IdsAt(node, path) + if path == InsertPath(node, prefix, maxChildren) then [id] else []
    decreases |prefix|
  {
    if prefix != [] {
      var key := InsertKey(node, prefix[0], maxChildren);
      if path != [] {
        IdsAfterInsert(ChildOr(node, key), prefix[1..], id, maxChildren, path[1..]);
        assert path == [path[0]] + path[1..];
        if key !in node.children { IdsOfLeaf(path[1..]); }
      }
    }
  }

  lemma IdsOfLeaf(path: seq<string>)
    ensures IdsAt(LEAF, path) == []
  {}

  // ---------- width ----------

  /** At most maxChildren literal children, so with `*` at most maxChildren + 1. */
  ghost predicate Narrow(node: Node, maxChildren: nat) {
    |node.children.Keys - {STAR}| <= maxChildren
  }

  ghost predicate AllNarrow(node: Node, maxChildren: nat) {
    forall path :: NodeAt(node, path).Some? ==> Narrow(NodeAt(node, path).value, maxChildren)
  }

  lemma NarrowBound(node: Node, maxChildren: nat)
    requires Narrow(node, maxChildren)
    ensures |node.children| <= maxChildren + 1
  {
    var keys := node.children.Keys;
    assert |keys| == |node.children|;
    if STAR in keys { assert keys == (keys - {STAR}) + {STAR}; } else { assert keys == keys - {STAR}; }
  }

  lemma ChildNarrow(node: Node, key: string, maxChildren: nat)
    requires AllNarrow(node, maxChildren)
    ensures AllNarrow(ChildOr(node, key), maxChildren)
  {
    forall path | NodeAt(ChildOr(node, key), path).Some?
      ensures Narrow(NodeAt(ChildOr(node, key), path).value, maxChildren)
    {
      if key in node.children {
        assert ([key] + path)[0] == key && ([key] + path)[1..] == path;
        assert NodeAt(node, [key] + path) == NodeAt(ChildOr(node, key), path);
      } else {
        assert path == [];
      }
    }
  }

  lemma InsertKeyNarrow(node: Node, token: string, child: Node, maxChildren: nat)
    requires Narrow(node, maxChildren)
    ensures var key := InsertKey(node, token, maxChildren);
            Narrow(node.(children := node.children[key := child]), maxChildren)
  {
    var key := InsertKey(node, token, maxChildren);
    var keys, keys' := node.children.Keys, node.children[key := child].Keys;
    assert keys' == keys + {key};
    if key == STAR {
      assert keys' - {STAR} == keys - {STAR};
    } else {
      assert |keys| < maxChildren by { assert |keys| == |node.children|; }
      SubsetSize(keys' - {STAR}, keys + {key});
    }
  }

  lemma SubsetSize<T>(a: set<T>, b: set<T>)
    requires a <= b
    ensures |a| <= |b|
  {
    assert b == a + (b - a);
  }

  lemma {:induction false} InsertNarrow(node: Node, prefix: seq<string>, id: nat, maxChildren: nat)
    requires AllNarrow(node, maxChildren)
    ensures AllNarrow(Insert(node, prefix, id, maxChildren), maxChildren)
    decreases |prefix|
  {
    var node' := Insert(node, prefix, id, maxChildren);
    assert NodeAt(node, []) == Some(node);
    if prefix == [] {
      forall path | NodeAt(node', path).Some? ensures Narrow(NodeAt(node', path).value, maxChildren) {
        assert path != [] ==> NodeAt(node', path) == NodeAt(node, path);
      }
    } else {
      var key := InsertKey(node, prefix[0], maxChildren);
      var child := Insert(ChildOr(node, key), prefix[1..], id, maxChildren);
      ChildNarrow(node, key, maxChildren);
      InsertNarrow(ChildOr(node, key), prefix[1..], id, maxChildren);
      InsertKeyNarrow(node, prefix[0], child, maxChildren);
      forall path | NodeAt(node', path).Some? ensures Narrow(NodeAt(node', path).value, maxChildren) {
        if path != [] {
          if path[0] == key { assert NodeAt(node', path) == NodeAt(child, path[1..]); }
          else { assert NodeAt(node', path) == NodeAt(node, path); }
        }
      }
    }
  }

  // ---------- lookups and insertions part ways ----------

  /** Some level on the insertion path is saturated although it already holds the literal token: the
  insertion goes to `*` there, the lookup to the literal child. */
  predicate Diverges(node: Node, prefix: seq<string>, maxChildren: nat)
    decreases |prefix|
  {
    prefix != [] &&
    var token := prefix[0];
    var key := InsertKey(node, token, maxChildren);
    || (|node.children| >= maxChildren && !HasDigitOrParam(token) && token != STAR && token in node.children)
    || Diverges(ChildOr(node, key), prefix[1..], maxChildren)
  }

  lemma {:induction false} EmptyNeverDiverges(prefix: seq<string>, maxChildren: nat)
    ensures !Diverges(LEAF, prefix, maxChildren)
    decreases |prefix|
  {
    if prefix != [] { EmptyNeverDiverges(prefix[1..], maxChildren); }
  }

  /** After an insertion the lookup for the same tokens ends in the new leaf, unless they part ways. */
  lemma {:induction false} LookupAfterInsert(node: Node, prefix: seq<string>, id: nat, maxChildren: nat)
    ensures LookupPath(Insert(node, prefix, id, maxChildren), prefix) == Some(InsertPath(node, prefix, maxChildren))
            <==> !Diverges(node, prefix, maxChildren)
    decreases |prefix|
  {
    if prefix != [] {
      var key := InsertKey(node, prefix[0], maxChildren);
      var node', child := Insert(node, prefix, id, maxChildren), ChildOr(node, key);
      LookupAfterInsert(child, prefix[1..], id, maxChildren);
      var rest := InsertPath(child, prefix[1..], maxChildren);
      assert ([key] + rest)[0] == key && ([key] + rest)[1..] == rest;
      assert node'.children == node.children[key := Insert(child, prefix[1..], id, maxChildren)];
      if Descend(node', prefix[0]) == Some(key) {
        SameTail(key, LookupPath(ChildOr(node', key), prefix[1..]), rest);
      }
    }
  }

  lemma SameTail(key: string, found: Option<seq<string>>, rest: seq<string>)
    ensures found.Some? ==> ([key] + found.value == [key] + rest <==> found.value == rest)
  {
    if found.Some? {
      assert ([key] + found.value)[1..] == found.value && ([key] + rest)[1..] == rest;
    }
  }

  /** A leaf that an insertion finds already there is the leaf the lookup had just visited. */
  lemma {:induction false} LookupBeforeInsert(node: Node, prefix: seq<string>, maxChildren: nat)
    requires !Diverges(node, prefix, maxChildren)
    requires NodeAt(node, InsertPath(node, prefix, maxChildren)).Some?
    ensures LookupPath(node, prefix) == Some(InsertPath(node, prefix, maxChildren))
    decreases |prefix|
  {
    if prefix != [] {
      var key := InsertKey(node, prefix[0], maxChildren);
      var rest := InsertPath(ChildOr(node, key), prefix[1..], maxChildren);
      assert ([key] + rest)[0] == key && ([key] + rest)[1..] == rest;
      LookupBeforeInsert(ChildOr(node, key), prefix[1..], maxChildren);
    }
  }
}
