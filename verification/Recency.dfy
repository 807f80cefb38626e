/** What an exact least-recently-used list does: keys from least to most recently used. */
module Recency {
  import opened Collections

  function Without<T(==)>(s: seq<T>, k: T): (t: seq<T>)
    ensures |t| <= |s|
  {
    if s == [] then [] else if s[0] == k then Without(s[1..], k) else [s[0]] + Without(s[1..], k)
  }

  /** A use moves the key to the recent end. */
  function Used<T(==)>(lru: seq<T>, k: T): seq<T> {
    if k in lru then Without(lru, k) + [k] else lru
  }

  /** Adding a key makes it the most recent one; a new key in a full list pushes out the oldest. */
  function Added<T(==)>(lru: seq<T>, k: T, capacity: nat): seq<T> {
    if k in lru then Without(lru, k) + [k]
    else if |lru| >= capacity && lru != [] then lru[1..] + [k]
    else lru + [k]
  }

  ghost predicate Distinct<T(!new)>(s: seq<T>) {
    forall i, j :: 0 <= i < j < |s| ==> s[i] != s[j]
  }

  ghost predicate SameKeys<T(!new)>(a: seq<T>, b: seq<T>) {
    forall k :: k in a <==> k in b
  }

  lemma {:induction false} WithoutMembers<T(!new)>(s: seq<T>, k: T)
    ensures forall x :: x in Without(s, k) <==> x in s && x != k
  {
    if s != [] {
      WithoutMembers(s[1..], k);
      assert s == [s[0]] + s[1..];
    }
  }

  lemma {:induction false} DistinctSize<T(!new)>(s: seq<T>)
    requires Distinct(s)
    ensures |set k | k in s| == |s|
  {
    if s != [] {
      DistinctSize(Init(s));
      assert (set k | k in s) == (set k | k in Init(s)) + {Last(s)};
      assert Last(s) !in Init(s);
    }
  }

  /** Lists of the same keys without repetition are equally long. */
  lemma SameKeysSize<T(!new)>(a: seq<T>, b: seq<T>)
    requires Distinct(a) && Distinct(b) && SameKeys(a, b)
    ensures |a| == |b|
  {
    DistinctSize(a);
    DistinctSize(b);
    assert (set k | k in a) == (set k | k in b);
  }

  lemma PrependDistinct<T(!new)>(x: T, s: seq<T>)
    requires Distinct(s) && x !in s
    ensures Distinct([x] + s)
  {}

  lemma {:induction false} WithoutDistinct<T(!new)>(s: seq<T>, k: T)
    requires Distinct(s)
    ensures Distinct(Without(s, k))
  {
    if s != [] {
      WithoutDistinct(s[1..], k);
      WithoutMembers(s[1..], k);
      if s[0] != k { PrependDistinct(s[0], Without(s[1..], k)); }
    }
  }

  lemma PushDistinct<T(!new)>(s: seq<T>, k: T)
    requires Distinct(s) && k !in s
    ensures Distinct(s + [k])
  {}

  /** Uses and additions keep the list free of repetition. */
  lemma StaysDistinct<T(!new)>(lru: seq<T>, k: T, capacity: nat)
    requires Distinct(lru)
    ensures Distinct(Used(lru, k)) && Distinct(Added(lru, k, capacity))
  {
    WithoutMembers(lru, k);
    WithoutDistinct(lru, k);
    PushDistinct(Without(lru, k), k);
    if k !in lru {
      PushDistinct(lru, k);
      if lru != [] { PushDistinct(lru[1..], k); }
    }
  }

  lemma MoveKeepsKeys<T(!new)>(s: seq<T>, k: T)
    requires k in s
    ensures SameKeys(Without(s, k) + [k], s)
  {
    WithoutMembers(s, k);
  }

  lemma PushKeys<T(!new)>(a: seq<T>, b: seq<T>, k: T)
    requires SameKeys(a, b)
    ensures SameKeys(a + [k], b + [k])
  {}

  lemma TailKeys<T(!new)>(s: seq<T>, x: T)
    requires Distinct(s) && s != []
    ensures x in s[1..] <==> x in s && x != s[0]
  {
    assert s == [s[0]] + s[1..];
  }

  /** Dropping the heads of two lists of the same keys and adding one new key leaves the same keys exactly
  when the heads were equal. */
  lemma ReplaceHeadIff<T(!new)>(a: seq<T>, b: seq<T>, k: T)
    requires Distinct(a) && Distinct(b) && SameKeys(a, b) && a != [] && b != [] && k !in a
    ensures SameKeys(a[1..] + [k], b[1..] + [k]) <==> a[0] == b[0]
  {
    forall x ensures x in a[1..] <==> x in a && x != a[0] { TailKeys(a, x); }
    forall x ensures x in b[1..] <==> x in b && x != b[0] { TailKeys(b, x); }
    if a[0] != b[0] {
      assert a[0] in b && a[0] in b[1..] + [k];
      assert a[0] !in a[1..] + [k];
    }
  }

  lemma {:induction false} WithoutLast<T>(s: seq<T>, k: T)
    requires k !in s
    ensures Without(s + [k], k) == s
  {
    if s == [] {
      assert s + [k] == [k] && [k][1..] == [];
    } else {
      WithoutLast(s[1..], k);
      assert (s + [k])[1..] == s[1..] + [k];
      assert s == [s[0]] + s[1..];
    }
  }

  /** Moving a key to the recent end changes nothing exactly when it is there already. */
  lemma MovesIff<T(!new)>(s: seq<T>, k: T)
    requires Distinct(s) && k in s
    ensures Without(s, k) + [k] == s <==> k == Last(s)
  {
    if k == Last(s) {
      assert s == Init(s) + [k];
      assert k !in Init(s) by { assert forall i :: 0 <= i < |s| - 1 ==> Init(s)[i] == s[i] && s[i] != s[|s| - 1]; }
      WithoutLast(Init(s), k);
    }
    if Without(s, k) + [k] == s { assert Last(Without(s, k) + [k]) == k; }
  }

  /** A use puts the key at the recent end and leaves the others in their order. */
  lemma UsedMovesToEnd<T(!new)>(lru: seq<T>, k: T)
    requires k in lru && Distinct(lru)
    ensures var u := Used(lru, k); u != [] && Last(u) == k && Without(u, k) == Without(lru, k) && SameKeys(u, lru)
  {
    WithoutMembers(lru, k);
    WithoutLast(Without(lru, k), k);
  }

  /** Adding puts the key at the recent end. The others keep their order, less the oldest when a new key
  meets a full list. */
  lemma AddedAtEnd<T(!new)>(lru: seq<T>, k: T, capacity: nat)
    requires Distinct(lru)
    ensures var a := Added(lru, k, capacity); var full := k !in lru && |lru| >= capacity && lru != [];
            a != [] && Last(a) == k && Without(a, k) == if full then lru[1..] else Without(lru, k)
  {
    if k in lru {
      WithoutMembers(lru, k);
      WithoutLast(Without(lru, k), k);
    } else {
      WithoutAbsent(lru, k);
      WithoutLast(if |lru| >= capacity && lru != [] then lru[1..] else lru, k);
    }
  }

  lemma {:induction false} WithoutAbsent<T>(s: seq<T>, k: T)
    requires k !in s
    ensures Without(s, k) == s
  {
    if s != [] {
      WithoutAbsent(s[1..], k);
      assert s == [s[0]] + s[1..];
    }
  }
}
