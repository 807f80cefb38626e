/** Small shared containers. */
module Collections {

  datatype Option<+T> = None | Some(value: T)

  datatype Result<+T, +E> = Success(value: T) | Failure(error: E)

  function Last<T>(s: seq<T>): T
    requires s != []
  {
    s[|s| - 1]
  }

  function Init<T>(s: seq<T>): seq<T>
    requires s != []
  {
    s[..|s| - 1]
  }

  lemma TakeDrop<T>(s: seq<T>, k: nat)
    requires k <= |s|
    ensures s[..k] + s[k..] == s
  {}

  lemma TakeConcat<T>(l: seq<T>, r: seq<T>, m: nat)
    requires m <= |l| + |r|
    ensures (l + r)[..m] == if m <= |l| then l[..m] else l + r[..m - |l|]
  {}

  lemma ConcatAt<T>(l: seq<T>, r: seq<T>, i: nat)
    requires i < |l| + |r|
    ensures (l + r)[i] == if i < |l| then l[i] else r[i - |l|]
  {}

  /** The modulus of 64-bit counters. */
  const U64: nat := 0x1_0000_0000_0000_0000

  function One(b: bool): nat {
    if b then 1 else 0
  }

  /** How the size of a set changes when only one element may have come or gone. */
  lemma SizeAround<T>(s: set<T>, s': set<T>, t: T)
    requires s - {t} == s' - {t}
    ensures |s'| == |s| - One(t in s) + One(t in s')
  {
    assert t in s ==> s == (s - {t}) + {t};
    assert t !in s ==> s == s - {t};
    assert t in s' ==> s' == (s' - {t}) + {t};
    assert t !in s' ==> s' == s' - {t};
  }

  /** A growable list passed around by reference and changed in place. */
  class Vec<T> {
    var items: seq<T>

    constructor (items: seq<T>)
      ensures this.items == items
    {
      this.items := items;
    }

    method Push(x: T)
      modifies this
      ensures items == old(items) + [x]
    {
      items := items + [x];
    }

    method Pop() returns (r: Option<T>)
      modifies this
      ensures old(items) == [] ==> r == None && items == []
      ensures old(items) != [] ==> r == Some(old(items)[|old(items)| - 1]) && items == old(items)[..|old(items)| - 1]
    {
      if items == [] { return None; }
      r := Some(items[|items| - 1]);
      items := items[..|items| - 1];
    }
  }
}
