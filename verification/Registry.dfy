/** The dynamic parser registry: use stamps from a clock, least-recently-used eviction, and scans in
key order. Matching a line against a parser is a parameter. */
module Registry {
  import opened Collections
  import opened Recency

  datatype Parser = Parser(vendor: string, model: string, pattern: string)
  datatype Entry = Entry(parser: Parser, lastUse: nat)
  datatype Registry = Registry(parsers: map<string, Entry>, clock: nat, capacity: nat)

  /** What a parser makes of a line; `None` when it does not match or its pattern does not compile. */
  type Matcher = (Parser, string) -> Option<string>

  // ---------- key order ----------

  predicate LexLe(a: string, b: string) {
    a == [] || (b != [] && (a[0] < b[0] || (a[0] == b[0] && LexLe(a[1..], b[1..]))))
  }

  lemma {:induction false} LexTotal(a: string, b: string)
    ensures LexLe(a, b) || LexLe(b, a)
    ensures LexLe(a, b) && LexLe(b, a) ==> a == b
  {
    if a != [] && b != [] {
      LexTotal(a[1..], b[1..]);
      if a[0] == b[0] { assert a == [a[0]] + a[1..] && b == [b[0]] + b[1..]; }
    }
  }

  lemma {:induction false} LexTrans(a: string, b: string, c: string)
    requires LexLe(a, b) && LexLe(b, c)
    ensures LexLe(a, c)
  {
    if a != [] && a[0] == b[0] == c[0] { LexTrans(a[1..], b[1..], c[1..]); }
  }

  /** The order is the dictionary's: a prefix comes first, and otherwise the first difference decides. */
  lemma {:induction false} LexIsDictionary(a: string, b: string)
    ensures LexLe(a, b)
            <==> a <= b || exists i :: 0 <= i < |a| && i < |b| && a[..i] == b[..i] && a[i] < b[i]
  {
    if a != [] && b != [] {
      LexIsDictionary(a[1..], b[1..]);
      if a[0] == b[0] {
        assert a == [a[0]] + a[1..] && b == [b[0]] + b[1..];
        TailDiffers(a, b);
      } else if a[0] < b[0] {
        assert a[..0] == b[..0];
      } else {
        assert forall i :: 0 < i < |a| && i < |b| ==> a[..i][0] == a[0] && b[..i][0] == b[0];
      }
    }
  }

  lemma TailDiffers(a: string, b: string)
    requires a != [] && b != [] && a[0] == b[0]
    ensures (exists i :: 0 <= i < |a| && i < |b| && a[..i] == b[..i] && a[i] < b[i])
            <==> exists i :: 0 <= i < |a[1..]| && i < |b[1..]| && a[1..][..i] == b[1..][..i] && a[1..][i] < b[1..][i]
  {
    if i :| 0 <= i < |a| && i < |b| && a[..i] == b[..i] && a[i] < b[i] {
      assert a[1..][..i - 1] == a[..i][1..] && b[1..][..i - 1] == b[..i][1..];
      assert a[1..][i - 1] < b[1..][i - 1];
    }
    if i :| 0 <= i < |a[1..]| && i < |b[1..]| && a[1..][..i] == b[1..][..i] && a[1..][i] < b[1..][i] {
      assert a[..i + 1] == [a[0]] + a[1..][..i] && b[..i + 1] == [b[0]] + b[1..][..i];
      assert a[i + 1] < b[i + 1];
    }
  }

  ghost predicate IsLeast(k: string, keys: set<string>) {
    k in keys && forall j :: j in keys ==> LexLe(k, j)
  }

  lemma {:induction false} LeastExists(keys: set<string>)
    requires keys != {}
    ensures exists k :: IsLeast(k, keys)
  {
    var x :| x in keys;
    var rest := keys - {x};
    LexTotal(x, x);
    if rest == {} {
      assert keys == {x};
      assert IsLeast(x, keys);
    } else {
      LeastExists(rest);
      var k :| IsLeast(k, rest);
      LexTotal(x, k);
      var least := if LexLe(x, k) then x else k;
      forall j | j in keys ensures LexLe(least, j) {
        if j != x && least == x { LexTrans(x, k, j); }
      }
      assert IsLeast(least, keys);
    }
  }

  // ---------- operations ----------

  function Tick(r: Registry): Registry {
    r.(clock := r.clock + 1)
  }

  /** The eviction victim: smallest (last use, key). */
  ghost predicate IsVictim(r: Registry, k: string) {
    && k in r.parsers
    && forall j :: j in r.parsers ==>
         || r.parsers[k].lastUse < r.parsers[j].lastUse
         || (r.parsers[k].lastUse == r.parsers[j].lastUse && LexLe(k, j))
  }

  predicate MustEvict(r: Registry, key: string) {
    key !in r.parsers && |r.parsers| >= r.capacity && |r.parsers| > 0
  }

  function Inserted(r: Registry, key: string, parser: Parser): Registry {
    r.(parsers := r.parsers[key := Entry(parser, r.clock)])
  }

  function Evicted(r: Registry, victim: string): Registry {
    r.(parsers := r.parsers - {victim})
  }

  /** Where a parser is filed: its vendor in lower case, a colon, and its device model. */
  function KeyOf(lower: string -> string, parser: Parser): string {
    lower(parser.vendor) + ":" + parser.model
  }

  /** `register`, given the victim when one is needed. */
  function Registered(r: Registry, key: string, parser: Parser, victim: string): Registry {
    var r' := Tick(r);
    Inserted(if MustEvict(r', key) then Evicted(r', victim) else r', key, parser)
  }

  function Touch(r: Registry, key: string): Registry {
    if key in r.parsers then r.(parsers := r.parsers[key := r.parsers[key].(lastUse := r.clock)]) else r
  }

  predicate MatchesLine(m: Matcher, r: Registry, key: string, raw: string) {
    key in r.parsers && m(r.parsers[key].parser, raw).Some?
  }

  /** The keys whose parser matches the line. */
  function Matching(m: Matcher, r: Registry, raw: string): set<string> {
    set k | k in r.parsers && MatchesLine(m, r, k, raw)
  }

  // ---------- the registry refines a list ordered by use ----------

  /** `lru` lists the keys from least to most recently used: the stamps increase along it, so they
  are pairwise distinct, and none is ahead of the clock. */
  ghost predicate Refines(r: Registry, lru: seq<string>) {
    && Ordered(r.parsers, lru)
    && (forall k :: k in r.parsers ==> k in lru)
    && forall k :: k in r.parsers ==> r.parsers[k].lastUse <= r.clock
  }

  /** Distinct keys of the map, by increasing stamp. */
  ghost predicate Ordered(parsers: map<string, Entry>, lru: seq<string>) {
    && (forall k :: k in lru ==> k in parsers)
    && forall i, j :: 0 <= i < j < |lru| ==> parsers[lru[i]].lastUse < parsers[lru[j]].lastUse
  }

  lemma HeadIsOldest(parsers: map<string, Entry>, s: seq<string>, x: string)
    requires Ordered(parsers, s) && s != [] && x in s[1..]
    ensures parsers[s[0]].lastUse < parsers[x].lastUse
  {
    var i :| 0 <= i < |s[1..]| && s[1..][i] == x;
    assert s[i + 1] == x;
  }

  lemma PrependOldest(parsers: map<string, Entry>, x: string, w: seq<string>)
    requires Ordered(parsers, w) && x in parsers
    requires forall y :: y in w ==> parsers[x].lastUse < parsers[y].lastUse
    ensures Ordered(parsers, [x] + w)
  {
    var s := [x] + w;
    forall i, j | 0 <= i < j < |s| ensures parsers[s[i]].lastUse < parsers[s[j]].lastUse {
      assert s[j] == w[j - 1];
      if i > 0 { assert s[i] == w[i - 1]; }
    }
  }

  lemma {:induction false} WithoutOrdered(parsers: map<string, Entry>, s: seq<string>, k: string)
    requires Ordered(parsers, s)
    ensures Ordered(parsers, Without(s, k))
  {
    if s != [] {
      var w := Without(s[1..], k);
      WithoutOrdered(parsers, s[1..], k);
      WithoutMembers(s[1..], k);
      if s[0] != k {
        forall y | y in w ensures parsers[s[0]].lastUse < parsers[y].lastUse { HeadIsOldest(parsers, s, y); }
        PrependOldest(parsers, s[0], w);
      }
    }
  }

  /** Putting a key with a fresh stamp at the end of a list of the other keys. */
  lemma PushFresh(r: Registry, rest: seq<string>, key: string, entry: Entry)
    requires Ordered(r.parsers, rest) && key !in rest
    requires (forall k :: k in rest ==> r.parsers[k].lastUse < entry.lastUse) && entry.lastUse <= r.clock
    requires forall k :: k in r.parsers && k != key ==> k in rest && r.parsers[k].lastUse <= r.clock
    ensures Refines(r.(parsers := r.parsers[key := entry]), rest + [key])
  {
    var r', lru := r.(parsers := r.parsers[key := entry]), rest + [key];
    forall i, j | 0 <= i < j < |lru| ensures r'.parsers[lru[i]].lastUse < r'.parsers[lru[j]].lastUse {
      assert lru[i] == rest[i] && lru[i] in rest;
      if j < |rest| { assert lru[j] == rest[j]; }
    }
  }

  lemma MoveToEnd(r: Registry, lru: seq<string>, key: string, entry: Entry)
    requires Refines(r, lru) && entry.lastUse == r.clock + 1
    ensures Refines(Tick(r).(parsers := r.parsers[key := entry]), Without(lru, key) + [key])
  {
    WithoutMembers(lru, key);
    WithoutOrdered(r.parsers, lru, key);
    PushFresh(Tick(r), Without(lru, key), key, entry);
  }

  /** Using a key moves it to the end of the list. */
  lemma TouchRefines(r: Registry, lru: seq<string>, key: string)
    requires Refines(r, lru)
    ensures Refines(Touch(Tick(r), key), Used(lru, key))
  {
    if key in r.parsers {
      var entry := r.parsers[key].(lastUse := r.clock + 1);
      assert Touch(Tick(r), key) == Tick(r).(parsers := r.parsers[key := entry]);
      MoveToEnd(r, lru, key, entry);
    } else {
      TickRefines(r, lru);
    }
  }

  lemma TickRefines(r: Registry, lru: seq<string>)
    requires Refines(r, lru)
    ensures Refines(Tick(r), lru)
  {}

  /** The victim is the head of the list: exactly the least recently used key. */
  lemma VictimIsHead(r: Registry, lru: seq<string>, k: string)
    requires Refines(r, lru) && lru != []
    ensures IsVictim(r, k) <==> k == lru[0]
  {
    assert lru[0] in lru;
    forall j | j in r.parsers && j != lru[0] ensures r.parsers[lru[0]].lastUse < r.parsers[j].lastUse {
      var i :| 0 <= i < |lru| && lru[i] == j;
    }
    LexTotal(lru[0], lru[0]);
  }

  lemma SizeOfList(r: Registry, lru: seq<string>)
    requires Refines(r, lru)
    ensures |r.parsers| == |lru|
  {
    var keys := set k | k in lru;
    assert r.parsers.Keys == keys;
    DistinctSize(lru);
  }

  lemma TailOrdered(parsers: map<string, Entry>, lru: seq<string>)
    requires Ordered(parsers, lru) && lru != []
    ensures Ordered(parsers - {lru[0]}, lru[1..])
    ensures forall k :: k in lru && k != lru[0] ==> k in lru[1..]
  {
    var rest := lru[1..];
    forall x | x in rest ensures x in parsers && x != lru[0] { HeadIsOldest(parsers, lru, x); }
    forall i, j | 0 <= i < j < |rest| ensures parsers[rest[i]].lastUse < parsers[rest[j]].lastUse {
      assert rest[i] == lru[i + 1] && rest[j] == lru[j + 1];
    }
    assert lru == [lru[0]] + rest;
  }

  lemma DropHead(r: Registry, lru: seq<string>, key: string, entry: Entry)
    requires Refines(r, lru) && lru != [] && key !in lru && entry.lastUse == r.clock
    requires forall k :: k in r.parsers ==> r.parsers[k].lastUse < r.clock
    ensures Refines(r.(parsers := (r.parsers - {lru[0]})[key := entry]), lru[1..] + [key])
  {
    TailOrdered(r.parsers, lru);
    var e, rest := Evicted(r, lru[0]), lru[1..];
    forall x | x in rest ensures e.parsers[x].lastUse < entry.lastUse && x in lru {}
    PushFresh(e, rest, key, entry);
  }

  /** Registering adds the key as the most recently used; at capacity it pushes out the head. */
  lemma RegisterRefines(r: Registry, lru: seq<string>, key: string, parser: Parser, victim: string)
    requires Refines(r, lru) && (MustEvict(r, key) ==> IsVictim(r, victim))
    ensures Refines(Registered(r, key, parser, victim), Added(lru, key, r.capacity))
  {
    SizeOfList(r, lru);
    var t, entry := Tick(r), Entry(parser, r.clock + 1);
    if key in lru {
      MoveToEnd(r, lru, key, entry);
    } else if MustEvict(r, key) {
      VictimIsHead(r, lru, victim);
      DropHead(t, lru, key, entry);
    } else {
      PushFresh(t, lru, key, entry);
    }
  }

  // ---------- every run ----------

  datatype Op =
    | OpRegister(key: string, parser: Parser, victim: string)
    | OpUse(key: string)
    | OpScan(winner: Option<string>)

  /** A register evicts a victim of that state; a scan touches its winner only. */
  ghost predicate Enabled(r: Registry, op: Op) {
    match op
    case OpRegister(key, _, victim) => MustEvict(r, key) ==> IsVictim(r, victim)
    case _ => true
  }

  function Step(r: Registry, op: Op): Registry {
    match op
    case OpRegister(key, parser, victim) => Registered(r, key, parser, victim)
    case OpUse(key) => Touch(Tick(r), key)
    case OpScan(winner) => if winner.Some? then Touch(Tick(r), winner.value) else Tick(r)
  }

  function ListStep(lru: seq<string>, capacity: nat, op: Op): seq<string> {
    match op
    case OpRegister(key, _, _) => Added(lru, key, capacity)
    case OpUse(key) => Used(lru, key)
    case OpScan(winner) => if winner.Some? then Used(lru, winner.value) else lru
  }

  function Run(capacity: nat, ops: seq<Op>): Registry {
    if ops == [] then Registry(map[], 0, capacity) else Step(Run(capacity, Init(ops)), Last(ops))
  }

  function ListRun(capacity: nat, ops: seq<Op>): seq<string> {
    if ops == [] then [] else ListStep(ListRun(capacity, Init(ops)), capacity, Last(ops))
  }

  ghost predicate Legal(capacity: nat, ops: seq<Op>) {
    ops == [] || (Legal(capacity, Init(ops)) && Enabled(Run(capacity, Init(ops)), Last(ops)))
  }

  /** In every run the stamped map is a true LRU list, and never holds more than its capacity. */
  lemma {:induction false} RegistryIsLru(capacity: nat, ops: seq<Op>)
    requires Legal(capacity, ops)
    ensures var r := Run(capacity, ops);
            && r.capacity == capacity && Refines(r, ListRun(capacity, ops))
            && |r.parsers| <= if capacity == 0 then 1 else capacity
  {
    if ops != [] {
      var r, lru, op := Run(capacity, Init(ops)), ListRun(capacity, Init(ops)), Last(ops);
      RegistryIsLru(capacity, Init(ops));
      SizeOfList(r, lru);
      match op {
        case OpRegister(key, parser, victim) => RegisterRefines(r, lru, key, parser, victim);
        case OpUse(key) => TouchRefines(r, lru, key);
        case OpScan(winner) => if winner.Some? { TouchRefines(r, lru, winner.value); }
      }
      SizeOfList(Run(capacity, ops), ListRun(capacity, ops));
      WithoutShorter(lru, if op.OpScan? then (if op.winner.Some? then op.winner.value else "") else op.key);
    }
  }

  /** The parser last registered under a key. */
  function LastRegistered(ops: seq<Op>, key: string): Option<Parser> {
    if ops == [] then None
    else if Last(ops).OpRegister? && Last(ops).key == key then Some(Last(ops).parser)
    else LastRegistered(Init(ops), key)
  }

  /** In every run each key holds the parser last registered under it. */
  lemma {:induction false} KeysHoldLatest(capacity: nat, ops: seq<Op>, key: string)
    ensures var r := Run(capacity, ops); key in r.parsers ==> Some(r.parsers[key].parser) == LastRegistered(ops, key)
  {
    if ops != [] { KeysHoldLatest(capacity, Init(ops), key); }
  }

  /** Two parsers share a key exactly when they have one device model and vendors that are equal in lower
  case, as long as no vendor name holds a colon. */
  lemma KeyIdentifies(lower: string -> string, p: Parser, q: Parser)
    requires ':' !in lower(p.vendor) && ':' !in lower(q.vendor)
    ensures KeyOf(lower, p) == KeyOf(lower, q) <==> lower(p.vendor) == lower(q.vendor) && p.model == q.model
  {
    var a, b := lower(p.vendor), lower(q.vendor);
    var k, l := KeyOf(lower, p), KeyOf(lower, q);
    assert k[|a|] == ':' && l[|b|] == ':';
    assert k[..|a|] == a && l[..|b|] == b && k[|a| + 1..] == p.model && l[|b| + 1..] == q.model;
    if k == l {
      assert forall i :: 0 <= i < |a| ==> k[i] == a[i] != ':';
      assert forall i :: 0 <= i < |b| ==> l[i] == b[i] != ':';
      assert |a| == |b|;
    }
  }

  lemma {:induction false} WithoutShorter(s: seq<string>, k: string)
    ensures k in s ==> |Without(s, k)| < |s|
  {
    if s != [] {
      WithoutShorter(s[1..], k);
      assert s == [s[0]] + s[1..];
    }
  }
}
