/** The promoted-route table and its gate under any interleaving.

Callers and the worker insert and remove routes while holding the table's lock, and adjust the gate
before releasing it. Readers load the gate without the lock. */
module RouteProtocol {
  import opened Collections
  import P = Pipeline

  /** Who holds the lock, and the change to the gate the holder has still to make. */
  datatype Lock = Free | Held(holder: nat, pending: int)

  datatype Table = Table(routes: map<nat, string>, open: nat, lock: Lock)

  datatype Action =
    | Insert(t: nat, sig: nat, key: string)
    | Remove(t: nat, sig: nat)
    | Adjust(t: nat)
    | Release(t: nat)

  /** The lock is released only once nothing is pending; actions that are not enabled change nothing. */
  function Next(s: Table, a: Action): Table {
    match a
    case Insert(t, sig, key) =>
      if s.lock.Free? then Table(s.routes[sig := key], s.open, Held(t, if sig in s.routes then 0 else 1)) else s
    case Remove(t, sig) =>
      if s.lock.Free? then Table(s.routes - {sig}, s.open, Held(t, if sig in s.routes then -1 else 0)) else s
    case Adjust(t) =>
      if s.lock.Held? && s.lock.holder == t then s.(open := (s.open + s.lock.pending) % U64, lock := Held(t, 0)) else s
    case Release(t) => if s.lock == Held(t, 0) then s.(lock := Free) else s
  }

  function Run(acts: seq<Action>): Table {
    if acts == [] then Table(map[], 0, Free) else Next(Run(Init(acts)), Last(acts))
  }

  function Pending(s: Table): int {
    if s.lock.Free? then 0 else s.lock.pending
  }

  /** What the gate reads with `size` routes and a pending change: the size without that change. */
  ghost predicate Reads(open: nat, size: nat, pending: int) {
    open == (size - pending) % U64 && -1 <= pending <= 1
  }

  ghost predicate Ok(s: Table) {
    Reads(s.open, |s.routes|, Pending(s))
  }

  lemma SizeAfter(routes: map<nat, string>, sig: nat, key: string)
    ensures |routes[sig := key]| == |routes| + if sig in routes then 0 else 1
    ensures |routes - {sig}| == |routes| - if sig in routes then 1 else 0
  {
    assert routes[sig := key].Keys == routes.Keys + {sig};
    assert (routes - {sig}).Keys == routes.Keys - {sig};
    assert |routes.Keys| == |routes| && |(routes - {sig}).Keys| == |routes - {sig}|;
    assert |routes[sig := key].Keys| == |routes[sig := key]|;
  }

  lemma Settle(open: nat, size: nat, pending: int)
    requires Reads(open, size, pending)
    ensures Reads((open + pending) % U64, size, 0)
  {}

  lemma Grow(open: nat, size: nat)
    requires Reads(open, size, 0)
    ensures Reads(open, size + 1, 1)
    ensures size > 0 ==> Reads(open, size - 1, -1)
  {}

  lemma ChangeOk(s: Table, t: nat, sig: nat, key: string)
    requires Ok(s) && s.lock.Free?
    ensures Ok(Next(s, Insert(t, sig, key))) && Ok(Next(s, Remove(t, sig)))
  {
    SizeAfter(s.routes, sig, key);
    Grow(s.open, |s.routes|);
  }

  lemma NextOk(s: Table, a: Action)
    requires Ok(s)
    ensures Ok(Next(s, a))
  {
    match a {
      case Insert(t, sig, key) => if s.lock.Free? { ChangeOk(s, t, sig, key); }
      case Remove(t, sig) => if s.lock.Free? { ChangeOk(s, t, sig, ""); }
      case Adjust(t) => Settle(s.open, |s.routes|, Pending(s));
      case Release(t) =>
    }
  }

  /** In every interleaving the gate is the size of the table less the holder's pending change, so with
  the lock free it is the size of the table. */
  lemma {:induction false} RoutesAccounted(acts: seq<Action>)
    ensures Ok(Run(acts))
    ensures Run(acts).lock.Free? && |Run(acts).routes| < U64 ==> Run(acts).open == |Run(acts).routes|
  {
    if acts != [] {
      RoutesAccounted(Init(acts));
      NextOk(Run(Init(acts)), Last(acts));
    }
    FreeIsExact(Run(acts));
  }

  lemma FreeIsExact(s: Table)
    requires Ok(s)
    ensures s.lock.Free? && |s.routes| < U64 ==> s.open == |s.routes|
  {}

  /** A reader that finds the gate closed misses a route only while the very first route is being
  installed: its inserter holds the lock and has not yet adjusted the gate. */
  lemma ClosedGateMissesIff(acts: seq<Action>)
    requires |Run(acts).routes| < U64 - 1
    ensures var s := Run(acts);
            s.open == 0 && s.routes != map[] <==> |s.routes| == 1 && s.lock.Held? && s.lock.pending == 1
  {
    var s := Run(acts);
    RoutesAccounted(acts);
    assert s.routes == map[] <==> |s.routes| == 0 by {
      assert |s.routes.Keys| == |s.routes|;
      assert s.routes.Keys == {} ==> s.routes == map[];
    }
  }

  // ---------- a change without interference ----------

  /** The table agrees with a state of the sequential pipeline. */
  ghost predicate Mirrors(s: Table, p: P.State) {
    s.lock.Free? && s.routes == p.routes && p.routesOpen == |p.routes| < U64 - 1 && s.open == p.routesOpen
  }

  function InsertAlone(s: Table, t: nat, sig: nat, key: string): Table {
    Next(Next(Next(s, Insert(t, sig, key)), Adjust(t)), Release(t))
  }

  function RemoveAlone(s: Table, t: nat, sig: nat): Table {
    Next(Next(Next(s, Remove(t, sig)), Adjust(t)), Release(t))
  }

  /** Uninterrupted, the steps of an insertion install the route and those of a removal take it away, as in
  the sequential model. */
  lemma AloneIsSequential(s: Table, p: P.State, t: nat, sig: nat, key: string)
    requires Mirrors(s, p)
    ensures var s', p' := InsertAlone(s, t, sig, key), P.AddRoute(p, sig, key);
            s'.lock.Free? && s'.routes == p'.routes == p.routes[sig := key] && s'.open == p'.routesOpen == |p'.routes|
    ensures var s', p' := RemoveAlone(s, t, sig), P.DropRoute(p, sig);
            s'.lock.Free? && s'.routes == p'.routes == p.routes - {sig} && s'.open == p'.routesOpen == |p'.routes|
  {
    SizeAfter(s.routes, sig, key);
  }
}
