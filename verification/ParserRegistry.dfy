/** The registry as an object: each method performs one registry step, finding by its own loops the
eviction victim and the winner of a scan. */
module ParserRegistry {
  import opened Collections
  import opened Registry

  class DynamicParserRegistry {
    const capacity: nat
    var parsers: map<string, Entry>
    var clock: nat

    ghost function Abs(): Registry
      reads this
    {
      Registry(parsers, clock, capacity)
    }

    constructor (capacity: nat)
      ensures Abs() == Registry(map[], 0, capacity)
    {
      this.capacity := capacity;
      parsers, clock := map[], 0;
    }

    /** The `min_by` scan over all entries. */
    method FindVictim() returns (victim: string)
      requires |parsers| > 0
      ensures IsVictim(Abs(), victim)
    {
      var rest := parsers.Keys;
      assert |rest| == |parsers|;
      victim :| victim in rest;
      LexTotal(victim, victim);
      rest := rest - {victim};
      while rest != {}
        invariant rest <= parsers.Keys && victim in parsers
        invariant forall j :: j in parsers && j !in rest ==> Before(victim, j)
        decreases |rest|
      {
        var k :| k in rest;
        rest := rest - {k};
        LexTotal(k, k);
        LexTotal(k, victim);
        if !Before(victim, k) {
          forall j | j in parsers && j !in rest && j != k ensures Before(k, j) { BeforeTrans(k, victim, j); }
          victim := k;
        }
      }
    }

    predicate Before(a: string, b: string)
      requires a in parsers && b in parsers
      reads this
    {
      parsers[a].lastUse < parsers[b].lastUse || (parsers[a].lastUse == parsers[b].lastUse && LexLe(a, b))
    }

    lemma BeforeTrans(a: string, b: string, c: string)
      requires a in parsers && b in parsers && c in parsers && Before(a, b) && Before(b, c)
      ensures Before(a, c)
    {
      if LexLe(a, b) && LexLe(b, c) { LexTrans(a, b, c); }
    }

    /** At capacity a new key makes the least recently used one go. */
    method MakeRoom(key: string) returns (ghost victim: string)
      modifies this`parsers
      ensures var must := MustEvict(old(Abs()), key);
              && (must ==> IsVictim(old(Abs()), victim))
              && parsers == if must then old(parsers) - {victim} else old(parsers)
    {
      victim := "";
      if key !in parsers && |parsers| >= capacity && |parsers| > 0 {
        var oldest := FindVictim();
        victim := oldest;
        parsers := parsers - {oldest};
      }
    }

    /** Registers a parser as the most recently used; at capacity the least recently used one goes.
    `lower` is Unicode lower-casing. */
    method Register(lower: string -> string, parser: Parser) returns (key: string, ghost victim: string)
      modifies this
      ensures key == KeyOf(lower, parser)
      ensures MustEvict(old(Abs()), key) ==> IsVictim(old(Abs()), victim)
      ensures Abs() == Registered(old(Abs()), key, parser, victim)
    {
      key := lower(parser.vendor) + ":" + parser.model;
      victim := MakeRoom(key);
      clock := clock + 1;
      parsers := parsers[key := Entry(parser, clock)];
    }

    /** A lookup by exact key counts as a use even when the line does not match. */
    method ParseKey(m: Matcher, key: string, raw: string) returns (r: Option<string>)
      modifies this
      ensures Abs() == Touch(Tick(old(Abs())), key)
      ensures r == if key in old(parsers) then m(old(parsers)[key].parser, raw) else None
    {
      clock := clock + 1;
      if key !in parsers { return None; }
      var entry := parsers[key];
      parsers := parsers[key := entry.(lastUse := clock)];
      return m(entry.parser, raw);
    }

    /** The full scan: the smallest matching key wins and only it counts as used. */
    method ParseAnyKeyed(m: Matcher, raw: string) returns (r: Option<(string, string)>)
      modifies this
      ensures r == None <==> Matching(m, old(Abs()), raw) == {}
      ensures r.Some? ==> var (key, fields) := r.value;
                          && IsLeast(key, Matching(m, old(Abs()), raw))
                          && m(old(parsers)[key].parser, raw) == Some(fields)
                          && Abs() == Touch(Tick(old(Abs())), key)
      ensures r == None ==> Abs() == Tick(old(Abs()))
    {
      clock := clock + 1;
      var winner := Scan(m, raw);
      if winner.None? { return None; }
      var key := winner.value;
      var entry := parsers[key];
      parsers := parsers[key := entry.(lastUse := clock)];
      return Some((key, m(entry.parser, raw).value));
    }

    /** Visits the keys in order and stops at the first match. */
    method Scan(m: Matcher, raw: string) returns (winner: Option<string>)
      ensures winner == None <==> Matching(m, Abs(), raw) == {}
      ensures winner.Some? ==> IsLeast(winner.value, Matching(m, Abs(), raw))
    {
      var rest := parsers.Keys;
      while rest != {}
        invariant rest <= parsers.Keys
        invariant forall k :: k in parsers && k !in rest ==> !MatchesLine(m, Abs(), k, raw)
        decreases |rest|
      {
        LeastExists(rest);
        var k :| k in rest && forall j :: j in rest ==> LexLe(k, j);
        if m(parsers[k].parser, raw).Some? {
          assert k in Matching(m, Abs(), raw);
          return Some(k);
        }
        rest := rest - {k};
      }
      return None;
    }
  }
}
