/** Clustering scores of the evaluation tool.

Grouping accuracy sums each cluster's majority class. Its meaning is the best score any labelling of
clusters with classes can reach, and everything about it follows from that. */
module Purity {
  import opened Collections
  import opened Text

  /** A line with its true class and the cluster it was put in. */
  datatype Line = Line(truth: string, cluster: nat)

  /** One class per cluster. */
  type Labels = map<nat, string>

  function Count(lines: seq<Line>, x: Line): nat {
    if lines == [] then 0 else Count(Init(lines), x) + One(Last(lines) == x)
  }

  predicate Right(labels: Labels, line: Line) {
    line.cluster in labels && labels[line.cluster] == line.truth
  }

  /** The lines of the given clusters that a labelling gets right. */
  function ScoreOn(lines: seq<Line>, labels: Labels, clusters: set<nat>): (n: nat)
    ensures n <= |lines|
  {
    if lines == [] then 0
    else ScoreOn(Init(lines), labels, clusters) + One(Last(lines).cluster in clusters && Right(labels, Last(lines)))
  }

  function Clusters(lines: seq<Line>): set<nat> {
    set i | 0 <= i < |lines| :: lines[i].cluster
  }

  function Score(lines: seq<Line>, labels: Labels): nat {
    ScoreOn(lines, labels, Clusters(lines))
  }

  /** `n` is the score of some labelling, and no labelling scores more. */
  ghost predicate IsBest(lines: seq<Line>, n: nat) {
    && (exists labels: Labels :: Score(lines, labels) == n)
    && forall labels: Labels :: Score(lines, labels) <= n
  }

  // ---------- the computation ----------

  /** Class counts per cluster. */
  type Tally = map<nat, map<string, nat>>

  function Cell(t: Tally, x: Line): nat {
    if x.cluster in t && x.truth in t[x.cluster] then t[x.cluster][x.truth] else 0
  }

  function Row(t: Tally, c: nat): map<string, nat> {
    if c in t then t[c] else map[]
  }

  function Add(t: Tally, x: Line): Tally {
    t[x.cluster := Row(t, x.cluster)[x.truth := Cell(t, x) + 1]]
  }

  lemma AddCell(t: Tally, x: Line, y: Line)
    ensures Cell(Add(t, x), y) == Cell(t, y) + One(x == y)
  {}

  lemma ClustersPush(lines: seq<Line>, x: Line)
    ensures Clusters(lines + [x]) == Clusters(lines) + {x.cluster}
  {
    var more := lines + [x];
    forall c | c in Clusters(lines) + {x.cluster} ensures c in Clusters(more) {
      if c == x.cluster { assert more[|lines|].cluster == c; } else {
        var i :| 0 <= i < |lines| && lines[i].cluster == c;
        assert more[i].cluster == c;
      }
    }
  }

  lemma CountPush(lines: seq<Line>, x: Line, y: Line)
    ensures Count(lines + [x], y) == Count(lines, y) + One(x == y)
  {
    assert Init(lines + [x]) == lines;
  }

  method BuildTally(lines: seq<Line>) returns (t: Tally)
    ensures t.Keys == Clusters(lines)
    ensures forall x :: Cell(t, x) == Count(lines, x)
  {
    t := map[];
    var i := 0;
    while i < |lines|
      invariant i <= |lines|
      invariant t.Keys == Clusters(lines[..i])
      invariant forall x :: Cell(t, x) == Count(lines[..i], x)
    {
      assert lines[..i + 1] == lines[..i] + [lines[i]];
      ClustersPush(lines[..i], lines[i]);
      ghost var before := t;
      t := Add(t, lines[i]);
      forall x ensures Cell(t, x) == Count(lines[..i + 1], x) {
        AddCell(before, lines[i], x);
        CountPush(lines[..i], lines[i], x);
      }
      i := i + 1;
    }
    assert lines[..i] == lines;
  }

  /** The largest count of a row, and the class that has it. */
  method Majority(row: map<string, nat>) returns (n: nat, ghost truth: string)
    ensures forall g :: g in row ==> row[g] <= n
    ensures n == if truth in row then row[truth] else 0
  {
    n, truth := 0, "";
    if row == map[] { return; }
    var rest := row.Keys;
    ghost var seen := false;
    while rest != {}
      invariant rest <= row.Keys
      invariant forall g :: g in row && g !in rest ==> row[g] <= n
      invariant seen ==> truth in row && n == row[truth]
      invariant !seen ==> n == 0 && rest == row.Keys
      decreases |rest|
    {
      var g :| g in rest;
      if row[g] > n || rest == row.Keys {
        n, truth := row[g], g;
      }
      seen := true;
      rest := rest - {g};
    }
  }

  /** Adding one cluster to those scored adds its lines of the class it is labelled with. */
  lemma {:induction false} ScoreMore(lines: seq<Line>, labels: Labels, done: set<nat>, c: nat)
    requires c !in done
    ensures ScoreOn(lines, labels, done + {c})
            == ScoreOn(lines, labels, done) + if c in labels then Count(lines, Line(labels[c], c)) else 0
  {
    if lines != [] { ScoreMore(Init(lines), labels, done, c); }
  }

  /** Relabelling a cluster outside those scored changes nothing. */
  lemma {:induction false} ScoreSame(lines: seq<Line>, labels: Labels, done: set<nat>, c: nat, g: string)
    requires c !in done
    ensures ScoreOn(lines, labels[c := g], done) == ScoreOn(lines, labels, done)
  {
    if lines != [] { ScoreSame(Init(lines), labels, done, c, g); }
  }

  lemma {:induction false} ScoreNone(lines: seq<Line>, labels: Labels)
    ensures ScoreOn(lines, labels, {}) == 0
  {
    if lines != [] { ScoreNone(Init(lines), labels); }
  }

  ghost predicate BestOn(lines: seq<Line>, n: nat, best: Labels, done: set<nat>) {
    n == ScoreOn(lines, best, done) && forall labels: Labels :: ScoreOn(lines, labels, done) <= n
  }

  lemma BestMore(lines: seq<Line>, n: nat, best: Labels, done: set<nat>, c: nat, m: nat, g: string)
    requires BestOn(lines, n, best, done) && c !in done
    requires m == Count(lines, Line(g, c)) && forall h :: Count(lines, Line(h, c)) <= m
    ensures BestOn(lines, n + m, best[c := g], done + {c})
  {
    ScoreSame(lines, best, done, c, g);
    ScoreMore(lines, best[c := g], done, c);
    forall labels: Labels ensures ScoreOn(lines, labels, done + {c}) <= n + m {
      ScoreMore(lines, labels, done, c);
      assert ScoreOn(lines, labels, done) <= n;
    }
  }

  /** The sum over clusters of the majority class count is the best score of any labelling. */
  method MajoritySum(lines: seq<Line>) returns (correct: nat)
    ensures IsBest(lines, correct)
  {
    var t := BuildTally(lines);
    correct := 0;
    ghost var best: Labels := map[];
    var rest := t.Keys;
    ghost var done := {};
    forall labels: Labels ensures ScoreOn(lines, labels, {}) == 0 { ScoreNone(lines, labels); }
    while rest != {}
      invariant rest <= t.Keys && done == t.Keys - rest
      invariant BestOn(lines, correct, best, done)
      decreases |rest|
    {
      var c :| c in rest;
      var n, g := Majority(t[c]);
      forall h ensures Count(lines, Line(h, c)) <= n { assert Cell(t, Line(h, c)) == Count(lines, Line(h, c)); }
      assert Cell(t, Line(g, c)) == Count(lines, Line(g, c));
      BestMore(lines, correct, best, done, c, n, g);
      correct, best, done := correct + n, best[c := g], done + {c};
      rest := rest - {c};
    }
    assert done == Clusters(lines) && Score(lines, best) == correct;
  }

  // ---------- what the score means ----------

  /** Every cluster holds lines of one class only. */
  ghost predicate Pure(lines: seq<Line>) {
    forall i, j :: 0 <= i < |lines| && 0 <= j < |lines| && lines[i].cluster == lines[j].cluster
                   ==> lines[i].truth == lines[j].truth
  }

  lemma {:induction false} FullScore(lines: seq<Line>, labels: Labels, done: set<nat>)
    requires forall i :: 0 <= i < |lines| ==> lines[i].cluster in done
    ensures ScoreOn(lines, labels, done) == |lines| <==> forall i :: 0 <= i < |lines| ==> Right(labels, lines[i])
  {
    if lines != [] {
      var init := Init(lines);
      assert forall i :: 0 <= i < |init| ==> init[i] == lines[i];
      FullScore(init, labels, done);
      if forall i :: 0 <= i < |lines| ==> Right(labels, lines[i]) {
        assert forall i :: 0 <= i < |init| ==> Right(labels, init[i]);
        assert Right(labels, lines[|lines| - 1]);
      }
      if ScoreOn(lines, labels, done) == |lines| {
        forall i | 0 <= i < |lines| ensures Right(labels, lines[i]) {
          if i < |init| { assert Right(labels, init[i]); }
        }
      }
    }
  }

  lemma {:induction false} PureLabels(lines: seq<Line>) returns (labels: Labels)
    requires Pure(lines)
    ensures forall i :: 0 <= i < |lines| ==> Right(labels, lines[i])
  {
    labels := map[];
    if lines != [] {
      var init := Init(lines);
      assert forall i :: 0 <= i < |init| ==> init[i] == lines[i];
      var l := PureLabels(init);
      labels := l[Last(lines).cluster := Last(lines).truth];
      forall i | 0 <= i < |lines| ensures Right(labels, lines[i]) {
        if i < |init| { assert Right(l, init[i]); }
      }
    }
  }

  /** Every line counts as correct exactly when every cluster is pure. */
  lemma AllCorrectIffPure(lines: seq<Line>, n: nat)
    requires IsBest(lines, n)
    ensures n == |lines| <==> Pure(lines)
  {
    var best: Labels :| Score(lines, best) == n;
    FullScore(lines, best, Clusters(lines));
    if Pure(lines) {
      var labels := PureLabels(lines);
      FullScore(lines, labels, Clusters(lines));
      assert Score(lines, labels) <= n;
    }
  }

  /** `coarse` puts the same lines into clusters that are unions of those of `fine`. */
  ghost predicate Coarsens(fine: seq<Line>, coarse: seq<Line>, merge: map<nat, nat>) {
    && |fine| == |coarse|
    && forall i :: 0 <= i < |fine| ==> fine[i].truth == coarse[i].truth && fine[i].cluster in merge
                                       && coarse[i].cluster == merge[fine[i].cluster]
  }

  function Pulled(labels: Labels, merge: map<nat, nat>): Labels {
    map c | c in merge && merge[c] in labels :: labels[merge[c]]
  }

  lemma {:induction false} PulledScore(fine: seq<Line>, coarse: seq<Line>, merge: map<nat, nat>, labels: Labels,
                                       f: set<nat>, c: set<nat>)
    requires Coarsens(fine, coarse, merge) && forall i :: 0 <= i < |fine| ==> fine[i].cluster in f
    ensures ScoreOn(coarse, labels, c) <= ScoreOn(fine, Pulled(labels, merge), f)
  {
    if fine != [] {
      assert forall i :: 0 <= i < |fine| - 1 ==> Init(fine)[i] == fine[i] && Init(coarse)[i] == coarse[i];
      PulledScore(Init(fine), Init(coarse), merge, labels, f, c);
    }
  }

  /** Splitting clusters never lowers the score. */
  lemma SplittingNeverHurts(fine: seq<Line>, coarse: seq<Line>, merge: map<nat, nat>, n: nat, n': nat)
    requires Coarsens(fine, coarse, merge) && IsBest(coarse, n) && IsBest(fine, n')
    ensures n <= n'
  {
    var best: Labels :| Score(coarse, best) == n;
    PulledScore(fine, coarse, merge, best, Clusters(fine), Clusters(coarse));
    assert Score(fine, Pulled(best, merge)) <= n';
  }

  // ---------- the reported figures ----------

  /** The two lists side by side, up to the shorter. */
  function Zip(truths: seq<string>, clusters: seq<nat>): (lines: seq<Line>)
    ensures |lines| == if |truths| <= |clusters| then |truths| else |clusters|
    ensures forall i :: 0 <= i < |lines| ==> lines[i] == Line(truths[i], clusters[i])
  {
    var n := if |truths| <= |clusters| then |truths| else |clusters|;
    seq(n, i requires 0 <= i < n => Line(truths[i], clusters[i]))
  }

  /** Grouping accuracy in percent. */
  method GroupingAccuracy(truths: seq<string>, clusters: seq<nat>) returns (percent: real)
    ensures Reported(Zip(truths, clusters), |truths|, percent)
  {
    var n := MajoritySum(Zip(truths, clusters));
    percent := if truths == [] then 0.0 else n as real / |truths| as real * 100.0;
    if truths != [] { AccuracyMeans(Zip(truths, clusters), n, |truths|, percent); }
  }

  /** What is reported for the clustered lines out of `total`: nothing for no lines, and otherwise the
  best score in percent, which is a hundred exactly when all lines are clustered and all clusters pure. */
  ghost predicate Reported(lines: seq<Line>, total: nat, percent: real) {
    if total == 0 then percent == 0.0
    else
      && (exists n :: IsBest(lines, n) && percent * total as real == n as real * 100.0)
      && 0.0 <= percent <= 100.0 && (percent == 100.0 <==> total == |lines| && Pure(lines))
  }

  lemma AccuracyMeans(lines: seq<Line>, n: nat, total: nat, percent: real)
    requires IsBest(lines, n) && |lines| <= total && 0 < total && percent == n as real / total as real * 100.0
    ensures Reported(lines, total, percent)
  {
    AllCorrectIffPure(lines, n);
    Percent(n, total, percent);
  }

  lemma Percent(n: nat, total: nat, percent: real)
    requires 0 < total && n <= total && percent == n as real / total as real * 100.0
    ensures percent * total as real == n as real * 100.0
    ensures 0.0 <= percent <= 100.0 && (percent == 100.0 <==> n == total)
  {
    var q := n as real / total as real;
    assert q * total as real == n as real;
    assert 0.0 <= q <= 1.0;
    var t := total as real;
    if n == total { Whole(t); }
    if percent == 100.0 { assert q == 1.0 && n as real == t; }
  }

  lemma Whole(t: real)
    requires t > 0.0
    ensures t / t == 1.0
  {}

  // ---------- mixed dispositions ----------

  /** The allow side, the deny side, or no expectation. */
  function DispositionSide(disposition: string): Option<bool> {
    if disposition in {"allowed", "allow", "accept", "accepted", "pass", "permit", "permitted"} then Some(true)
    else if disposition in {"blocked", "block", "deny", "denied", "drop", "dropped", "reject", "rejected"} then Some(false)
    else None
  }

  /** The words of each side; nothing else has a side. */
  lemma SidesAre(word: string)
    ensures DispositionSide(word) == Some(true)
            <==> || word == "allow" || word == "allowed" || word == "accept" || word == "accepted" || word == "pass"
                 || word == "permit" || word == "permitted"
    ensures DispositionSide(word) == Some(false)
            <==> || word == "deny" || word == "denied" || word == "block" || word == "blocked" || word == "drop"
                 || word == "dropped" || word == "reject" || word == "rejected"
  {}

  /** A clustered line and its disposition, if it states one. */
  datatype Outcome = Outcome(cluster: nat, disposition: Option<string>)

  function SideOf(o: Outcome): Option<bool> {
    match o.disposition
    case None => None
    case Some(d) => DispositionSide(Lower(d))
  }

  ghost predicate Holds(os: seq<Outcome>, c: nat, side: bool) {
    exists i :: 0 <= i < |os| && os[i].cluster == c && SideOf(os[i]) == Some(side)
  }

  /** The clusters that hold an allow-side and a deny-side line. */
  ghost function Mixed(os: seq<Outcome>): set<nat> {
    set i | 0 <= i < |os| && Holds(os, os[i].cluster, true) && Holds(os, os[i].cluster, false) :: os[i].cluster
  }

  type Seen = map<nat, (bool, bool)>

  predicate Noted(state: Seen, c: nat, side: bool) {
    c in state && if side then state[c].0 else state[c].1
  }

  function Note(state: Seen, o: Outcome): Seen {
    match SideOf(o)
    case None => state
    case Some(side) =>
      var seen := if o.cluster in state then state[o.cluster] else (false, false);
      state[o.cluster := if side then (true, seen.1) else (seen.0, true)]
  }

  lemma NoteEffect(state: Seen, o: Outcome, c: nat, side: bool)
    ensures Noted(Note(state, o), c, side) <==> Noted(state, c, side) || (o.cluster == c && SideOf(o) == Some(side))
  {}

  lemma HoldsPush(os: seq<Outcome>, o: Outcome, c: nat, side: bool)
    ensures Holds(os + [o], c, side) <==> Holds(os, c, side) || (o.cluster == c && SideOf(o) == Some(side))
  {
    var more := os + [o];
    if Holds(os, c, side) {
      var i :| 0 <= i < |os| && os[i].cluster == c && SideOf(os[i]) == Some(side);
      assert more[i] == os[i];
    }
    assert more[|os|] == o;
  }

  method NoteSides(os: seq<Outcome>) returns (state: Seen)
    ensures forall c, side :: Noted(state, c, side) <==> Holds(os, c, side)
  {
    state := map[];
    var i := 0;
    while i < |os|
      invariant i <= |os|
      invariant forall c, side :: Noted(state, c, side) <==> Holds(os[..i], c, side)
    {
      assert os[..i + 1] == os[..i] + [os[i]];
      ghost var before := state;
      state := Note(state, os[i]);
      forall c, side ensures Noted(state, c, side) <==> Holds(os[..i + 1], c, side) {
        NoteEffect(before, os[i], c, side);
        HoldsPush(os[..i], os[i], c, side);
      }
      i := i + 1;
    }
    assert os[..i] == os;
  }

  lemma MixedIff(os: seq<Outcome>, c: nat)
    ensures c in Mixed(os) <==> Holds(os, c, true) && Holds(os, c, false)
  {}

  /** A cluster is mixed exactly when it holds a line with an allow word and a line with a deny word, in any
  case of letters. */
  lemma MixedByWords(os: seq<Outcome>, c: nat)
    ensures c in Mixed(os) <==> HoldsWord(os, c, true) && HoldsWord(os, c, false)
  {
    MixedIff(os, c);
    WordsAreSides(os, c, true);
    WordsAreSides(os, c, false);
  }

  const ALLOW_WORDS: set<string> := {"allowed", "allow", "accept", "accepted", "pass", "permit", "permitted"}
  const DENY_WORDS: set<string> := {"blocked", "block", "deny", "denied", "drop", "dropped", "reject", "rejected"}

  ghost predicate HoldsWord(os: seq<Outcome>, c: nat, allow: bool) {
    exists i :: && 0 <= i < |os| && os[i].cluster == c && os[i].disposition.Some?
                && Lower(os[i].disposition.value) in if allow then ALLOW_WORDS else DENY_WORDS
  }

  lemma WordsAreSides(os: seq<Outcome>, c: nat, allow: bool)
    ensures HoldsWord(os, c, allow) <==> Holds(os, c, allow)
  {
    forall i | 0 <= i < |os| && os[i].disposition.Some?
      ensures SideOf(os[i]) == Some(allow)
              <==> Lower(os[i].disposition.value) in if allow then ALLOW_WORDS else DENY_WORDS
    {
      SidesAre(Lower(os[i].disposition.value));
    }
  }

  /** How many clusters mix the two sides. */
  method ActionViolations(os: seq<Outcome>) returns (n: nat)
    ensures n == |Mixed(os)|
  {
    var state := NoteSides(os);
    var rest, mixed := state.Keys, {};
    n := 0;
    while rest != {}
      invariant rest <= state.Keys && n == |mixed|
      invariant mixed == set c | c in state && c !in rest && Noted(state, c, true) && Noted(state, c, false)
      decreases |rest|
    {
      var c :| c in rest;
      if state[c].0 && state[c].1 { mixed, n := mixed + {c}, n + 1; }
      rest := rest - {c};
    }
    forall c ensures c in mixed <==> c in Mixed(os) {
      MixedIff(os, c);
      assert Noted(state, c, true) <==> Holds(os, c, true);
      assert Noted(state, c, false) <==> Holds(os, c, false);
    }
    assert mixed == Mixed(os);
  }
}
