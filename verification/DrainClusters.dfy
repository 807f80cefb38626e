/** What one cluster keeps while it absorbs lines: its template, its tag and its anchors. */
module DrainClusters {
  import opened Collections
  import opened Text
  import opened Drain

  /** Position i holds the same token in every member. */
  ghost predicate Agree(members: seq<Line>, i: nat)
    requires forall l :: l in members ==> i < |l.tokens|
  {
    forall a, b :: a in members && b in members ==> a.tokens[i] == b.tokens[i]
  }

  ghost predicate SizedMembers(members: seq<Line>, size: nat) {
    members != [] && forall l :: l in members ==> |l.tokens| == size
  }

  /** The template is literal exactly where all members agree, and then it is their common token. */
  ghost predicate IsTemplate(template: seq<string>, members: seq<Line>) {
    && SizedMembers(members, |template|)
    && forall i :: 0 <= i < |template| ==>
         template[i] == if Agree(members, i) then members[0].tokens[i] else WILD
  }

  /** Action inviolability: no two members carry different vocabulary values at one position. */
  ghost predicate AnchorsAgree(vocab: seq<string>, members: seq<Line>) {
    forall a, b, i :: a in members && b in members && 0 <= i < |a.tokens| && i < |b.tokens|
                      && IsAnchor(vocab, a.tokens[i]) && IsAnchor(vocab, b.tokens[i])
                      ==> SameValue(a.tokens[i], b.tokens[i])
  }

  lemma MemberOfPush<T>(xs: seq<T>, x: T)
    ensures forall y :: y in xs + [x] <==> y in xs || y == x
  {}

  // ---------- templates ----------

  lemma MergeIsTemplate(template: seq<string>, members: seq<Line>, line: Line)
    requires IsTemplate(template, members) && |line.tokens| == |template|
    ensures IsTemplate(Merge(template, line.tokens), members + [line])
  {
    MemberOfPush(members, line);
    assert (members + [line])[0] == members[0];
    assert members[0] in members;
    forall i | 0 <= i < |template|
      ensures Agree(members + [line], i) <==> Agree(members, i) && members[0].tokens[i] == line.tokens[i]
    {
      if Agree(members + [line], i) {
        assert line in members + [line] && members[0] in members + [line];
      }
    }
  }

  /** A pattern covers a line when every position matches. */
  ghost predicate Covers(pattern: seq<string>, line: Line) {
    |pattern| == |line.tokens| && forall i :: 0 <= i < |pattern| ==> Matches(pattern[i], line.tokens[i])
  }

  /** The template covers every member, and any other pattern that does is at least as general. */
  lemma TemplateIsLeastGeneral(template: seq<string>, members: seq<Line>, pattern: seq<string>)
    requires IsTemplate(template, members)
    ensures forall l :: l in members ==> Covers(template, l)
    ensures (forall l :: l in members ==> Covers(pattern, l)) ==>
              |pattern| == |template| && forall i :: 0 <= i < |template| ==> Matches(pattern[i], template[i])
  {
    assert members[0] in members;
    if forall l :: l in members ==> Covers(pattern, l) {
      assert Covers(pattern, members[0]);
      forall i | 0 <= i < |template| ensures Matches(pattern[i], template[i]) {
        assert forall l :: l in members ==> Covers(pattern, l);
      }
    }
  }

  // ---------- anchors ----------

  lemma LowersToWild(s: string)
    ensures SameIgnoringCase(WILD, s) ==> s == WILD
  {
    var l := Lower(s);
    if |s| == 3 {
      assert Lower(WILD)[0] == '<' && Lower(WILD)[1] == '*' && Lower(WILD)[2] == '>';
      assert l[0] == LowerChar(s[0]) && l[1] == LowerChar(s[1]) && l[2] == LowerChar(s[2]);
    } else {
      assert |Lower(WILD)| == 3;
    }
  }

  lemma AnchorValueOfWild()
    ensures AnchorValue(WILD) == WILD
  {
    var s := WILD;
    assert s[1..] == "*>" && s[1..][1..] == ">" && s[1..][1..][1..] == "";
    assert Find(s[1..][1..][1..], '=') == None;
    assert FindPair(s[1..][1..], '"', ':') == None;
    assert TrimStart(s, IsQuoteOrSpace) == s && TrimEnd(s, IsQuoteOrSpace) == s;
  }

  /** The wildcard is no anchor unless the vocabulary lists it. */
  lemma WildIsNoAnchor(vocab: seq<string>)
    requires WILD !in vocab
    ensures !IsAnchor(vocab, WILD)
  {
    AnchorValueOfWild();
    forall i | 0 <= i < |vocab| ensures !SameIgnoringCase(WILD, vocab[i]) { LowersToWild(vocab[i]); }
  }

  lemma AnchorByValue(vocab: seq<string>, a: string, b: string)
    requires SameValue(a, b)
    ensures IsAnchor(vocab, a) <==> IsAnchor(vocab, b)
  {}

  /** A wildcard position never admits a vocabulary value. */
  lemma AnchoredWild(vocab: seq<string>, token: string)
    requires WILD !in vocab && IsAnchor(vocab, token)
    ensures Conflict(vocab, WILD, token)
  {
    WildIsNoAnchor(vocab);
    if SameValue(WILD, token) { AnchorByValue(vocab, WILD, token); }
  }

  /** At a position where the newcomer carries a vocabulary value, every member carries it too. */
  lemma AnchoredNewcomer(vocab: seq<string>, template: seq<string>, members: seq<Line>, line: Line, m: Line, i: nat)
    requires WILD !in vocab && IsTemplate(template, members) && |line.tokens| == |template|
    requires m in members && i < |template|
    requires Compatible(vocab, template, line.tokens) && IsAnchor(vocab, line.tokens[i])
    ensures SameValue(m.tokens[i], line.tokens[i])
  {
    assert !Conflict(vocab, template[i], line.tokens[i]);
    AnchoredWild(vocab, line.tokens[i]);
    assert members[0] in members && Agree(members, i);
  }

  /** Absorbing a compatible line keeps the anchors agreed, even where the template is a wildcard. */
  lemma AbsorbKeepsAnchors(vocab: seq<string>, template: seq<string>, members: seq<Line>, line: Line)
    requires WILD !in vocab && IsTemplate(template, members) && |line.tokens| == |template|
    requires Compatible(vocab, template, line.tokens) && AnchorsAgree(vocab, members)
    ensures AnchorsAgree(vocab, members + [line])
  {
    MemberOfPush(members, line);
    forall a, b, i | a in members + [line] && b in members + [line] && 0 <= i < |a.tokens| && i < |b.tokens|
                     && IsAnchor(vocab, a.tokens[i]) && IsAnchor(vocab, b.tokens[i])
      ensures SameValue(a.tokens[i], b.tokens[i])
    {
      if a in members && b in members {
      } else if a in members {
        AnchoredNewcomer(vocab, template, members, line, a, i);
      } else if b in members {
        AnchoredNewcomer(vocab, template, members, line, b, i);
      }
    }
  }

  // ---------- anchors behind wildcards ----------

  /** The documented rule: no vocabulary value of a member lies behind a wildcard of the template. */
  ghost predicate NothingHidden(vocab: seq<string>, template: seq<string>, members: seq<Line>) {
    forall l, i :: l in members && 0 <= i < |template| && i < |l.tokens| && template[i] == WILD
                   ==> !IsAnchor(vocab, l.tokens[i])
  }

  /** The line has every anchor token of the template, spelled the same. */
  predicate RepeatsAnchors(vocab: seq<string>, template: seq<string>, tokens: seq<string>)
    requires |template| == |tokens|
  {
    forall i | 0 <= i < |template| :: IsAnchor(vocab, template[i]) ==> tokens[i] == template[i]
  }

  lemma TemplateToken(template: seq<string>, members: seq<Line>, l: Line, i: nat)
    requires IsTemplate(template, members) && l in members && i < |template|
    ensures template[i] != WILD ==> template[i] == l.tokens[i]
  {
    assert members[0] in members;
  }

  lemma StaysVisible(vocab: seq<string>, template: seq<string>, members: seq<Line>, line: Line, l: Line, i: nat)
    requires WILD !in vocab && IsTemplate(template, members) && |line.tokens| == |template|
    requires Compatible(vocab, template, line.tokens) && NothingHidden(vocab, template, members)
    requires RepeatsAnchors(vocab, template, line.tokens) && i < |template|
    requires (l in members || l == line) && IsAnchor(vocab, l.tokens[i])
    ensures Merge(template, line.tokens)[i] != WILD
  {
    WildIsNoAnchor(vocab);
    if l in members {
      TemplateToken(template, members, l, i);
    } else {
      assert !Conflict(vocab, template[i], line.tokens[i]);
      AnchorByValue(vocab, template[i], line.tokens[i]);
    }
  }

  lemma BecomesHidden(vocab: seq<string>, template: seq<string>, members: seq<Line>, line: Line)
    requires WILD !in vocab && IsTemplate(template, members) && |line.tokens| == |template|
    requires !NothingHidden(vocab, template, members) || !RepeatsAnchors(vocab, template, line.tokens)
    ensures !NothingHidden(vocab, Merge(template, line.tokens), members + [line])
  {
    MemberOfPush(members, line);
    if !NothingHidden(vocab, template, members) {
      var l, i :| l in members && 0 <= i < |template| && i < |l.tokens| && template[i] == WILD && IsAnchor(vocab, l.tokens[i]);
      assert l in members + [line] && Merge(template, line.tokens)[i] == WILD;
    } else {
      var i :| 0 <= i < |template| && IsAnchor(vocab, template[i]) && line.tokens[i] != template[i];
      WildIsNoAnchor(vocab);
      TemplateToken(template, members, members[0], i);
      assert members[0] in members + [line] && Merge(template, line.tokens)[i] == WILD;
    }
  }

  /** Absorbing a compatible line leaves nothing hidden exactly when nothing was hidden and the line
  repeats every anchor token of the template. */
  lemma HiddenAfterIff(vocab: seq<string>, template: seq<string>, members: seq<Line>, line: Line)
    requires WILD !in vocab && IsTemplate(template, members) && |line.tokens| == |template|
    requires Compatible(vocab, template, line.tokens)
    ensures NothingHidden(vocab, Merge(template, line.tokens), members + [line])
            <==> NothingHidden(vocab, template, members) && RepeatsAnchors(vocab, template, line.tokens)
  {
    if NothingHidden(vocab, template, members) && RepeatsAnchors(vocab, template, line.tokens) {
      MemberOfPush(members, line);
      forall l, i | l in members + [line] && 0 <= i < |template| && i < |l.tokens| && IsAnchor(vocab, l.tokens[i])
        ensures Merge(template, line.tokens)[i] != WILD
      {
        StaysVisible(vocab, template, members, line, l, i);
      }
    } else {
      BecomesHidden(vocab, template, members, line);
    }
  }

  // ---------- values shared by all members ----------

  /** One-sided inviolability: wherever any member carries a vocabulary value, all members do. */
  ghost predicate AnchorsPinned(vocab: seq<string>, members: seq<Line>) {
    forall a, b, i :: a in members && b in members && 0 <= i < |a.tokens| && i < |b.tokens|
                      && IsAnchor(vocab, a.tokens[i])
                      ==> SameValue(a.tokens[i], b.tokens[i])
  }

  lemma PinnedNewcomer(vocab: seq<string>, template: seq<string>, members: seq<Line>, line: Line, m: Line, i: nat)
    requires vocab != [] && WILD !in vocab && IsTemplate(template, members) && |line.tokens| == |template|
    requires Compatible(vocab, template, line.tokens) && AnchorsPinned(vocab, members)
    requires NothingHidden(vocab, template, members) && m in members && i < |template|
    requires IsAnchor(vocab, m.tokens[i]) || IsAnchor(vocab, line.tokens[i])
    ensures SameValue(m.tokens[i], line.tokens[i])
  {
    if IsAnchor(vocab, line.tokens[i]) {
      AnchoredNewcomer(vocab, template, members, line, m, i);
    } else {
      TemplateToken(template, members, m, i);
      assert !Conflict(vocab, template[i], line.tokens[i]);
    }
  }

  /** One-sided inviolability survives absorbing a compatible line exactly when no wildcard already
  hides a vocabulary value, as one does after two spellings such as ALLOW and allow were merged. */
  lemma PinnedStaysIff(vocab: seq<string>, template: seq<string>, members: seq<Line>, line: Line)
    requires vocab != [] && WILD !in vocab && IsTemplate(template, members) && |line.tokens| == |template|
    requires Compatible(vocab, template, line.tokens) && AnchorsPinned(vocab, members)
    ensures AnchorsPinned(vocab, members + [line]) <==> NothingHidden(vocab, template, members)
  {
    MemberOfPush(members, line);
    if NothingHidden(vocab, template, members) {
      forall a, b, i | a in members + [line] && b in members + [line] && 0 <= i < |a.tokens| && i < |b.tokens|
                       && IsAnchor(vocab, a.tokens[i])
        ensures SameValue(a.tokens[i], b.tokens[i])
      {
        if a in members && b in members {
        } else if a in members {
          PinnedNewcomer(vocab, template, members, line, a, i);
        } else if b in members {
          PinnedNewcomer(vocab, template, members, line, b, i);
        }
      }
    } else {
      var a, i :| a in members && 0 <= i < |template| && i < |a.tokens| && template[i] == WILD && IsAnchor(vocab, a.tokens[i]);
      var b := line;
      assert a in members + [line] && b in members + [line];
      if SameValue(a.tokens[i], b.tokens[i]) {
        AnchorByValue(vocab, a.tokens[i], b.tokens[i]);
        AnchoredWild(vocab, line.tokens[i]);
      }
    }
  }
}
