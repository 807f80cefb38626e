/** What anchors see of a token.

A token is a word, or a word assigned to a key as in `key=word` or `"key":"word"`, and either word may
stand between quotes, commas, semicolons and white space. Only the words matter. */
module DrainValues {
  import opened Collections
  import opened Text
  import opened Drain
  import opened DrainRuns
  import opened DrainTheorems

  /** A word and the trimmings around it. */
  datatype Word = Word(pre: string, text: string, post: string)

  datatype Token =
    | Bare(value: Word)
    | Assigned(key: Word, value: Word)
    | Json(key: Word, value: Word)

  function SpellWord(w: Word): string {
    w.pre + w.text + w.post
  }

  function Spell(t: Token): string {
    match t
    case Bare(value) => SpellWord(value)
    case Assigned(key, value) => SpellWord(key) + ['='] + SpellWord(value)
    case Json(key, value) => SpellWord(key) + ['"', ':'] + SpellWord(value)
  }

  predicate LegalWord(w: Word) {
    && All(w.pre, IsQuoteOrSpace) && All(w.post, IsQuoteOrSpace)
    && w.text != [] && Text.Trimmed(w.text, IsQuoteOrSpace)
  }

  /** The separator is where it seems to be: the first `=`, or without one the first `":`. */
  predicate Legal(t: Token) {
    && LegalWord(t.value)
    && match t
       case Bare(value) => '=' !in SpellWord(value) && PairFree(SpellWord(value), '"', ':')
       case Assigned(key, _) => LegalWord(key) && '=' !in SpellWord(key)
       case Json(key, value) =>
         LegalWord(key) && '=' !in SpellWord(key) && '=' !in SpellWord(value) && PairFree(SpellWord(key), '"', ':')
  }

  // ---------- separators ----------

  lemma FindAt(head: string, c: char, tail: string)
    requires c !in head
    ensures Find(head + [c] + tail, c) == Some(|head|)
  {
    var s := head + [c] + tail;
    assert s[|head|] == c && s[..|head|] == head;
    assert forall i :: 0 <= i < |head| ==> s[i] == head[i];
    assert forall i :: |head| < i <= |s| ==> s[..i][|head|] == c;
  }

  lemma FindPairAt(head: string, tail: string)
    requires PairFree(head, '"', ':')
    ensures FindPair(head + ['"', ':'] + tail, '"', ':') == Some(|head|)
  {
    var s := head + ['"', ':'] + tail;
    assert s[|head|] == '"' && s[|head| + 1] == ':';
    assert forall i :: 0 <= i < |head| ==> s[i] == head[i];
    assert forall j :: |head| + 2 <= j <= |s| ==> s[..j][|head|] == '"' && s[..j][|head| + 1] == ':';
  }

  lemma FindNone(s: string, c: char)
    requires c !in s
    ensures Find(s, c) == None
  {}

  lemma FindPairNone(s: string)
    requires PairFree(s, '"', ':')
    ensures FindPair(s, '"', ':') == None
  {
  }

  lemma WordTrims(w: Word)
    requires LegalWord(w)
    ensures TrimMatches(SpellWord(w), IsQuoteOrSpace) == w.text
  {
    TrimExact(w.pre, w.text, w.post, IsQuoteOrSpace);
  }

  function KeyText(t: Token): Option<string> {
    if t.Bare? then None else Some(t.key.text)
  }

  lemma AssignedSeen(key: Word, value: Word)
    requires Legal(Assigned(key, value))
    ensures AnchorValue(Spell(Assigned(key, value))) == value.text && KvKey(Spell(Assigned(key, value))) == Some(key.text)
  {
    var k, v := SpellWord(key), SpellWord(value);
    var s := k + ['='] + v;
    FindAt(k, '=', v);
    assert s[..|k|] == k && s[|k| + 1..] == v;
    WordTrims(key);
    WordTrims(value);
  }

  lemma JsonSeen(key: Word, value: Word)
    requires Legal(Json(key, value))
    ensures AnchorValue(Spell(Json(key, value))) == value.text && KvKey(Spell(Json(key, value))) == Some(key.text)
  {
    var k, v := SpellWord(key), SpellWord(value);
    var s := k + ['"', ':'] + v;
    FindNone(s, '=');
    FindPairAt(k, v);
    assert s[..|k|] == k && s[|k| + 2..] == v;
    WordTrims(key);
    WordTrims(value);
  }

  lemma BareSeen(value: Word)
    requires Legal(Bare(value))
    ensures AnchorValue(Spell(Bare(value))) == value.text && KvKey(Spell(Bare(value))) == None
  {
    FindNone(SpellWord(value), '=');
    FindPairNone(SpellWord(value));
    WordTrims(value);
  }

  /** Whatever form a token takes, the anchor value is its word, and the key is the word it is assigned
  to. */
  lemma TokenSeen(t: Token)
    requires Legal(t)
    ensures AnchorValue(Spell(t)) == t.value.text && KvKey(Spell(t)) == KeyText(t)
  {
    match t {
      case Bare(value) => BareSeen(value);
      case Assigned(key, value) => AssignedSeen(key, value);
      case Json(key, value) => JsonSeen(key, value);
    }
  }

  /** Two spellings of a word are two different tokens with one value. */
  lemma TwoSpellings(w: Word, v: Word)
    requires Legal(Bare(w)) && Legal(Bare(v)) && SameIgnoringCase(w.text, v.text)
    ensures SameValue(Spell(Bare(w)), Spell(Bare(v)))
  {
    TokenSeen(Bare(w));
    TokenSeen(Bare(v));
  }

  lemma AllowCase()
    ensures SameIgnoringCase("allow", "ALLOW")
  {
    SameIgnoringCaseIff("allow", "ALLOW");
  }

  lemma PlainSeen(text: string)
    requires text != [] && (forall i :: 0 <= i < |text| ==> 'A' <= text[i] <= 'Z' || 'a' <= text[i] <= 'z')
    ensures AnchorValue(text) == text
  {
    var w := Word("", text, "");
    assert SpellWord(w) == text;
    TokenSeen(Bare(w));
  }

  /** ALLOW and allow are such a pair, whatever else the vocabulary lists. */
  lemma AllowIsSpelledTwice(vocab: seq<string>)
    requires "ALLOW" in vocab
    ensures "ALLOW" != "allow" && SameValue("ALLOW", "allow") && IsAnchor(vocab, "ALLOW") && IsAnchor(vocab, "allow")
  {
    PlainSeen("ALLOW");
    PlainSeen("allow");
    AllowCase();
    var i :| 0 <= i < |vocab| && vocab[i] == "ALLOW";
  }

  // ---------- when two tokens keep lines apart ----------

  predicate Listed(vocab: seq<string>, word: string) {
    exists i | 0 <= i < |vocab| :: SameIgnoringCase(word, vocab[i])
  }

  /** Both tokens assign to `type`. */
  predicate BothTypes(s: Token, t: Token) {
    && !s.Bare? && !t.Bare?
    && SameIgnoringCase(s.key.text, "type") && SameIgnoringCase(t.key.text, "type")
  }

  /** Two tokens force their lines apart if and only if their words differ, ignoring case, and one of the
  words is in the vocabulary or both are assigned to `type`. */
  lemma ConflictIff(vocab: seq<string>, s: Token, t: Token)
    requires Legal(s) && Legal(t)
    ensures Conflict(vocab, Spell(s), Spell(t))
            <==> && !SameIgnoringCase(s.value.text, t.value.text)
                 && (Listed(vocab, s.value.text) || Listed(vocab, t.value.text) || BothTypes(s, t))
  {
    TokenSeen(s);
    TokenSeen(t);
    ClassKeyIsType(s);
    ClassKeyIsType(t);
  }

  lemma ClassKeyIsType(t: Token)
    ensures !t.Bare? ==> ((exists i | 0 <= i < |CLASS_KEYS| :: SameIgnoringCase(t.key.text, CLASS_KEYS[i]))
                          <==> SameIgnoringCase(t.key.text, "type"))
  {
    assert CLASS_KEYS == ["type"] && CLASS_KEYS[0] == "type";
  }

  /** In no run does a cluster hold two lines that carry different words of the vocabulary at one
  position, in whatever form each line writes its word. */
  lemma VerdictsApart(config: Config, lines: seq<Line>, id: nat, a: Line, b: Line, i: nat, s: Token, t: Token)
    requires config.depth >= 2 && config.anchorsEnabled && WILD !in config.anchorTokens
    requires var members := MembersOf(RunLines(config, lines), id); a in members && b in members
    requires i < |a.tokens| && i < |b.tokens| && a.tokens[i] == Spell(s) && b.tokens[i] == Spell(t)
    requires Legal(s) && Legal(t) && s.value.text in config.anchorTokens && t.value.text in config.anchorTokens
    ensures SameIgnoringCase(s.value.text, t.value.text)
  {
    TokenSeen(s);
    TokenSeen(t);
    var j :| 0 <= j < |config.anchorTokens| && config.anchorTokens[j] == s.value.text;
    var k :| 0 <= k < |config.anchorTokens| && config.anchorTokens[k] == t.value.text;
    ActionInviolability(config, lines, id, a, b, i);
  }
}
