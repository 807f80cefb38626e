/** String helpers with the meaning of their Rust namesakes. Text is a sequence of characters. */
module Text {
  import opened Collections

  /** The Unicode White_Space characters. */
  predicate IsWhitespace(c: char) {
    var n := c as int;
    || 9 <= n <= 13 || n == 0x20 || n == 0x85 || n == 0xA0 || n == 0x1680 || 0x2000 <= n <= 0x200A
    || n == 0x2028 || n == 0x2029 || n == 0x202F || n == 0x205F || n == 0x3000
  }

  /** Among ASCII characters these are tab, the line breaks and form feeds, and the space. */
  lemma AsciiWhitespace(c: char)
    requires c as int < 128
    ensures IsWhitespace(c) <==> c == '\t' || c == '\n' || c == '\r' || c == ' ' || c as int == 11 || c as int == 12
  {}

  predicate IsDigit(c: char) {
    '0' <= c <= '9'
  }

  function LowerChar(c: char): char {
    if 'A' <= c <= 'Z' then c - 'A' + 'a' else c
  }

  function Lower(s: string): (r: string)
    ensures |r| == |s|
  {
    seq(|s|, i requires 0 <= i < |s| => LowerChar(s[i]))
  }

  /** `eq_ignore_ascii_case` */
  predicate SameIgnoringCase(a: string, b: string) {
    Lower(a) == Lower(b)
  }

  /** `find` for one character: its first position. */
  function Find(s: string, c: char): (r: Option<nat>)
    ensures r.None? ==> c !in s
    ensures r.Some? ==> r.value < |s| && s[r.value] == c && c !in s[..r.value]
  {
    if s == [] then None
    else if s[0] == c then Some(0)
    else match Find(s[1..], c)
         case None => None
         case Some(i) => assert s[..i + 1] == [s[0]] + s[1..][..i]; Some(i + 1)
  }

  /** No `c` is directly followed by a `d`. */
  predicate PairFree(s: string, c: char, d: char) {
    forall i | 0 <= i < |s| - 1 :: !(s[i] == c && s[i + 1] == d)
  }

  lemma PairFreeCons(s: string, c: char, d: char)
    requires |s| >= 2 && PairFree(s[1..], c, d) && !(s[0] == c && s[1] == d)
    ensures PairFree(s, c, d)
  {
    forall i | 0 <= i < |s| - 1 ensures !(s[i] == c && s[i + 1] == d) {
      if i > 0 { assert s[1..][i - 1] == s[i] && s[1..][i] == s[i + 1]; }
    }
  }

  /** `find` for two characters in a row: their first position. */
  function FindPair(s: string, c: char, d: char): (r: Option<nat>)
    ensures r.None? ==> PairFree(s, c, d)
    ensures r.Some? ==> r.value + 1 < |s| && s[r.value] == c && s[r.value + 1] == d && PairFree(s[..r.value + 1], c, d)
  {
    if |s| < 2 then None
    else if s[0] == c && s[1] == d then Some(0)
    else match FindPair(s[1..], c, d)
         case None => PairFreeCons(s, c, d); None
         case Some(i) =>
           assert s[..i + 2][1..] == s[1..][..i + 1];
           PairFreeCons(s[..i + 2], c, d);
           Some(i + 1)
  }

  function TrimStart(s: string, drop: char -> bool): string {
    if s != [] && drop(s[0]) then TrimStart(s[1..], drop) else s
  }

  function TrimEnd(s: string, drop: char -> bool): string {
    if s != [] && drop(Last(s)) then TrimEnd(Init(s), drop) else s
  }

  /** `trim_matches` */
  function TrimMatches(s: string, drop: char -> bool): string {
    TrimEnd(TrimStart(s, drop), drop)
  }

  function Trim(s: string): string {
    TrimMatches(s, IsWhitespace)
  }

  /** Ignoring case, two texts are the same when they differ in the case of ASCII letters at most. */
  lemma SameIgnoringCaseIff(a: string, b: string)
    ensures SameIgnoringCase(a, b) <==> |a| == |b| && forall i :: 0 <= i < |a| ==> CaseVariants(a[i], b[i])
  {
    if SameIgnoringCase(a, b) {
      forall i | 0 <= i < |a| ensures CaseVariants(a[i], b[i]) { assert Lower(a)[i] == Lower(b)[i]; }
    }
  }

  predicate CaseVariants(c: char, d: char) {
    || c == d
    || ('A' <= c <= 'Z' && d as int == c as int + 32)
    || ('A' <= d <= 'Z' && c as int == d as int + 32)
  }

  // ---------- trimming ----------

  predicate All(s: string, p: char -> bool) {
    forall i | 0 <= i < |s| :: p(s[i])
  }

  /** Nothing at either end can be trimmed. */
  predicate Trimmed(s: string, drop: char -> bool) {
    s == [] || (!drop(s[0]) && !drop(Last(s)))
  }

  lemma {:induction false} TrimStartAll(pre: string, s: string, drop: char -> bool)
    requires All(pre, drop) && (s == [] || !drop(s[0]))
    ensures TrimStart(pre + s, drop) == s
  {
    if pre == [] {
      assert pre + s == s;
    } else {
      assert (pre + s)[1..] == pre[1..] + s;
      TrimStartAll(pre[1..], s, drop);
    }
  }

  lemma {:induction false} TrimEndAll(s: string, post: string, drop: char -> bool)
    requires All(post, drop) && (s == [] || !drop(Last(s)))
    ensures TrimEnd(s + post, drop) == s
  {
    if post == [] {
      assert s + post == s;
    } else {
      assert Init(s + post) == s + Init(post) && Last(s + post) == Last(post);
      TrimEndAll(s, Init(post), drop);
    }
  }

  /** Trimming takes exactly the droppable characters off both ends. */
  lemma TrimExact(pre: string, s: string, post: string, drop: char -> bool)
    requires All(pre, drop) && All(post, drop) && s != [] && Trimmed(s, drop)
    ensures TrimMatches(pre + s + post, drop) == s
  {
    assert pre + s + post == pre + (s + post);
    TrimStartAll(pre, s + post, drop);
    TrimEndAll(s, post, drop);
  }

  /** Reading `head`, one character and `tail` off a text, from `start` on. */
  lemma Around(s: string, start: nat, head: string, c: char, tail: string)
    requires start <= |s| && s[start..] == head + [c] + tail
    ensures start + |head| < |s|
    ensures s[start..start + |head|] == head && s[start + |head|] == c && s[start + |head| + 1..] == tail
  {
    var text := head + [c] + tail;
    assert |s[start..]| == |text|;
    assert forall j :: 0 <= j < |text| ==> s[start + j] == text[j];
    assert text[..|head|] == head && text[|head|] == c && text[|head| + 1..] == tail;
  }

  /** The characters of a slice known to be a concatenation. */
  lemma Inside(s: string, i: nat, head: string, tail: string)
    requires i + |head| + |tail| <= |s| && s[i..i + |head| + |tail|] == head + tail
    ensures s[i..i + |head|] == head && s[i + |head|..i + |head| + |tail|] == tail
  {
    var text := head + tail;
    assert forall j :: 0 <= j < |text| ==> s[i + j] == text[j];
    assert text[..|head|] == head && text[|head|..] == tail;
  }

  lemma Shifted<T>(done: seq<T>, x: T, rest: seq<T>)
    ensures done + [x] + rest == done + ([x] + rest)
  {}

  /** A non-empty list: what a text is cut into. */
  datatype Pieces<T> = Final(x: T) | Then(x: T, rest: Pieces<T>)

  function Items<T>(p: Pieces<T>): (items: seq<T>)
    ensures items != []
  {
    match p
    case Final(x) => [x]
    case Then(x, rest) => [x] + Items(rest)
  }

  lemma ItemsMore<T>(done: seq<T>, x: T, rest: Pieces<T>)
    ensures done + Items(Then(x, rest)) == done + [x] + Items(rest)
  {}
}
