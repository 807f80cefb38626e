/** The CEF header splitter and its unescaper. */
module Cef {
  import opened Collections
  import opened Text

  // ---------- specification ----------

  /** The first pipe at or after `i` that no backslash escapes. */
  function Separator(s: string, i: nat): (r: Option<nat>)
    ensures r.Some? ==> i <= r.value < |s| && s[r.value] == '|'
    decreases |s| - i
  {
    if i >= |s| then None
    else if s[i] == '\\' then Separator(s, i + 2)
    else if s[i] == '|' then Some(i)
    else Separator(s, i + 1)
  }

  /** What an escaped character stands for. */
  function Escaped(c: char): char {
    if c == 'r' then '\r' else if c == 'n' then '\n' else c
  }

  function Unescape(s: string): string {
    if s == [] then []
    else if s[0] != '\\' then [s[0]] + Unescape(s[1..])
    else if |s| == 1 then s
    else [Escaped(s[1])] + Unescape(s[2..])
  }

  /** The text from `start` on, cut at no more than `n` separators. */
  function Cut(s: string, start: nat, n: nat): Pieces<string>
    requires start <= |s|
    decreases n
  {
    if n == 0 || Separator(s, start).None? then Final(s[start..])
    else
      var i := Separator(s, start).value;
      Then(s[start..i], Cut(s, i + 1, n - 1))
  }

  function Unescaped(raws: seq<string>): (r: seq<string>)
    ensures |r| == |raws| && forall i :: 0 <= i < |raws| ==> r[i] == Unescape(raws[i])
  {
    seq(|raws|, i requires 0 <= i < |raws| => Unescape(raws[i]))
  }

  /** The header fields unescaped, then the remainder as it stands. */
  function Parts(s: string, n: nat): seq<string> {
    var raws := Items(Cut(s, 0, n));
    Unescaped(Init(raws)) + [Last(raws)]
  }

  // ---------- the splitter ----------

  lemma {:induction false} CleanUnescape(s: string)
    requires '\\' !in s
    ensures Unescape(s) == s
  {
    if s != [] {
      CleanUnescape(s[1..]);
      assert s == [s[0]] + s[1..];
    }
  }

  lemma UnescapeAt(s: string, i: nat)
    requires i < |s|
    ensures s[i] != '\\' ==> Unescape(s[i..]) == [s[i]] + Unescape(s[i + 1..])
    ensures s[i] == '\\' && i + 1 < |s| ==> Unescape(s[i..]) == [Escaped(s[i + 1])] + Unescape(s[i + 2..])
    ensures s[i] == '\\' && i + 1 == |s| ==> Unescape(s[i..]) == ['\\'] + Unescape(s[i + 1..])
  {
    var rest := s[i..];
    assert rest[1..] == s[i + 1..];
    if i + 1 < |s| {
      assert rest[1] == s[i + 1] && rest[2..] == s[i + 2..];
    } else {
      assert rest == [s[i]] && s[i + 1..] == [];
    }
  }

  method UnescapeCef(s: string) returns (out: string)
    ensures out == Unescape(s)
  {
    if '\\' !in s {
      CleanUnescape(s);
      return s;
    }
    out := [];
    var i := 0;
    assert s[0..] == s;
    while i < |s|
      invariant i <= |s|
      invariant out + Unescape(s[i..]) == Unescape(s)
    {
      UnescapeAt(s, i);
      var c, width := s[i], 1;
      if s[i] == '\\' && i + 1 < |s| {
        c, width := if s[i + 1] == 'r' then '\r' else if s[i + 1] == 'n' then '\n' else s[i + 1], 2;
      }
      Shifted(out, c, Unescape(s[i + width..]));
      out := out + [c];
      i := i + width;
    }
    assert s[|s|..] == [];
  }

  lemma CutAt(s: string, start: nat, i: nat, n: nat)
    requires start <= i < |s| && s[i] == '|' && n > 0 && Separator(s, start) == Separator(s, i)
    ensures Cut(s, start, n) == Then(s[start..i], Cut(s, i + 1, n - 1))
  {}

  lemma UnescapedPush(raws: seq<string>, raw: string)
    ensures Unescaped(raws + [raw]) == Unescaped(raws) + [Unescape(raw)]
  {}

  /** The scan stands at `i`, has cut `raws` off, and still has `n` cuts to make from `start` on. */
  ghost predicate Scanned(s: string, limit: nat, start: nat, i: nat, n: nat, raws: seq<string>) {
    && start <= |s| && start <= i
    && Separator(s, start) == Separator(s, i)
    && raws + Items(Cut(s, start, n)) == Items(Cut(s, 0, limit))
  }

  lemma ScanPast(s: string, limit: nat, start: nat, i: nat, n: nat, raws: seq<string>)
    requires Scanned(s, limit, start, i, n, raws) && i < |s| && s[i] != '|'
    ensures Scanned(s, limit, start, if s[i] == '\\' then i + 2 else i + 1, n, raws)
  {}

  lemma ScanPipe(s: string, limit: nat, start: nat, i: nat, n: nat, raws: seq<string>)
    requires Scanned(s, limit, start, i, n, raws) && i < |s| && s[i] == '|' && n > 0
    ensures Scanned(s, limit, i + 1, i + 1, n - 1, raws + [s[start..i]])
  {
    CutAt(s, start, i, n);
    ItemsMore(raws, s[start..i], Cut(s, i + 1, n - 1));
  }

  lemma ScanStart(s: string, limit: nat)
    ensures Scanned(s, limit, 0, 0, limit, [])
  {
    assert [] + Items(Cut(s, 0, limit)) == Items(Cut(s, 0, limit));
  }

  lemma ScanEnd(s: string, limit: nat, start: nat, i: nat, n: nat, raws: seq<string>)
    requires Scanned(s, limit, start, i, n, raws) && (n == 0 || i >= |s|)
    ensures Items(Cut(s, 0, limit)) == raws + [s[start..]]
  {}

  lemma ScanParts(s: string, limit: nat, start: nat, i: nat, n: nat, raws: seq<string>)
    requires Scanned(s, limit, start, i, n, raws) && (n == 0 || i >= |s|)
    ensures Parts(s, limit) == Unescaped(raws) + [s[start..]]
  {
    ScanEnd(s, limit, start, i, n, raws);
    assert Init(raws + [s[start..]]) == raws;
  }

  /** Appends one unescaped field to the unescaped fields of `raws`. */
  method PushField(parts: seq<string>, ghost raws: seq<string>, raw: string) returns (parts': seq<string>)
    requires parts == Unescaped(raws)
    ensures parts' == Unescaped(raws + [raw])
  {
    var field := UnescapeCef(raw);
    UnescapedPush(raws, raw);
    parts' := parts + [field];
  }

  method SplitAtPipes(input: string, limit: nat) returns (parts: seq<string>)
    ensures parts == Parts(input, limit)
  {
    parts := [];
    ghost var raws := [];
    var start, i, splits := 0, 0, 0;
    ScanStart(input, limit);
    while i < |input| && splits < limit
      invariant splits <= limit && start <= i && start <= |input|
      invariant Scanned(input, limit, start, i, limit - splits, raws) && parts == Unescaped(raws)
      decreases |input| - i
    {
      if input[i] == '\\' {
        ScanPast(input, limit, start, i, limit - splits, raws);
        i := i + 2;
        continue;
      }
      if input[i] == '|' {
        ScanPipe(input, limit, start, i, limit - splits, raws);
        parts := PushField(parts, raws, input[start..i]);
        raws := raws + [input[start..i]];
        start := i + 1;
        splits := splits + 1;
      } else {
        ScanPast(input, limit, start, i, limit - splits, raws);
      }
      i := i + 1;
    }
    ScanParts(input, limit, start, i, limit - splits, raws);
    parts := parts + [input[start..]];
  }

  method SplitCefHeader(input: string) returns (parts: seq<string>)
    ensures parts == Parts(input, 7)
    ensures forall fields, extension :: |fields| == 7 && input == Write(fields, extension) ==> parts == fields + [extension]
  {
    parts := SplitAtPipes(input, 7);
    forall fields, extension | |fields| == 7 && input == Write(fields, extension)
      ensures parts == fields + [extension]
    {
      HeaderRoundTrip(fields, extension);
    }
  }

  // ---------- writing, and reading back ----------

  /** How a header field is written so that it reads back. */
  function EscapeChar(c: char): string {
    if c == '\\' then "\\\\"
    else if c == '|' then "\\|"
    else if c == '\r' then "\\r"
    else if c == '\n' then "\\n"
    else [c]
  }

  function Escape(s: string): string {
    if s == [] then [] else EscapeChar(s[0]) + Escape(s[1..])
  }

  /** The header fields followed by the extension. */
  function Header(fields: seq<string>, extension: string): Pieces<string> {
    if fields == [] then Final(extension) else Then(fields[0], Header(fields[1..], extension))
  }

  function WriteHeader(header: Pieces<string>): string {
    match header
    case Final(extension) => extension
    case Then(field, rest) => Escape(field) + ['|'] + WriteHeader(rest)
  }

  function Write(fields: seq<string>, extension: string): string {
    WriteHeader(Header(fields, extension))
  }

  lemma UnescapeFirst(c: char, tail: string)
    ensures Unescape(EscapeChar(c) + tail) == [c] + Unescape(tail)
  {
    var s := EscapeChar(c) + tail;
    assert s[|EscapeChar(c)|..] == tail;
    assert s[0] == EscapeChar(c)[0];
    assert |EscapeChar(c)| == 2 ==> s[1] == EscapeChar(c)[1];
  }

  lemma {:induction false} UnescapeEscape(s: string)
    ensures Unescape(Escape(s)) == s
  {
    if s != [] {
      UnescapeEscape(s[1..]);
      UnescapeFirst(s[0], Escape(s[1..]));
      assert s == [s[0]] + s[1..];
    }
  }

  /** No pipe in the text is unescaped, and no backslash at its end escapes what follows. */
  predicate Quiet(e: string) {
    e == [] || (if e[0] == '\\' then |e| > 1 && Quiet(e[2..]) else e[0] != '|' && Quiet(e[1..]))
  }

  lemma QuietFirst(c: char, tail: string)
    requires Quiet(tail)
    ensures Quiet(EscapeChar(c) + tail)
  {
    var e := EscapeChar(c) + tail;
    assert e[|EscapeChar(c)|..] == tail && e[0] == EscapeChar(c)[0];
  }

  lemma {:induction false} EscapeIsQuiet(field: string)
    ensures Quiet(Escape(field))
  {
    if field != [] {
      EscapeIsQuiet(field[1..]);
      QuietFirst(field[0], Escape(field[1..]));
    }
  }

  lemma TailAt(s: string, i: nat, e: string, k: nat)
    requires i + |e| <= |s| && s[i..i + |e|] == e && k <= |e|
    ensures s[i + k..i + |e|] == e[k..]
    ensures e != [] ==> s[i] == e[0]
  {
    assert s[i..i + |e|][k..] == s[i + k..i + |e|];
  }

  lemma {:induction false} QuietSkipped(s: string, i: nat, e: string)
    requires Quiet(e) && i + |e| <= |s| && s[i..i + |e|] == e
    ensures Separator(s, i) == Separator(s, i + |e|)
    decreases |e|
  {
    if e != [] {
      var k := if e[0] == '\\' then 2 else 1;
      TailAt(s, i, e, k);
      QuietSkipped(s, i + k, e[k..]);
    }
  }

  function Written(header: Pieces<string>): Pieces<string> {
    match header
    case Final(extension) => Final(extension)
    case Then(field, rest) => Then(Escape(field), Written(rest))
  }

  function Fields(header: Pieces<string>): nat {
    if header.Final? then 0 else 1 + Fields(header.rest)
  }

  lemma FirstField(s: string, start: nat, field: string, rest: string, n: nat)
    requires start <= |s| && s[start..] == Escape(field) + ['|'] + rest && n > 0
    ensures var next := start + |Escape(field)| + 1;
            next <= |s| && s[next..] == rest && Cut(s, start, n) == Then(Escape(field), Cut(s, next, n - 1))
  {
    Around(s, start, Escape(field), '|', rest);
    EscapeIsQuiet(field);
    QuietSkipped(s, start, Escape(field));
    CutAt(s, start, start + |Escape(field)|, n);
  }

  lemma CutField(s: string, start: nat, header: Pieces<string>)
    requires header.Then? && start <= |s| && s[start..] == WriteHeader(header)
    ensures var next := start + |Escape(header.x)| + 1;
            && next <= |s| && s[next..] == WriteHeader(header.rest)
            && Cut(s, start, Fields(header)) == Then(Escape(header.x), Cut(s, next, Fields(header.rest)))
  {
    FirstField(s, start, header.x, WriteHeader(header.rest), Fields(header));
  }

  lemma {:induction false} CutWritten(s: string, start: nat, header: Pieces<string>)
    requires start <= |s| && s[start..] == WriteHeader(header)
    ensures Cut(s, start, Fields(header)) == Written(header)
    decreases header
  {
    if header.Then? {
      CutField(s, start, header);
      CutWritten(s, start + |Escape(header.x)| + 1, header.rest);
    }
  }

  lemma {:induction false} HeaderItems(fields: seq<string>, extension: string)
    ensures Fields(Header(fields, extension)) == |fields|
    ensures var raws := Items(Written(Header(fields, extension)));
            Unescaped(Init(raws)) == fields && Last(raws) == extension
  {
    if fields != [] {
      var rest := Items(Written(Header(fields[1..], extension)));
      HeaderItems(fields[1..], extension);
      UnescapeEscape(fields[0]);
      UnescapedCons(Escape(fields[0]), Init(rest));
      assert Init([Escape(fields[0])] + rest) == [Escape(fields[0])] + Init(rest);
      assert fields == [fields[0]] + fields[1..];
    }
  }

  lemma UnescapedCons(raw: string, raws: seq<string>)
    ensures Unescaped([raw] + raws) == [Unescape(raw)] + Unescaped(raws)
  {}

  /** Any header fields, holding any characters, and any extension read back unchanged; a CEF header
  has seven. */
  lemma HeaderRoundTrip(fields: seq<string>, extension: string)
    ensures Parts(Write(fields, extension), |fields|) == fields + [extension]
  {
    var s := Write(fields, extension);
    assert s[0..] == s;
    CutWritten(s, 0, Header(fields, extension));
    HeaderItems(fields, extension);
  }

  // ---------- unknown escapes ----------

  lemma {:induction false} UnescapeShrinks(s: string)
    ensures |Unescape(s)| <= |s|
    ensures |Unescape(s)| == |s| ==> '\\' !in s || '\\' !in Init(s)
  {
    if s != [] {
      if s[0] != '\\' {
        UnescapeShrinks(s[1..]);
        assert s == [s[0]] + s[1..];
        if |s| > 1 { assert Init(s) == [s[0]] + Init(s[1..]); }
      } else if |s| > 1 {
        UnescapeShrinks(s[2..]);
      }
    }
  }

  lemma {:induction false} TrailingUnescape(s: string)
    requires s != [] && '\\' !in Init(s)
    ensures Unescape(s) == s
  {
    if |s| > 1 {
      assert s[0] == Init(s)[0];
      assert Init(s[1..]) == Init(s)[1..];
      TrailingUnescape(s[1..]);
    }
    assert s == [s[0]] + s[1..];
  }

  /** Unescaping leaves a text as it is exactly when no backslash is followed by anything. */
  lemma UnescapeKeepsIff(s: string)
    ensures Unescape(s) == s <==> s == [] || '\\' !in Init(s)
  {
    UnescapeShrinks(s);
    if s != [] && '\\' !in Init(s) { TrailingUnescape(s); }
    if s != [] && '\\' !in s { assert forall i :: 0 <= i < |s| - 1 ==> Init(s)[i] == s[i]; }
  }

  /** The escapes the documentation names. */
  predicate Known(c: char) {
    c in {'|', '=', '\\', 'r', 'n'}
  }

  /** Unescaping as documented: an unknown escape stays as it stands. */
  function Documented(s: string): string {
    if s == [] then []
    else if s[0] != '\\' then [s[0]] + Documented(s[1..])
    else if |s| == 1 then s
    else (if Known(s[1]) then [Escaped(s[1])] else s[..2]) + Documented(s[2..])
  }

  /** Every escape in the text is a known one. */
  predicate OnlyKnown(s: string) {
    s == [] || (if s[0] != '\\' then OnlyKnown(s[1..]) else |s| == 1 || (Known(s[1]) && OnlyKnown(s[2..])))
  }

  lemma {:induction false} UnknownShortens(s: string)
    ensures |Unescape(s)| <= |Documented(s)|
    ensures |Unescape(s)| == |Documented(s)| <==> OnlyKnown(s)
    ensures OnlyKnown(s) ==> Unescape(s) == Documented(s)
  {
    if s != [] {
      if s[0] != '\\' {
        UnknownShortens(s[1..]);
      } else if |s| > 1 {
        UnknownShortens(s[2..]);
      }
    }
  }

  /** The code unescapes as documented if and only if every escape in the text is a known one. */
  lemma DocumentedIff(s: string)
    ensures Unescape(s) == Documented(s) <==> OnlyKnown(s)
  {
    UnknownShortens(s);
  }

  /** The smallest texts that show it: an unknown escape loses its backslash. */
  lemma UnknownEscapeDropped(c: char)
    requires !Known(c)
    ensures Unescape(['\\', c]) == [c] && Documented(['\\', c]) == ['\\', c]
  {
    assert ['\\', c][2..] == [] && ['\\', c][..2] == ['\\', c];
  }
}
