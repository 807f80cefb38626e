/** The CSV field tokenizer.

The specification toggles at every quote; the tokenizer skips a doubled quote inside quotes instead,
which comes to the same thing, and tracks on the fly whether a field holds a quote. */
module Csv {
  import opened Collections
  import opened Text

  const QUOTE: char := '\"'

  // ---------- specification ----------

  /** The first comma at or after `i` that is outside quotes, starting inside quotes or not. */
  function Separator(s: string, i: nat, inQuotes: bool): (r: Option<nat>)
    ensures r.Some? ==> i <= r.value < |s| && s[r.value] == ','
    decreases |s| - i
  {
    if i >= |s| then None
    else if s[i] == ',' && !inQuotes then Some(i)
    else Separator(s, i + 1, if s[i] == QUOTE then !inQuotes else inQuotes)
  }

  /** `replace` of a doubled quote by one quote, leftmost first. */
  function Collapse(s: string): string {
    if s == [] then []
    else if |s| >= 2 && s[0] == QUOTE && s[1] == QUOTE then [QUOTE] + Collapse(s[2..])
    else [s[0]] + Collapse(s[1..])
  }

  function StripPrefix(s: string): string {
    if s != [] && s[0] == QUOTE then s[1..] else s
  }

  function StripSuffix(s: string): string {
    if s != [] && Last(s) == QUOTE then Init(s) else s
  }

  /** What a field means: a clean one is trimmed, a quoted one loses one wrapping pair first. */
  function Finish(raw: string, dirty: bool): string {
    if !dirty then Trim(raw) else Trim(Collapse(StripSuffix(StripPrefix(Trim(raw)))))
  }

  /** The text from `start` on, cut at the separators. */
  function Cut(s: string, start: nat): Pieces<string>
    requires start <= |s|
    decreases |s| - start
  {
    match Separator(s, start, false)
    case None => Final(s[start..])
    case Some(i) => Then(s[start..i], Cut(s, i + 1))
  }

  function Field(raw: string): string {
    Finish(raw, QUOTE in raw)
  }

  function Finished(raws: seq<string>): (r: seq<string>)
    ensures |r| == |raws| && forall i :: 0 <= i < |raws| ==> r[i] == Field(raws[i])
  {
    seq(|raws|, i requires 0 <= i < |raws| => Field(raws[i]))
  }

  function Fields(s: string): seq<string> {
    Finished(Items(Cut(s, 0)))
  }

  // ---------- the tokenizer ----------

  lemma CutAt(s: string, start: nat, i: nat)
    requires start <= i < |s| && s[i] == ',' && Separator(s, start, false) == Separator(s, i, false)
    ensures Cut(s, start) == Then(s[start..i], Cut(s, i + 1))
  {}

  /** Whether a quote lies between `start` and `i`. */
  predicate QuoteSeen(s: string, start: nat, i: nat)
    requires start <= i <= |s|
  {
    start < i && (s[i - 1] == QUOTE || QuoteSeen(s, start, i - 1))
  }

  lemma {:induction false} QuoteSeenIff(s: string, start: nat, i: nat)
    requires start <= i <= |s|
    ensures QuoteSeen(s, start, i) <==> QUOTE in s[start..i]
  {
    if start < i {
      QuoteSeenIff(s, start, i - 1);
      assert s[start..i] == s[start..i - 1] + [s[i - 1]];
    }
  }

  /** Finishes the field between `start` and `i`, given whether a quote was seen in it. */
  method FinishCsvField(s: string, start: nat, i: nat, dirty: bool) returns (field: string)
    requires start <= i <= |s| && dirty == QuoteSeen(s, start, i)
    ensures field == Field(s[start..i])
  {
    QuoteSeenIff(s, start, i);
    field := Finish(s[start..i], dirty);
  }

  lemma FinishedPush(raws: seq<string>, raw: string)
    ensures Finished(raws + [raw]) == Finished(raws) + [Field(raw)]
  {}

  /** The scan stands at `i` and has cut `raws` off; the field under way began at `start`. */
  ghost predicate Scanned(s: string, start: nat, i: nat, inQuotes: bool, dirty: bool, raws: seq<string>) {
    && start <= i <= |s|
    && dirty == QuoteSeen(s, start, i)
    && Separator(s, start, false) == Separator(s, i, inQuotes)
    && raws + Items(Cut(s, start)) == Items(Cut(s, 0))
  }

  lemma ScanStart(s: string)
    ensures Scanned(s, 0, 0, false, false, [])
  {
    assert [] + Items(Cut(s, 0)) == Items(Cut(s, 0));
  }

  lemma ScanPair(s: string, start: nat, i: nat, dirty: bool, raws: seq<string>)
    requires Scanned(s, start, i, true, dirty, raws) && i + 1 < |s| && s[i] == s[i + 1] == QUOTE
    ensures Scanned(s, start, i + 2, true, true, raws)
  {
    ScanOne(s, start, i, true, dirty, raws);
    ScanOne(s, start, i + 1, false, true, raws);
  }

  lemma ScanOne(s: string, start: nat, i: nat, inQuotes: bool, dirty: bool, raws: seq<string>)
    requires Scanned(s, start, i, inQuotes, dirty, raws) && i < |s| && !(s[i] == ',' && !inQuotes)
    ensures var quote := s[i] == QUOTE;
            Scanned(s, start, i + 1, if quote then !inQuotes else inQuotes, dirty || quote, raws)
  {}

  lemma ScanComma(s: string, start: nat, i: nat, dirty: bool, raws: seq<string>)
    requires Scanned(s, start, i, false, dirty, raws) && i < |s| && s[i] == ','
    ensures Scanned(s, i + 1, i + 1, false, false, raws + [s[start..i]])
  {
    CutAt(s, start, i);
    ItemsMore(raws, s[start..i], Cut(s, i + 1));
  }

  lemma ScanEnd(s: string, start: nat, inQuotes: bool, dirty: bool, raws: seq<string>)
    requires Scanned(s, start, |s|, inQuotes, dirty, raws)
    ensures Items(Cut(s, 0)) == raws + [s[start..|s|]]
  {
    assert s[start..] == s[start..|s|];
    assert Cut(s, start) == Final(s[start..|s|]) && Items(Cut(s, start)) == [s[start..|s|]];
  }

  /** Appends one finished field to the finished fields of `raws`. */
  method PushField(fields: seq<string>, ghost raws: seq<string>, s: string, start: nat, i: nat, dirty: bool)
    returns (fields': seq<string>)
    requires start <= i <= |s| && dirty == QuoteSeen(s, start, i) && fields == Finished(raws)
    ensures fields' == Finished(raws + [s[start..i]])
  {
    var field := FinishCsvField(s, start, i, dirty);
    FinishedPush(raws, s[start..i]);
    fields' := fields + [field];
  }

  /** Ends the field under way at a comma. */
  method EndField(s: string, start: nat, i: nat, dirty: bool, fields: seq<string>, ghost raws: seq<string>)
    returns (fields': seq<string>, ghost raws': seq<string>)
    requires Scanned(s, start, i, false, dirty, raws) && i < |s| && s[i] == ',' && fields == Finished(raws)
    ensures Scanned(s, i + 1, i + 1, false, false, raws') && fields' == Finished(raws')
  {
    ScanComma(s, start, i, dirty, raws);
    fields' := PushField(fields, raws, s, start, i, dirty);
    raws' := raws + [s[start..i]];
  }

  /** Ends the last field. */
  method EndLine(s: string, start: nat, inQuotes: bool, dirty: bool, fields: seq<string>, ghost raws: seq<string>)
    returns (fields': seq<string>)
    requires Scanned(s, start, |s|, inQuotes, dirty, raws) && fields == Finished(raws)
    ensures fields' == Fields(s)
  {
    ScanEnd(s, start, inQuotes, dirty, raws);
    fields' := PushField(fields, raws, s, start, |s|, dirty);
  }

  method SplitCsv(input: string) returns (fields: seq<string>)
    ensures fields == Fields(input)
  {
    fields := [];
    ghost var raws: seq<string> := [];
    var inQuotes, dirty, start, i := false, false, 0, 0;
    ScanStart(input);
    while i < |input|
      invariant Scanned(input, start, i, inQuotes, dirty, raws) && fields == Finished(raws)
    {
      if input[i] == QUOTE && inQuotes && i + 1 < |input| && input[i + 1] == QUOTE {
        ScanPair(input, start, i, dirty, raws);
        dirty := true;
        i := i + 2;
      } else if input[i] == QUOTE {
        ScanOne(input, start, i, inQuotes, dirty, raws);
        dirty := true;
        inQuotes := !inQuotes;
        i := i + 1;
      } else if input[i] == ',' && !inQuotes {
        fields, raws := EndField(input, start, i, dirty, fields, raws);
        start := i + 1;
        dirty := false;
        i := i + 1;
      } else {
        ScanOne(input, start, i, inQuotes, dirty, raws);
        i := i + 1;
      }
    }
    fields := EndLine(input, start, inQuotes, dirty, fields, raws);
  }

  // ---------- writing, and reading back ----------

  /** A cell as section 2 of RFC 4180 writes it: bare, or between quotes with inner quotes doubled. */
  datatype Cell = Bare(text: string) | Quoted(text: string)

  /** Bare cells hold neither commas nor quotes. */
  predicate Legal(c: Cell) {
    c.Bare? ==> ',' !in c.text && QUOTE !in c.text
  }

  /** A row has at least one cell. */
  type Row = Pieces<Cell>

  predicate AllLegal(row: Row) {
    Legal(row.x) && (row.Then? ==> AllLegal(row.rest))
  }

  function Double(s: string): string {
    if s == [] then [] else (if s[0] == QUOTE then [QUOTE, QUOTE] else [s[0]]) + Double(s[1..])
  }

  function WriteCell(c: Cell): string {
    match c
    case Bare(text) => text
    case Quoted(text) => [QUOTE] + Double(text) + [QUOTE]
  }

  function Write(row: Row): string {
    match row
    case Final(c) => WriteCell(c)
    case Then(c, rest) => WriteCell(c) + [','] + Write(rest)
  }

  function Texts(row: Row): (r: seq<string>)
    ensures r != []
  {
    match row
    case Final(c) => [c.text]
    case Then(c, rest) => [c.text] + Texts(rest)
  }

  function TrimmedTexts(texts: seq<string>): (r: seq<string>)
    ensures |r| == |texts| && forall i :: 0 <= i < |texts| ==> r[i] == Trim(texts[i])
  {
    seq(|texts|, i requires 0 <= i < |texts| => Trim(texts[i]))
  }

  lemma {:induction false} DoubleSkipped(s: string, i: nat, text: string)
    requires i + |Double(text)| <= |s| && s[i..i + |Double(text)|] == Double(text)
    ensures Separator(s, i, true) == Separator(s, i + |Double(text)|, true)
    decreases |text|
  {
    if text != [] {
      var head, tail := if text[0] == QUOTE then [QUOTE, QUOTE] else [text[0]], Double(text[1..]);
      Inside(s, i, head, tail);
      assert s[i] == s[i..i + |head|][0];
      assert text[0] == QUOTE ==> s[i + 1] == s[i..i + 2][1];
      DoubleSkipped(s, i + |head|, text[1..]);
    }
  }

  lemma {:induction false} CleanSkipped(s: string, i: nat, text: string)
    requires i + |text| <= |s| && s[i..i + |text|] == text && ',' !in text && QUOTE !in text
    ensures Separator(s, i, false) == Separator(s, i + |text|, false)
    decreases |text|
  {
    if text != [] {
      assert text == [text[0]] + text[1..];
      Inside(s, i, [text[0]], text[1..]);
      assert s[i] == s[i..i + 1][0];
      CleanSkipped(s, i + 1, text[1..]);
    }
  }

  lemma CellSkipped(s: string, i: nat, c: Cell)
    requires Legal(c) && i + |WriteCell(c)| <= |s| && s[i..i + |WriteCell(c)|] == WriteCell(c)
    ensures Separator(s, i, false) == Separator(s, i + |WriteCell(c)|, false)
  {
    match c {
      case Bare(text) => CleanSkipped(s, i, text);
      case Quoted(text) =>
        var d := Double(text);
        Inside(s, i, [QUOTE] + d, [QUOTE]);
        Inside(s, i, [QUOTE], d);
        assert s[i] == s[i..i + 1][0] == QUOTE;
        assert s[i + 1 + |d|] == s[i + 1 + |d|..i + 2 + |d|][0] == QUOTE;
        DoubleSkipped(s, i + 1, text);
    }
  }

  lemma {:induction false} CollapseDouble(s: string)
    ensures Collapse(Double(s)) == s
  {
    if s != [] {
      CollapseDouble(s[1..]);
      var tail := Double(s[1..]);
      assert s == [s[0]] + s[1..];
      if s[0] == QUOTE {
        assert ([QUOTE, QUOTE] + tail)[2..] == tail;
      } else {
        assert ([s[0]] + tail)[1..] == tail;
      }
    }
  }

  lemma QuotedStays(d: string)
    ensures var s := [QUOTE] + d + [QUOTE];
            QUOTE in s && Trim(s) == s && StripPrefix(s) == d + [QUOTE] && StripSuffix(d + [QUOTE]) == d
  {
    var s := [QUOTE] + d + [QUOTE];
    assert s[0] == QUOTE && Last(s) == QUOTE && !IsWhitespace(QUOTE);
    assert TrimStart(s, IsWhitespace) == s && TrimEnd(s, IsWhitespace) == s;
    assert s[1..] == d + [QUOTE];
    assert Last(d + [QUOTE]) == QUOTE && Init(d + [QUOTE]) == d;
  }

  lemma CellReads(c: Cell)
    requires Legal(c)
    ensures Field(WriteCell(c)) == Trim(c.text)
  {
    match c {
      case Bare(text) =>
      case Quoted(text) =>
        QuotedStays(Double(text));
        CollapseDouble(text);
    }
  }

  function Written(row: Row): Pieces<string> {
    match row
    case Final(c) => Final(WriteCell(c))
    case Then(c, rest) => Then(WriteCell(c), Written(rest))
  }

  lemma LastCell(s: string, start: nat, c: Cell)
    requires Legal(c) && start <= |s| && s[start..] == WriteCell(c)
    ensures Cut(s, start) == Final(WriteCell(c))
  {
    assert s[start..start + |WriteCell(c)|] == WriteCell(c);
    CellSkipped(s, start, c);
  }

  lemma FirstCell(s: string, start: nat, c: Cell, rest: string)
    requires Legal(c) && start <= |s| && s[start..] == WriteCell(c) + [','] + rest
    ensures var next := start + |WriteCell(c)| + 1;
            next <= |s| && s[next..] == rest && Cut(s, start) == Then(WriteCell(c), Cut(s, next))
  {
    Around(s, start, WriteCell(c), ',', rest);
    CellSkipped(s, start, c);
    CutAt(s, start, start + |WriteCell(c)|);
  }

  lemma {:induction false} CutWritten(s: string, start: nat, row: Row)
    requires AllLegal(row) && start <= |s| && s[start..] == Write(row)
    ensures Cut(s, start) == Written(row)
    decreases row
  {
    match row {
      case Final(c) => LastCell(s, start, c);
      case Then(c, rest) =>
        FirstCell(s, start, c, Write(rest));
        CutWritten(s, start + |WriteCell(c)| + 1, rest);
    }
  }

  lemma FinishedCons(raw: string, raws: seq<string>)
    ensures Finished([raw] + raws) == [Field(raw)] + Finished(raws)
  {}

  lemma TrimmedTextsCons(text: string, texts: seq<string>)
    ensures TrimmedTexts([text] + texts) == [Trim(text)] + TrimmedTexts(texts)
  {}

  lemma {:induction false} FinishedWritten(row: Row)
    requires AllLegal(row)
    ensures Finished(Items(Written(row))) == TrimmedTexts(Texts(row))
  {
    CellReads(row.x);
    match row {
      case Final(c) =>
      case Then(c, rest) =>
        FinishedWritten(rest);
        FinishedCons(WriteCell(c), Items(Written(rest)));
        TrimmedTextsCons(c.text, Texts(rest));
    }
  }

  /** Reading back a written row gives every cell's text, trimmed, whatever commas, quotes and line
  breaks the quoted cells hold. */
  lemma ReadWrite(row: Row)
    requires AllLegal(row)
    ensures Fields(Write(row)) == TrimmedTexts(Texts(row))
  {
    assert Write(row)[0..] == Write(row);
    CutWritten(Write(row), 0, row);
    FinishedWritten(row);
  }

  /** The round trip is exact if and only if no cell has surrounding white space. */
  lemma RoundTripIff(row: Row)
    requires AllLegal(row)
    ensures var texts := Texts(row);
            Fields(Write(row)) == texts <==> forall i :: 0 <= i < |texts| ==> Trim(texts[i]) == texts[i]
  {
    ReadWrite(row);
  }

  /** A quote that is never closed still opens its field: the text after it is read to the end. */
  lemma UnterminatedReads(text: string)
    requires text != [] && QUOTE !in text && Text.Trimmed(text, IsWhitespace)
    ensures Fields([QUOTE] + text) == [text]
  {
    var s := [QUOTE] + text;
    assert s[1..] == text;
    InsideQuotes(s, 1);
    assert Cut(s, 0) == Final(s[0..]) && s[0..] == s;
    OpenFieldReads(text);
    assert Finished([s]) == [Field(s)];
  }

  lemma {:induction false} InsideQuotes(s: string, i: nat)
    requires forall j :: i <= j < |s| ==> s[j] != QUOTE
    ensures Separator(s, i, true) == None
    decreases |s| - i
  {
    if i < |s| { InsideQuotes(s, i + 1); }
  }

  lemma OpenFieldReads(text: string)
    requires text != [] && QUOTE !in text && Text.Trimmed(text, IsWhitespace)
    ensures Field([QUOTE] + text) == text
  {
    var s := [QUOTE] + text;
    TrimExact([], text, [], IsWhitespace);
    TrimExact([], s, [], IsWhitespace);
    assert [] + text + [] == text && [] + s + [] == s && s[0] == QUOTE;
    assert StripPrefix(s) == text && StripSuffix(text) == text;
    CollapseClean(text);
  }

  lemma {:induction false} CollapseClean(s: string)
    requires QUOTE !in s
    ensures Collapse(s) == s
  {
    if s != [] {
      CollapseClean(s[1..]);
      assert s == [s[0]] + s[1..];
    }
  }
}
