/** Where signatures and classification part ways: the CEF bucket.

The signature looks for `CEF:` anywhere in the first 96 bytes before any other anchor. The classifier
takes whichever pattern stands leftmost in the whole line. The other buckets, the hash itself and the
classifier's structural fallback are parameters. */
module Signatures {
  import opened Collections
  import opened SignatureCache
  import P = Pipeline
  import Routing = PipelineRouting
  import R = Registry

  const CEF: string := "CEF:"
  const ASA: string := "%ASA-"
  const WINDOW_BYTES: nat := 96

  // ---------- the signature window ----------

  /** Bytes of a character in UTF-8. */
  function Width(c: char): nat {
    var n := c as int;
    if n < 0x80 then 1 else if n < 0x800 then 2 else if n < 0x10000 then 3 else 4
  }

  /** How many leading characters fit into so many bytes. */
  function Fitting(s: string, bytes: nat): (n: nat)
    ensures n <= |s|
  {
    if s == [] || Width(s[0]) > bytes then 0 else 1 + Fitting(s[1..], bytes - Width(s[0]))
  }

  /** The line's first 96 bytes, cut down to a character boundary. */
  function Window(raw: string): string {
    raw[..Fitting(raw, WINDOW_BYTES)]
  }

  function Bytes(s: string): nat {
    if s == [] then 0 else Width(s[0]) + Bytes(s[1..])
  }

  /** The window is the longest prefix of the line of at most 96 bytes. */
  lemma WindowExact(raw: string)
    ensures var n := |Window(raw)|;
            && n <= |raw| && Window(raw) == raw[..n] && Bytes(Window(raw)) <= 96
            && (n < |raw| ==> Bytes(raw[..n + 1]) > 96)
  {
    FittingExact(raw, WINDOW_BYTES);
  }

  lemma {:induction false} FittingExact(s: string, bytes: nat)
    ensures var n := Fitting(s, bytes); Bytes(s[..n]) <= bytes && (n < |s| ==> Bytes(s[..n + 1]) > bytes)
  {
    var n := Fitting(s, bytes);
    if s != [] && Width(s[0]) <= bytes {
      FittingExact(s[1..], bytes - Width(s[0]));
      assert s[..n][1..] == s[1..][..n - 1];
      if n < |s| { assert s[..n + 1][1..] == s[1..][..n]; }
    } else if s != [] {
      assert s[..1][1..] == [];
    }
  }

  predicate At(s: string, i: nat, p: string) {
    i + |p| <= |s| && s[i..i + |p|] == p
  }

  predicate Contains(s: string, p: string) {
    exists i :: 0 <= i <= |s| && At(s, i, p)
  }

  function Signature(hash: string -> nat, other: string -> nat, raw: string): nat {
    if raw == [] then 0 else if Contains(Window(raw), CEF) then hash("cef_format") else other(raw)
  }

  // ---------- the classifier ----------

  type Table = seq<(string, VendorFormat)>

  const PATTERNS: Table := [
    ("%ASA-", CiscoAsa), ("CEF:", VendorFormat.Cef),
    ("devname=\"", Fortinet), ("type=\"traffic\"", Fortinet), ("logid=\"", Fortinet), ("type=traffic", Fortinet),
    ("devname=", Fortinet),
    ("filterlog[", PfSense), ("filterlog:", PfSense),
    ("{\"timestamp\":", Suricata), ("\"event_type\":", Suricata), ("\"flow\":", Suricata), ("\"alert\":", Suricata),
    (",TRAFFIC,", PaloAlto), (",THREAT,", PaloAlto), (",SYSTEM,", PaloAlto), ("TRAFFIC,drop", PaloAlto),
    ("TRAFFIC,allow", PaloAlto), ("TRAFFIC,start", PaloAlto), ("TRAFFIC,end", PaloAlto), ("PAN-OS", PaloAlto)]

  /** The first pattern of the table, from entry `k` on, that stands at position `i`. */
  function PatternAt(table: Table, s: string, i: nat, k: nat): (r: Option<nat>)
    requires k <= |table|
    ensures r.Some? ==> k <= r.value < |table| && At(s, i, table[r.value].0)
    decreases |table| - k
  {
    if k == |table| then None else if At(s, i, table[k].0) then Some(k) else PatternAt(table, s, i, k + 1)
  }

  /** Leftmost position first, then table order. */
  function Leftmost(table: Table, s: string, i: nat): (r: Option<nat>)
    ensures r.Some? ==> r.value < |table|
    decreases |s| + 1 - i
  {
    if i > |s| then None
    else if PatternAt(table, s, i, 0).Some? then PatternAt(table, s, i, 0)
    else Leftmost(table, s, i + 1)
  }

  function Classify(fallback: string -> VendorFormat, raw: string): VendorFormat {
    match Leftmost(PATTERNS, raw, 0)
    case Some(k) => PATTERNS[k].1
    case None => fallback(raw)
  }

  // ---------- when the two agree ----------

  /** No pattern stands anywhere to the left of `p`. */
  ghost predicate ClearBefore(table: Table, raw: string, p: nat) {
    forall j: nat :: j < p ==> PatternAt(table, raw, j, 0).None?
  }

  lemma {:induction false} LeftmostIs(table: Table, raw: string, i: nat, p: nat)
    requires i <= p <= |raw| && PatternAt(table, raw, p, 0).Some? && ClearBefore(table, raw, p)
    ensures Leftmost(table, raw, i) == PatternAt(table, raw, p, 0)
    decreases p - i
  {
    if i < p {
      assert PatternAt(table, raw, i, 0).None?;
      LeftmostIs(table, raw, i + 1, p);
    }
  }

  /** The first position before `p` where some pattern stands. */
  lemma {:induction false} FirstMatch(table: Table, raw: string, i: nat, p: nat) returns (j: nat)
    requires i <= p && !ClearBefore(table, raw, p) && ClearBefore(table, raw, i)
    ensures i <= j < p && PatternAt(table, raw, j, 0).Some? && ClearBefore(table, raw, j)
    decreases p - i
  {
    if i == p || PatternAt(table, raw, i, 0).Some? { return i; }
    j := FirstMatch(table, raw, i + 1, p);
  }

  lemma FirstChar(s: string, i: nat, p: string)
    requires p != []
    ensures At(s, i, p) ==> s[i] == p[0]
  {
    if At(s, i, p) { assert s[i] == s[i..i + |p|][0]; }
  }

  lemma CefAt(raw: string, p: nat)
    requires At(raw, p, CEF)
    ensures PatternAt(PATTERNS, raw, p, 0) == Some(1)
  {
    FirstChar(raw, p, CEF);
    FirstChar(raw, p, ASA);
    assert PATTERNS[0].0 == ASA && PATTERNS[1].0 == CEF;
    assert PatternAt(PATTERNS, raw, p, 1) == Some(1);
  }

  lemma AsaAt(raw: string, p: nat)
    requires At(raw, p, ASA)
    ensures PatternAt(PATTERNS, raw, p, 0) == Some(0)
  {
    assert PATTERNS[0].0 == ASA;
  }

  lemma OnlyOneCefPattern(k: nat)
    requires k < |PATTERNS|
    ensures PATTERNS[k].1 == VendorFormat.Cef <==> k == 1
  {}

  /** A line whose first `CEF:` stands at `p` is classified as CEF if and only if no pattern of the
  table stands to the left of it. */
  lemma ClassifiedCefIff(fallback: string -> VendorFormat, raw: string, p: nat)
    requires At(raw, p, CEF) && forall j: nat :: j < p ==> !At(raw, j, CEF)
    ensures Classify(fallback, raw) == VendorFormat.Cef <==> ClearBefore(PATTERNS, raw, p)
  {
    CefAt(raw, p);
    if ClearBefore(PATTERNS, raw, p) {
      LeftmostIs(PATTERNS, raw, 0, p);
      OnlyOneCefPattern(1);
    } else {
      var j := FirstMatch(PATTERNS, raw, 0, p);
      LeftmostIs(PATTERNS, raw, 0, j);
      OtherPattern(raw, j, Leftmost(PATTERNS, raw, 0).value);
    }
  }

  lemma OtherPattern(raw: string, j: nat, k: nat)
    requires k < |PATTERNS| && At(raw, j, PATTERNS[k].0) && !At(raw, j, CEF)
    ensures PATTERNS[k].1 != VendorFormat.Cef
  {
    assert PATTERNS[1].0 == CEF;
    OnlyOneCefPattern(k);
  }

  // ---------- the pair that shares a signature ----------

  lemma {:induction false} AsciiFits(s: string, n: nat, bytes: nat)
    requires n <= |s| && n <= bytes && forall i :: 0 <= i < n ==> Width(s[i]) == 1
    ensures Fitting(s, bytes) >= n
  {
    if n > 0 { AsciiFits(s[1..], n - 1, bytes - 1); }
  }

  /** A CEF line and a Cisco line that quotes `CEF:` early have one signature and two formats. */
  ghost predicate SharesBucket(fallback: string -> VendorFormat, cef: string, asa: string) {
    && cef != [] && asa != [] && Contains(Window(cef), CEF) && Contains(Window(asa), CEF)
    && Classify(fallback, cef) == VendorFormat.Cef && Classify(fallback, asa) == CiscoAsa
  }

  lemma StartsWithCef(fallback: string -> VendorFormat, tail: string)
    ensures var raw := CEF + tail; Contains(Window(raw), CEF) && Classify(fallback, raw) == VendorFormat.Cef
  {
    var raw := CEF + tail;
    AsciiFits(raw, 4, WINDOW_BYTES);
    assert At(Window(raw), 0, CEF);
    assert At(raw, 0, CEF);
    ClassifiedCefIff(fallback, raw, 0);
  }

  lemma StartsWithAsa(fallback: string -> VendorFormat, tail: string)
    ensures var raw := ASA + CEF + tail; Contains(Window(raw), CEF) && Classify(fallback, raw) == CiscoAsa
  {
    var raw := ASA + CEF + tail;
    AsciiFits(raw, 9, WINDOW_BYTES);
    assert Window(raw)[5..9] == raw[5..9] == CEF;
    assert At(Window(raw), 5, CEF);
    assert At(raw, 0, ASA);
    AsaAt(raw, 0);
    LeftmostIs(PATTERNS, raw, 0, 0);
  }

  lemma PairsExist(fallback: string -> VendorFormat, x: string, y: string)
    ensures SharesBucket(fallback, CEF + x, ASA + CEF + y)
  {
    StartsWithCef(fallback, x);
    StartsWithAsa(fallback, y);
  }

  ghost function Reality(hash: string -> nat, other: string -> nat, fallback: string -> VendorFormat,
                         extract: (VendorFormat, string) -> Option<string>, matcher: R.Matcher): P.World {
    P.World(raw => Signature(hash, other, raw), raw => Classify(fallback, raw), extract, matcher)
  }

  /** After any CEF line was promoted, the Cisco line is answered by the CEF extractor, and that differs
  from what lossless parsing answers whenever the two extractors differ on it. */
  lemma CiscoLineMisrouted(hash: string -> nat, other: string -> nat, fallback: string -> VendorFormat,
                           extract: (VendorFormat, string) -> Option<string>, matcher: R.Matcher,
                           start: P.State, cef: string, asa: string)
    requires SharesBucket(fallback, cef, asa)
    requires start.cache != [] && Cached(start.cache, hash("cef_format")) == None
    requires extract(VendorFormat.Cef, cef).Some? && extract(VendorFormat.Cef, asa).Some?
    requires extract(VendorFormat.Cef, asa) != extract(CiscoAsa, asa)
    ensures var w := Reality(hash, other, fallback, extract, matcher);
            var s := P.Process(w, start, cef, true).0;
            P.Process(w, s, asa, false).1 == P.Native(extract(VendorFormat.Cef, asa).value, asa) != P.ParseLossless(w, asa)
  {
    Routing.SharedSignatureMisroutes(Reality(hash, other, fallback, extract, matcher), start, cef, asa);
  }
}
