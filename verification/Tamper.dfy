/** The forensic verifier: it re-hashes every stored row, rebuilds the Merkle tree over the raw logs
and compares both with what was recorded. Hashes are kept as digests, not as hex text. */
module Tamper {
  import opened Hashing
  import opened Collections
  import opened Merkle
  import opened MerkleProofs

  const U32: nat := 0x1_0000_0000

  datatype StoredRecord = StoredRecord(eventId: string, blockId: nat, leafIndex: nat, timestamp: int, vendor: string,
                                       rawLog: Bytes, rawHash: Digest, ocsfJson: string)

  datatype LedgerEntry = LedgerEntry(blockId: nat, timestamp: int, leafCount: nat, merkleRoot: Digest)

  datatype TamperReason =
    | DigestMismatch(stored: Digest, calculated: Digest)
    | IndexMismatch(expectedIndex: nat, foundIndex: nat)
    | CountDiscrepancy(expectedCount: nat, actualCount: nat)
    | MerkleRootMismatch(ledgerRoot: Digest, computedRoot: Digest)

  datatype TamperedRecord = TamperedRecord(leafIndex: nat, eventId: string, reason: TamperReason)

  datatype TamperReport = TamperReport(isValid: bool, blockId: nat, ledgerRoot: Digest, computedRoot: Digest,
                                       expectedRecords: nat, actualRecords: nat, tampered: seq<TamperedRecord>)

  /** SHA-256 as the Merkle tree uses it, behind the domain-separation prefixes. */
  function Prefixed(sha256: Bytes -> Digest): Sha {
    (x: Input) => sha256(Encode(x))
  }

  function RawLogs(records: seq<StoredRecord>): (logs: seq<Bytes>)
    ensures |logs| == |records|
    ensures forall i :: 0 <= i < |records| ==> logs[i] == records[i].rawLog
  {
    seq(|records|, i requires 0 <= i < |records| => records[i].rawLog)
  }

  predicate IndexOk(records: seq<StoredRecord>, i: nat)
    requires i < |records|
  {
    records[i].leafIndex == i % U32
  }

  predicate DigestOk(sha256: Bytes -> Digest, r: StoredRecord) {
    sha256(r.rawLog) == r.rawHash
  }

  /** What an untampered block looks like next to its ledger entry. */
  ghost predicate Intact(sha256: Bytes -> Digest, records: seq<StoredRecord>, entry: LedgerEntry) {
    && |records| == entry.leafCount
    && (forall i :: 0 <= i < |records| ==> IndexOk(records, i) && DigestOk(sha256, records[i]))
    && RootOfLogs(Prefixed(sha256), RawLogs(records)) == entry.merkleRoot
  }

  /** The findings about one row: its index, then its digest. */
  function FindingsOfRow(sha256: Bytes -> Digest, records: seq<StoredRecord>, i: nat): seq<TamperedRecord>
    requires i < |records|
  {
    var r := records[i];
    (if IndexOk(records, i) then [] else [TamperedRecord(r.leafIndex, r.eventId, IndexMismatch(i % U32, r.leafIndex))])
    + (if DigestOk(sha256, r) then [] else [DigestFinding(sha256, r)])
  }

  /** The findings of the row loop, row by row. */
  function RowFindings(sha256: Bytes -> Digest, records: seq<StoredRecord>): seq<TamperedRecord> {
    if records == [] then []
    else RowFindings(sha256, Init(records)) + FindingsOfRow(sha256, records, |records| - 1)
  }

  function DigestFinding(sha256: Bytes -> Digest, r: StoredRecord): TamperedRecord {
    TamperedRecord(r.leafIndex, r.eventId, DigestMismatch(r.rawHash, sha256(r.rawLog)))
  }

  /** The report on a block: valid exactly when the block is intact and exactly when there is nothing to
  report, with every finding in order. */
  ghost predicate IsReport(sha256: Bytes -> Digest, records: seq<StoredRecord>, entry: LedgerEntry, report: TamperReport) {
    && (report.isValid <==> Intact(sha256, records, entry))
    && (report.isValid <==> report.tampered == [])
    && report.blockId == entry.blockId && report.ledgerRoot == entry.merkleRoot
    && report.expectedRecords == entry.leafCount && report.actualRecords == |records|
    && report.computedRoot == RootOfLogs(Prefixed(sha256), RawLogs(records))
    && report.tampered == Findings(sha256, records, entry)
  }

  method VerifyRecords(sha256: Bytes -> Digest, records: seq<StoredRecord>, entry: LedgerEntry)
    returns (report: TamperReport)
    ensures IsReport(sha256, records, entry, report)
  {
    var counted: seq<TamperedRecord> := [];
    if |records| != entry.leafCount {
      counted := [TamperedRecord(|records| % U32, "", CountDiscrepancy(entry.leafCount, |records|))];
    }
    var rows := CheckRows(sha256, records);
    var tampered := counted + rows;
    var computedRoot := FromLeafHashes(Prefixed(sha256), LeafHashes(Prefixed(sha256), RawLogs(records))).root;
    var rootMatches := computedRoot == entry.merkleRoot;
    if !rootMatches && tampered == [] {
      tampered := [TamperedRecord(0, "", MerkleRootMismatch(entry.merkleRoot, computedRoot))];
    }
    FindingsEmptyIff(sha256, records, entry);
    report := TamperReport(rootMatches && tampered == [], entry.blockId, entry.merkleRoot, computedRoot,
                           entry.leafCount, |records|, tampered);
  }

  /** The row loop. */
  method CheckRows(sha256: Bytes -> Digest, records: seq<StoredRecord>) returns (tampered: seq<TamperedRecord>)
    ensures tampered == RowFindings(sha256, records)
  {
    tampered := [];
    for i := 0 to |records|
      invariant tampered == RowFindings(sha256, records[..i])
    {
      var record := records[i];
      var found: seq<TamperedRecord> := [];
      if record.leafIndex != i % U32 {
        found := found + [TamperedRecord(record.leafIndex, record.eventId, IndexMismatch(i % U32, record.leafIndex))];
      }
      if sha256(record.rawLog) != record.rawHash {
        found := found + [DigestFinding(sha256, record)];
      }
      assert found == FindingsOfRow(sha256, records[..i + 1], i);
      assert Init(records[..i + 1]) == records[..i];
      tampered := tampered + found;
    }
    assert records[..|records|] == records;
  }

  lemma FindingsEmptyIff(sha256: Bytes -> Digest, records: seq<StoredRecord>, entry: LedgerEntry)
    ensures Findings(sha256, records, entry) == [] <==> Intact(sha256, records, entry)
  {
    RowFindingsEmptyIff(sha256, records);
  }

  function CountFindings(records: seq<StoredRecord>, entry: LedgerEntry): seq<TamperedRecord> {
    if |records| == entry.leafCount then []
    else [TamperedRecord(|records| % U32, "", CountDiscrepancy(entry.leafCount, |records|))]
  }

  /** All findings: the count, then the rows, and the root only when nothing else was found. */
  function Findings(sha256: Bytes -> Digest, records: seq<StoredRecord>, entry: LedgerEntry): seq<TamperedRecord> {
    var root := RootOfLogs(Prefixed(sha256), RawLogs(records));
    var found := CountFindings(records, entry) + RowFindings(sha256, records);
    if found == [] && root != entry.merkleRoot
    then [TamperedRecord(0, "", MerkleRootMismatch(entry.merkleRoot, root))]
    else found
  }

  lemma {:induction false} RowFindingsEmptyIff(sha256: Bytes -> Digest, records: seq<StoredRecord>)
    ensures RowFindings(sha256, records) == []
            <==> forall i :: 0 <= i < |records| ==> IndexOk(records, i) && DigestOk(sha256, records[i])
  {
    if records != [] {
      var init, n := Init(records), |records| - 1;
      RowFindingsEmptyIff(sha256, init);
      assert forall i :: 0 <= i < n ==> init[i] == records[i] && (IndexOk(init, i) <==> IndexOk(records, i));
    }
  }

  // ---------- the digest findings are exactly the rows whose hash disagrees ----------

  function OnlyDigest(found: seq<TamperedRecord>): seq<TamperedRecord> {
    if found == [] then []
    else OnlyDigest(Init(found)) + if Last(found).reason.DigestMismatch? then [Last(found)] else []
  }

  lemma {:induction false} OnlyDigestAppend(a: seq<TamperedRecord>, b: seq<TamperedRecord>)
    ensures OnlyDigest(a + b) == OnlyDigest(a) + OnlyDigest(b)
  {
    if b == [] {
      assert a + b == a;
    } else {
      assert Init(a + b) == a + Init(b);
      OnlyDigestAppend(a, Init(b));
    }
  }

  /** The rows whose stored hash disagrees with their raw log, in order. */
  function WrongRows(sha256: Bytes -> Digest, records: seq<StoredRecord>): seq<StoredRecord> {
    if records == [] then []
    else WrongRows(sha256, Init(records)) + if DigestOk(sha256, Last(records)) then [] else [Last(records)]
  }

  function DigestFindings(sha256: Bytes -> Digest, rows: seq<StoredRecord>): seq<TamperedRecord> {
    if rows == [] then [] else DigestFindings(sha256, Init(rows)) + [DigestFinding(sha256, Last(rows))]
  }

  lemma OnlyDigestOfRow(sha256: Bytes -> Digest, records: seq<StoredRecord>, i: nat)
    requires i < |records|
    ensures OnlyDigest(FindingsOfRow(sha256, records, i))
            == if DigestOk(sha256, records[i]) then [] else [DigestFinding(sha256, records[i])]
  {
    var f := DigestFinding(sha256, records[i]);
    assert OnlyDigest([f]) == [f];
    if !IndexOk(records, i) {
      var g := TamperedRecord(records[i].leafIndex, records[i].eventId, IndexMismatch(i % U32, records[i].leafIndex));
      assert OnlyDigest([g]) == [];
      OnlyDigestAppend([g], if DigestOk(sha256, records[i]) then [] else [f]);
    }
  }

  lemma {:induction false} RowDigestFindings(sha256: Bytes -> Digest, records: seq<StoredRecord>)
    ensures OnlyDigest(RowFindings(sha256, records)) == DigestFindings(sha256, WrongRows(sha256, records))
  {
    if records != [] {
      var init, i := Init(records), |records| - 1;
      RowDigestFindings(sha256, init);
      OnlyDigestAppend(RowFindings(sha256, init), FindingsOfRow(sha256, records, i));
      OnlyDigestOfRow(sha256, records, i);
      DigestFindingsPush(sha256, WrongRows(sha256, init), records[i]);
      if DigestOk(sha256, records[i]) { assert WrongRows(sha256, records) == WrongRows(sha256, init); }
    }
  }

  lemma DigestFindingsPush(sha256: Bytes -> Digest, rows: seq<StoredRecord>, r: StoredRecord)
    ensures DigestFindings(sha256, rows + [r]) == DigestFindings(sha256, rows) + [DigestFinding(sha256, r)]
  {
    assert Init(rows + [r]) == rows;
  }

  /** Every digest finding names a row whose hash disagrees, and every such row is named, in order. */
  lemma DigestFindingsExact(sha256: Bytes -> Digest, records: seq<StoredRecord>, entry: LedgerEntry)
    ensures OnlyDigest(Findings(sha256, records, entry)) == DigestFindings(sha256, WrongRows(sha256, records))
  {
    var count := if |records| == entry.leafCount then []
                 else [TamperedRecord(|records| % U32, "", CountDiscrepancy(entry.leafCount, |records|))];
    RowDigestFindings(sha256, records);
    OnlyDigestAppend(count, RowFindings(sha256, records));
    assert OnlyDigest(count) == [];
  }

  // ---------- soundness of a clean report ----------

  /** A block that passes against a ledger root computed over `original` holds exactly those raw
  logs, in that order, unless SHA-256 collides on inputs of the two trees. */
  lemma IntactForcesLogs(sha256: Bytes -> Digest, records: seq<StoredRecord>, entry: LedgerEntry, original: seq<Bytes>)
    requires Intact(sha256, records, entry)
    requires entry.merkleRoot == RootOfLogs(Prefixed(sha256), original)
    ensures || RawLogs(records) == original
            || Collide(Prefixed(sha256), TreeInputs(Prefixed(sha256), RawLogs(records)),
                       TreeInputs(Prefixed(sha256), original))
  {
    RootInjective(Prefixed(sha256), RawLogs(records), original);
  }

  /** The verdict depends on raw logs, stored hashes and leaf indexes only: event ids, block ids,
  timestamps, vendors and OCSF documents may be rewritten without being noticed. */
  lemma OtherColumnsUncovered(sha256: Bytes -> Digest, a: seq<StoredRecord>, b: seq<StoredRecord>, entry: LedgerEntry)
    requires |a| == |b|
    requires forall i :: 0 <= i < |a| ==>
               a[i].rawLog == b[i].rawLog && a[i].rawHash == b[i].rawHash && a[i].leafIndex == b[i].leafIndex
    ensures Intact(sha256, a, entry) <==> Intact(sha256, b, entry)
  {
    assert RawLogs(a) == RawLogs(b);
    assert forall i :: 0 <= i < |a| ==> (IndexOk(a, i) <==> IndexOk(b, i));
  }

  // ---------- every finding, word for word ----------

  /** A row whose place in the block is not the one it was stored with. */
  ghost predicate IndexFinding(records: seq<StoredRecord>, f: TamperedRecord, i: nat) {
    && i < |records| && records[i].leafIndex != i % U32
    && f == TamperedRecord(records[i].leafIndex, records[i].eventId, IndexMismatch(i % U32, records[i].leafIndex))
  }

  /** A row whose stored hash is not that of its raw log: the finding has the stored one first. */
  ghost predicate HashFinding(sha256: Bytes -> Digest, records: seq<StoredRecord>, f: TamperedRecord, i: nat) {
    && i < |records| && sha256(records[i].rawLog) != records[i].rawHash
    && f == TamperedRecord(records[i].leafIndex, records[i].eventId,
                           DigestMismatch(records[i].rawHash, sha256(records[i].rawLog)))
  }

  lemma RowFindingIff(sha256: Bytes -> Digest, records: seq<StoredRecord>, f: TamperedRecord, i: nat)
    requires i < |records|
    ensures f in FindingsOfRow(sha256, records, i) <==> IndexFinding(records, f, i) || HashFinding(sha256, records, f, i)
  {}

  lemma RowOfInit(sha256: Bytes -> Digest, records: seq<StoredRecord>, f: TamperedRecord, i: nat)
    requires records != [] && i < |records| - 1
    ensures IndexFinding(Init(records), f, i) <==> IndexFinding(records, f, i)
    ensures HashFinding(sha256, Init(records), f, i) <==> HashFinding(sha256, records, f, i)
  {
    assert Init(records)[i] == records[i];
  }

  ghost predicate RowFound(sha256: Bytes -> Digest, records: seq<StoredRecord>, f: TamperedRecord, i: nat) {
    IndexFinding(records, f, i) || HashFinding(sha256, records, f, i)
  }

  lemma {:induction false} RowFindingsIff(sha256: Bytes -> Digest, records: seq<StoredRecord>, f: TamperedRecord)
    ensures f in RowFindings(sha256, records) <==> exists i: nat :: RowFound(sha256, records, f, i)
  {
    if records != [] {
      var last := |records| - 1;
      RowFindingsIff(sha256, Init(records), f);
      RowFindingIff(sha256, records, f, last);
      FoundInInit(sha256, records, f);
    }
  }

  lemma FoundInInit(sha256: Bytes -> Digest, records: seq<StoredRecord>, f: TamperedRecord)
    requires records != []
    ensures (exists i: nat :: RowFound(sha256, records, f, i))
            <==> (exists i: nat :: RowFound(sha256, Init(records), f, i)) || RowFound(sha256, records, f, |records| - 1)
  {
    var init, last := Init(records), |records| - 1;
    forall i: nat | i < last ensures RowFound(sha256, init, f, i) <==> RowFound(sha256, records, f, i) {
      RowOfInit(sha256, records, f, i);
    }
    if i: nat :| RowFound(sha256, records, f, i) {
      assert i == last || RowFound(sha256, init, f, i);
    }
    if i: nat :| RowFound(sha256, init, f, i) {
      assert RowFound(sha256, records, f, i);
    }
  }

  /** The findings of a report are exactly these: the count when it differs, every row with a wrong index or
  a wrong hash, and the root when it differs and nothing else is wrong. Each has the recorded value
  first and the one found second. */
  lemma FindingsExact(sha256: Bytes -> Digest, records: seq<StoredRecord>, entry: LedgerEntry, f: TamperedRecord)
    ensures f in Findings(sha256, records, entry)
            <==> || (exists i: nat :: RowFound(sha256, records, f, i))
                 || CountFound(records, entry, f)
                 || RootFound(sha256, records, entry, f)
  {
    RowFindingsIff(sha256, records, f);
    FindingsSplit(sha256, records, entry, f);
  }

  ghost predicate CountFound(records: seq<StoredRecord>, entry: LedgerEntry, f: TamperedRecord) {
    && |records| != entry.leafCount
    && f == TamperedRecord(|records| % U32, "", CountDiscrepancy(entry.leafCount, |records|))
  }

  ghost predicate RootFound(sha256: Bytes -> Digest, records: seq<StoredRecord>, entry: LedgerEntry, f: TamperedRecord) {
    var root := RootOfLogs(Prefixed(sha256), RawLogs(records));
    && root != entry.merkleRoot && |records| == entry.leafCount && RowFindings(sha256, records) == []
    && f == TamperedRecord(0, "", MerkleRootMismatch(entry.merkleRoot, root))
  }

  lemma FindingsSplit(sha256: Bytes -> Digest, records: seq<StoredRecord>, entry: LedgerEntry, f: TamperedRecord)
    ensures f in Findings(sha256, records, entry)
            <==> f in RowFindings(sha256, records) || CountFound(records, entry, f) || RootFound(sha256, records, entry, f)
  {
    var rows := RowFindings(sha256, records);
    assert f in CountFindings(records, entry) + rows <==> f in CountFindings(records, entry) || f in rows;
  }

  // ---------- ledger lookup ----------

  function FindEntry(ledger: seq<LedgerEntry>, blockId: nat): Option<LedgerEntry> {
    if ledger == [] then None
    else if ledger[0].blockId == blockId then Some(ledger[0])
    else FindEntry(ledger[1..], blockId)
  }

  ghost predicate IdsIncrease(ledger: seq<LedgerEntry>) {
    forall i, j :: 0 <= i < j < |ledger| ==> ledger[i].blockId < ledger[j].blockId
  }

  /** With increasing ids, a lookup finds an entry exactly when it is in the ledger: it is unique. */
  lemma {:induction false} FindEntryUnique(ledger: seq<LedgerEntry>, k: nat)
    requires IdsIncrease(ledger) && k < |ledger|
    ensures FindEntry(ledger, ledger[k].blockId) == Some(ledger[k])
  {
    if k > 0 { FindEntryUnique(ledger[1..], k - 1); }
  }

  /** A lookup answers the first entry with that id, and nothing exactly when there is none. */
  lemma {:induction false} FindEntryMember(ledger: seq<LedgerEntry>, id: nat)
    ensures match FindEntry(ledger, id)
            case Some(e) => exists k :: && 0 <= k < |ledger| && ledger[k] == e && e.blockId == id
                                        && forall j :: 0 <= j < k ==> ledger[j].blockId != id
            case None => forall e :: e in ledger ==> e.blockId != id
  {
    if ledger != [] && ledger[0].blockId != id {
      FindEntryMember(ledger[1..], id);
      assert ledger == [ledger[0]] + ledger[1..];
      if FindEntry(ledger, id).Some? {
        var e := FindEntry(ledger, id).value;
        var k :| 0 <= k < |ledger[1..]| && ledger[1..][k] == e && forall j :: 0 <= j < k ==> ledger[1..][j].blockId != id;
        forall j | 0 <= j < k + 1 ensures ledger[j].blockId != id { if j > 0 { assert ledger[j] == ledger[1..][j - 1]; } }
        assert ledger[k + 1] == e;
      }
    }
  }

  /** The block id to look up: that of the first row, or the one in the file name for an empty block. */
  function TargetBlock(records: seq<StoredRecord>, fileId: nat): nat {
    if records != [] then records[0].blockId else fileId
  }

  datatype LookupError = NoLedgerEntry(blockId: nat)

  method VerifyBlockWithLedger(sha256: Bytes -> Digest, records: seq<StoredRecord>, fileId: nat, ledger: seq<LedgerEntry>)
    returns (r: Result<TamperReport, LookupError>)
    ensures r.Success? ==> r.value.blockId == if records == [] then fileId else records[0].blockId
    ensures match FindEntry(ledger, TargetBlock(records, fileId))
            case None => r == Failure(NoLedgerEntry(TargetBlock(records, fileId)))
            case Some(e) => r.Success? && IsReport(sha256, records, e, r.value)
  {
    var id := TargetBlock(records, fileId);
    var entry := FindEntry(ledger, id);
    if entry.None? { return Failure(NoLedgerEntry(id)); }
    FindEntryMember(ledger, id);
    var report := VerifyRecords(sha256, records, entry.value);
    return Success(report);
  }
}
