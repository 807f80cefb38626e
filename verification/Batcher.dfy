/** The dual-trigger batch accumulator, its append-only ledger and its block files.

`State` is everything one archive directory goes through: pushes, timeouts, forced flushes, failed
writes and restarts. `taken` and `pushed` only record history. */
module Batcher {
  import opened Hashing
  import opened Collections
  import opened Merkle
  import opened Tamper

  datatype IncomingLog = IncomingLog(vendor: string, rawLog: Bytes, timestamp: Option<int>, eventId: Option<string>,
                                     ocsfJson: Option<string>)

  datatype Config = Config(maxBatchSize: nat, maxDurationMs: nat)

  datatype Disk = Written | ParquetFailed | LedgerFailed

  /** What one call finds around it: the monotonic and the wall clock in milliseconds, ids for logs
  that carry none, and whether its writes go through. */
  datatype Env = Env(mono: nat, utc: int, ids: nat -> string, disk: Disk)

  /** A batch that left the buffer: anchored in the ledger, or gone. */
  datatype Batch =
    | Archived(entry: LedgerEntry, logs: seq<IncomingLog>)
    | Lost(logs: seq<IncomingLog>)

  datatype State = State(buffer: seq<IncomingLog>, firstItemTime: Option<nat>, currentBlockId: nat,
                         ledger: seq<LedgerEntry>, files: map<nat, seq<StoredRecord>>,
                         taken: seq<Batch>, pushed: seq<IncomingLog>)

  function GetOr<T>(o: Option<T>, default: T): T {
    if o.Some? then o.value else default
  }

  function Raws(logs: seq<IncomingLog>): (raws: seq<Bytes>)
    ensures |raws| == |logs|
    ensures forall i :: 0 <= i < |logs| ==> raws[i] == logs[i].rawLog
  {
    seq(|logs|, i requires 0 <= i < |logs| => logs[i].rawLog)
  }

  function StoredRow(sha256: Bytes -> Digest, log: IncomingLog, id: nat, i: nat, utc: int, ids: nat -> string): StoredRecord {
    StoredRecord(GetOr(log.eventId, ids(i)), id, i % U32, GetOr(log.timestamp, utc), log.vendor, log.rawLog,
                 sha256(log.rawLog), GetOr(log.ocsfJson, "{}"))
  }

  function StoredRows(sha256: Bytes -> Digest, logs: seq<IncomingLog>, id: nat, utc: int, ids: nat -> string): (rows: seq<StoredRecord>)
    ensures |rows| == |logs|
    ensures forall i :: 0 <= i < |logs| ==> rows[i] == StoredRow(sha256, logs[i], id, i, utc, ids)
  {
    seq(|logs|, i requires 0 <= i < |logs| => StoredRow(sha256, logs[i], id, i, utc, ids))
  }

  function EntryFor(sha256: Bytes -> Digest, logs: seq<IncomingLog>, id: nat, utc: int): LedgerEntry {
    LedgerEntry(id, utc, |logs|, RootOfLogs(Prefixed(sha256), Raws(logs)))
  }

  // ---------- steps ----------

  function Flush(sha256: Bytes -> Digest, s: State, env: Env): State {
    if s.buffer == [] then s
    else
      Emptied(s, StoredRows(sha256, s.buffer, s.currentBlockId, env.utc, env.ids),
              EntryFor(sha256, s.buffer, s.currentBlockId, env.utc), env.disk)
  }

  /** The buffer is taken and the block id spent before anything is written. */
  function Emptied(s: State, rows: seq<StoredRecord>, entry: LedgerEntry, disk: Disk): State {
    var id := s.currentBlockId;
    var files := if disk == ParquetFailed then s.files else s.files[id := rows];
    if disk == Written
    then State([], None, id + 1, s.ledger + [entry], files, s.taken + [Archived(entry, s.buffer)], s.pushed)
    else State([], None, id + 1, s.ledger, files, s.taken + [Lost(s.buffer)], s.pushed)
  }

  predicate DurationMet(cfg: Config, s: State, mono: nat) {
    s.firstItemTime.Some? && mono >= s.firstItemTime.value + cfg.maxDurationMs
  }

  predicate ShouldFlush(cfg: Config, s: State, mono: nat) {
    s.buffer != [] && (|s.buffer| >= cfg.maxBatchSize || DurationMet(cfg, s, mono))
  }

  function Buffered(s: State, log: IncomingLog, mono: nat): State {
    s.(buffer := s.buffer + [log],
       firstItemTime := if s.buffer == [] then Some(mono) else s.firstItemTime,
       pushed := s.pushed + [log])
  }

  function Push(sha256: Bytes -> Digest, cfg: Config, s: State, log: IncomingLog, env: Env): State
  {
    var s' := Buffered(s, log, env.mono);
    if ShouldFlush(cfg, s', env.mono) then Flush(sha256, s', env) else s'
  }

  function CheckTimeout(sha256: Bytes -> Digest, cfg: Config, s: State, env: Env): State {
    if s.buffer != [] && DurationMet(cfg, s, env.mono) then Flush(sha256, s, env) else s
  }

  function NextBlockId(ledger: seq<LedgerEntry>): nat {
    if ledger == [] then 0 else Last(ledger).blockId + 1
  }

  /** A new process over the same directory: the buffer is gone, the ledger says where to continue. */
  function Restart(s: State): State {
    State([], None, NextBlockId(s.ledger), s.ledger, s.files,
          if s.buffer == [] then s.taken else s.taken + [Lost(s.buffer)], s.pushed)
  }

  datatype Event =
    | EPush(log: IncomingLog, env: Env)
    | ETimeout(env: Env)
    | EFlush(env: Env)
    | ERestart

  ghost function Step(sha256: Bytes -> Digest, cfg: Config, s: State, e: Event): State {
    match e
    case EPush(log, env) => Push(sha256, cfg, s, log, env)
    case ETimeout(env) => CheckTimeout(sha256, cfg, s, env)
    case EFlush(env) => Flush(sha256, s, env)
    case ERestart => Restart(s)
  }

  const INITIAL := State([], None, 0, [], map[], [], [])

  ghost function Run(sha256: Bytes -> Digest, cfg: Config, events: seq<Event>): State {
    if events == [] then INITIAL else Step(sha256, cfg, Run(sha256, cfg, Init(events)), Last(events))
  }

  // ---------- what every run keeps ----------

  function LogsOf(taken: seq<Batch>): seq<IncomingLog> {
    if taken == [] then [] else LogsOf(Init(taken)) + Last(taken).logs
  }

  /** The batches that reached the ledger, in order. */
  function ArchivedOf(taken: seq<Batch>): (a: seq<Batch>)
    ensures forall b :: b in a ==> b.Archived?
  {
    if taken == [] then [] else ArchivedOf(Init(taken)) + if Last(taken).Archived? then [Last(taken)] else []
  }

  /** A ledger entry, the batch it was written for, and the file it names, all agree. */
  ghost predicate Anchored(sha256: Bytes -> Digest, e: LedgerEntry, b: Batch, files: map<nat, seq<StoredRecord>>) {
    && b.Archived? && b.entry == e && b.logs != []
    && e.merkleRoot == RootOfLogs(Prefixed(sha256), Raws(b.logs))
    && e.blockId in files
    && RawLogs(files[e.blockId]) == Raws(b.logs)
    && files[e.blockId][0].blockId == e.blockId
    && Intact(sha256, files[e.blockId], e)
  }

  ghost predicate IdsBelow(ledger: seq<LedgerEntry>, next: nat) {
    IdsIncrease(ledger) && forall i :: 0 <= i < |ledger| ==> ledger[i].blockId < next
  }

  ghost predicate AllAnchored(sha256: Bytes -> Digest, ledger: seq<LedgerEntry>, archived: seq<Batch>,
                              files: map<nat, seq<StoredRecord>>) {
    |archived| == |ledger| && forall i :: 0 <= i < |ledger| ==> Anchored(sha256, ledger[i], archived[i], files)
  }

  ghost predicate LedgerOk(sha256: Bytes -> Digest, s: State) {
    IdsBelow(s.ledger, s.currentBlockId) && AllAnchored(sha256, s.ledger, ArchivedOf(s.taken), s.files)
  }

  ghost predicate BufferOk(cfg: Config, s: State) {
    && (s.firstItemTime.Some? <==> s.buffer != [])
    && (s.buffer == [] || |s.buffer| < cfg.maxBatchSize)
    && LogsOf(s.taken) + s.buffer == s.pushed
    && forall b :: b in s.taken ==> b.logs != []
  }

  lemma TakenPush(taken: seq<Batch>, b: Batch)
    ensures LogsOf(taken + [b]) == LogsOf(taken) + b.logs
    ensures ArchivedOf(taken + [b]) == ArchivedOf(taken) + if b.Archived? then [b] else []
  {
    assert Init(taken + [b]) == taken;
  }

  /** What a flush writes is untampered by construction. */
  lemma FreshBlockAnchored(sha256: Bytes -> Digest, logs: seq<IncomingLog>, id: nat, utc: int, ids: nat -> string,
                           files: map<nat, seq<StoredRecord>>)
    ensures RawLogs(StoredRows(sha256, logs, id, utc, ids)) == Raws(logs)
    ensures Intact(sha256, StoredRows(sha256, logs, id, utc, ids), EntryFor(sha256, logs, id, utc))
    ensures logs != [] ==> var entry := EntryFor(sha256, logs, id, utc);
                           Anchored(sha256, entry, Archived(entry, logs), files[id := StoredRows(sha256, logs, id, utc, ids)])
  {
    assert RawLogs(StoredRows(sha256, logs, id, utc, ids)) == Raws(logs);
  }

  lemma AnchoredDespite(sha256: Bytes -> Digest, e: LedgerEntry, b: Batch, files: map<nat, seq<StoredRecord>>, id: nat,
                        rows: seq<StoredRecord>)
    requires Anchored(sha256, e, b, files) && e.blockId != id
    ensures Anchored(sha256, e, b, files[id := rows])
  {}

  lemma AllAnchoredDespite(sha256: Bytes -> Digest, ledger: seq<LedgerEntry>, archived: seq<Batch>,
                           files: map<nat, seq<StoredRecord>>, id: nat, rows: seq<StoredRecord>)
    requires AllAnchored(sha256, ledger, archived, files) && IdsBelow(ledger, id)
    ensures AllAnchored(sha256, ledger, archived, files[id := rows])
  {
    forall i | 0 <= i < |ledger| ensures Anchored(sha256, ledger[i], archived[i], files[id := rows]) {
      AnchoredDespite(sha256, ledger[i], archived[i], files, id, rows);
    }
  }

  lemma AnchoredPush(sha256: Bytes -> Digest, ledger: seq<LedgerEntry>, archived: seq<Batch>,
                     files: map<nat, seq<StoredRecord>>, entry: LedgerEntry, b: Batch)
    requires AllAnchored(sha256, ledger, archived, files) && Anchored(sha256, entry, b, files)
    ensures AllAnchored(sha256, ledger + [entry], archived + [b], files)
  {}

  lemma IdsPush(ledger: seq<LedgerEntry>, entry: LedgerEntry, id: nat)
    requires IdsBelow(ledger, id) && entry.blockId == id
    ensures IdsBelow(ledger, id + 1) && IdsBelow(ledger + [entry], id + 1)
  {}

  lemma EmptiedKeepsLedger(sha256: Bytes -> Digest, s: State, rows: seq<StoredRecord>, entry: LedgerEntry, disk: Disk)
    requires LedgerOk(sha256, s) && entry.blockId == s.currentBlockId
    requires Anchored(sha256, entry, Archived(entry, s.buffer), s.files[entry.blockId := rows])
    ensures LedgerOk(sha256, Emptied(s, rows, entry, disk))
  {
    var archived := ArchivedOf(s.taken);
    TakenPush(s.taken, if disk == Written then Archived(entry, s.buffer) else Lost(s.buffer));
    IdsPush(s.ledger, entry, s.currentBlockId);
    AllAnchoredDespite(sha256, s.ledger, archived, s.files, s.currentBlockId, rows);
    if disk == Written {
      AnchoredPush(sha256, s.ledger, archived, s.files[entry.blockId := rows], entry, Archived(entry, s.buffer));
    } else {
      assert ArchivedOf(s.taken + [Lost(s.buffer)]) == archived;
    }
  }

  lemma FlushKeepsLedger(sha256: Bytes -> Digest, s: State, env: Env)
    requires LedgerOk(sha256, s)
    ensures LedgerOk(sha256, Flush(sha256, s, env))
  {
    if s.buffer != [] {
      FreshBlockAnchored(sha256, s.buffer, s.currentBlockId, env.utc, env.ids, s.files);
      EmptiedKeepsLedger(sha256, s, StoredRows(sha256, s.buffer, s.currentBlockId, env.utc, env.ids),
                         EntryFor(sha256, s.buffer, s.currentBlockId, env.utc), env.disk);
    }
  }

  lemma EmptiedKeepsBuffer(cfg: Config, s: State, rows: seq<StoredRecord>, entry: LedgerEntry, disk: Disk)
    requires LogsOf(s.taken) + s.buffer == s.pushed && s.buffer != []
    requires forall b :: b in s.taken ==> b.logs != []
    ensures BufferOk(cfg, Emptied(s, rows, entry, disk))
  {
    TakenPush(s.taken, Lost(s.buffer));
    TakenPush(s.taken, Archived(entry, s.buffer));
  }

  lemma FlushKeepsBuffer(sha256: Bytes -> Digest, cfg: Config, s: State, env: Env)
    requires LogsOf(s.taken) + s.buffer == s.pushed && forall b :: b in s.taken ==> b.logs != []
    requires s.firstItemTime.Some? <==> s.buffer != []
    ensures BufferOk(cfg, Flush(sha256, s, env))
  {
    if s.buffer != [] {
      EmptiedKeepsBuffer(cfg, s, StoredRows(sha256, s.buffer, s.currentBlockId, env.utc, env.ids),
                         EntryFor(sha256, s.buffer, s.currentBlockId, env.utc), env.disk);
    }
  }

  lemma PushKeeps(sha256: Bytes -> Digest, cfg: Config, s: State, log: IncomingLog, env: Env)
    requires LedgerOk(sha256, s) && BufferOk(cfg, s)
    ensures LedgerOk(sha256, Push(sha256, cfg, s, log, env))
    ensures BufferOk(cfg, Push(sha256, cfg, s, log, env))
  {
    var s' := Buffered(s, log, env.mono);
    assert LogsOf(s.taken) + (s.buffer + [log]) == s.pushed + [log];
    FlushKeepsLedger(sha256, s', env);
    FlushKeepsBuffer(sha256, cfg, s', env);
  }

  lemma NextIsAbove(ledger: seq<LedgerEntry>, next: nat)
    requires IdsBelow(ledger, next)
    ensures IdsBelow(ledger, NextBlockId(ledger))
  {}

  lemma RestartKeepsLedger(sha256: Bytes -> Digest, s: State)
    requires LedgerOk(sha256, s)
    ensures LedgerOk(sha256, Restart(s))
  {
    NextIsAbove(s.ledger, s.currentBlockId);
    if s.buffer != [] { TakenPush(s.taken, Lost(s.buffer)); }
    assert ArchivedOf(Restart(s).taken) == ArchivedOf(s.taken);
  }

  lemma RestartKeepsBuffer(cfg: Config, s: State)
    requires BufferOk(cfg, s)
    ensures BufferOk(cfg, Restart(s))
  {
    if s.buffer != [] {
      TakenPush(s.taken, Lost(s.buffer));
      assert LogsOf(s.taken + [Lost(s.buffer)]) + [] == s.pushed;
    }
  }

  ghost predicate Keeping(sha256: Bytes -> Digest, cfg: Config, s: State) {
    LedgerOk(sha256, s) && BufferOk(cfg, s)
  }

  lemma FlushKeeps(sha256: Bytes -> Digest, cfg: Config, s: State, env: Env)
    requires Keeping(sha256, cfg, s)
    ensures Keeping(sha256, cfg, Flush(sha256, s, env)) && Keeping(sha256, cfg, CheckTimeout(sha256, cfg, s, env))
  {
    FlushKeepsLedger(sha256, s, env);
    FlushKeepsBuffer(sha256, cfg, s, env);
  }

  lemma StepKeeps(sha256: Bytes -> Digest, cfg: Config, s: State, e: Event)
    requires Keeping(sha256, cfg, s)
    ensures Keeping(sha256, cfg, Step(sha256, cfg, s, e))
  {
    match e {
      case EPush(log, env) => PushKeeps(sha256, cfg, s, log, env);
      case ETimeout(env) => FlushKeeps(sha256, cfg, s, env);
      case EFlush(env) => FlushKeeps(sha256, cfg, s, env);
      case ERestart =>
        RestartKeepsLedger(sha256, s);
        RestartKeepsBuffer(cfg, s);
    }
  }

  /** Both invariants hold after any sequence of pushes, flushes, failed writes and restarts. */
  lemma {:induction false} RunKeeps(sha256: Bytes -> Digest, cfg: Config, events: seq<Event>)
    ensures Keeping(sha256, cfg, Run(sha256, cfg, events))
  {
    if events != [] {
      RunKeeps(sha256, cfg, Init(events));
      StepKeeps(sha256, cfg, Run(sha256, cfg, Init(events)), Last(events));
    }
  }

  // ---------- conservation ----------

  ghost predicate NothingLost(taken: seq<Batch>) {
    forall b :: b in taken ==> b.Archived?
  }

  lemma {:induction false} ArchivedLength(taken: seq<Batch>)
    requires forall b :: b in taken ==> b.logs != []
    ensures NothingLost(taken) ==> ArchivedOf(taken) == taken
    ensures |LogsOf(ArchivedOf(taken))| <= |LogsOf(taken)| - if NothingLost(taken) then 0 else 1
  {
    if taken != [] {
      var init, b := Init(taken), Last(taken);
      ArchivedLength(init);
      assert taken == init + [b];
      TakenPush(init, b);
      TakenPush(ArchivedOf(init), b);
      assert NothingLost(taken) <==> NothingLost(init) && b.Archived?;
      if b.Lost? { assert ArchivedOf(taken) == ArchivedOf(init) && |b.logs| > 0; }
    }
  }

  /** What decides when a buffer is flushed: how much it holds, and since when. */
  datatype Fill = Fill(count: nat, since: Option<nat>)

  const NOTHING := Fill(0, None)

  function FillOf(s: State): Fill {
    Fill(|s.buffer|, s.firstItemTime)
  }

  function Filled(f: Fill, mono: nat): Fill {
    Fill(f.count + 1, if f.count == 0 then Some(mono) else f.since)
  }

  predicate Overdue(cfg: Config, f: Fill, mono: nat) {
    f.since.Some? && mono >= f.since.value + cfg.maxDurationMs
  }

  /** Whether the event takes a batch out of a buffer filled like this. */
  predicate Takes(cfg: Config, f: Fill, e: Event) {
    match e
    case EPush(_, env) =>
      var f' := Filled(f, env.mono);
      f'.count >= cfg.maxBatchSize || Overdue(cfg, f', env.mono)
    case ETimeout(env) => f.count > 0 && Overdue(cfg, f, env.mono)
    case EFlush(_) => f.count > 0
    case ERestart => f.count > 0
  }

  /** A batch that is taken is kept when the call's writes go through; a restart keeps none. */
  predicate Keeps(cfg: Config, f: Fill, e: Event) {
    Takes(cfg, f, e) ==> !e.ERestart? && e.env.disk == Written
  }

  function FillAfter(cfg: Config, events: seq<Event>): Fill {
    if events == [] then NOTHING
    else
      var f, e := FillAfter(cfg, Init(events)), Last(events);
      if Takes(cfg, f, e) then NOTHING else if e.EPush? then Filled(f, e.env.mono) else f
  }

  /** Every event finds its writes working when it takes a batch, and no restart finds a filled buffer. */
  predicate AllKeep(cfg: Config, events: seq<Event>) {
    events == [] || (AllKeep(cfg, Init(events)) && Keeps(cfg, FillAfter(cfg, Init(events)), Last(events)))
  }

  lemma StepTakes(sha256: Bytes -> Digest, cfg: Config, s: State, e: Event)
    requires s.firstItemTime.Some? <==> s.buffer != []
    ensures var s', f := Step(sha256, cfg, s, e), FillOf(s);
            && FillOf(s') == (if Takes(cfg, f, e) then NOTHING else if e.EPush? then Filled(f, e.env.mono) else f)
            && (if Takes(cfg, f, e) then |s'.taken| == |s.taken| + 1 && s'.taken[..|s.taken|] == s.taken
                                         && (Last(s'.taken).Archived? <==> Keeps(cfg, f, e))
                else s'.taken == s.taken)
  {}

  lemma LostPush(taken: seq<Batch>, taken': seq<Batch>)
    requires |taken'| == |taken| + 1 && taken'[..|taken|] == taken
    ensures NothingLost(taken') <==> NothingLost(taken) && Last(taken').Archived?
  {
    assert taken' == taken + [Last(taken')];
  }

  /** Nothing is lost if and only if every event keeps the batch it takes. */
  lemma {:induction false} NothingLostIff(sha256: Bytes -> Digest, cfg: Config, events: seq<Event>)
    ensures FillOf(Run(sha256, cfg, events)) == FillAfter(cfg, events)
    ensures NothingLost(Run(sha256, cfg, events).taken) <==> AllKeep(cfg, events)
  {
    if events != [] {
      var s, e := Run(sha256, cfg, Init(events)), Last(events);
      NothingLostIff(sha256, cfg, Init(events));
      RunKeeps(sha256, cfg, Init(events));
      StepTakes(sha256, cfg, s, e);
      if Takes(cfg, FillOf(s), e) { LostPush(s.taken, Step(sha256, cfg, s, e).taken); }
    }
  }

  lemma ArchivedIff(sha256: Bytes -> Digest, cfg: Config, events: seq<Event>)
    ensures var s := Run(sha256, cfg, events);
            LogsOf(ArchivedOf(s.taken)) + s.buffer == s.pushed <==> NothingLost(s.taken)
  {
    var s := Run(sha256, cfg, events);
    RunKeeps(sha256, cfg, events);
    ArchivedLength(s.taken);
    assert |s.pushed| == |LogsOf(s.taken)| + |s.buffer|;
  }

  /** In any run the archived blocks followed by the buffer are all pushed logs in order, if and only
  if every event that takes a batch finds its writes working and no restart finds a filled buffer. */
  lemma Conservation(sha256: Bytes -> Digest, cfg: Config, events: seq<Event>)
    ensures var s := Run(sha256, cfg, events);
            LogsOf(ArchivedOf(s.taken)) + s.buffer == s.pushed <==> AllKeep(cfg, events)
  {
    ArchivedIff(sha256, cfg, events);
    NothingLostIff(sha256, cfg, events);
  }

  /** A failed write loses the whole batch: one push into a one-element buffer whose file write fails. */
  lemma FailedWriteLoses(sha256: Bytes -> Digest, log: IncomingLog, env: Env)
    requires env.disk == ParquetFailed
    ensures var s := Run(sha256, Config(1, 2000), [EPush(log, env)]);
            s.pushed == [log] && s.buffer == [] && s.ledger == [] && s.files == map[] && !NothingLost(s.taken)
  {
    OnePush(sha256, log, env);
  }

  /** A failed ledger write loses the batch as well, and leaves a file that no entry anchors. */
  lemma FailedLedgerOrphans(sha256: Bytes -> Digest, log: IncomingLog, env: Env)
    requires env.disk == LedgerFailed
    ensures var s := Run(sha256, Config(1, 2000), [EPush(log, env)]);
            s.pushed == [log] && s.buffer == [] && s.ledger == [] && 0 in s.files && !NothingLost(s.taken)
  {
    OnePush(sha256, log, env);
  }

  lemma OnePush(sha256: Bytes -> Digest, log: IncomingLog, env: Env)
    requires env.disk != Written
    ensures var s := Run(sha256, Config(1, 2000), [EPush(log, env)]);
            && s == Push(sha256, Config(1, 2000), INITIAL, log, env) && s.pushed == [log] && s.buffer == [] && s.ledger == []
            && !NothingLost(s.taken) && (0 in s.files <==> env.disk == LedgerFailed) && s.files.Keys <= {0}
  {
    var e := EPush(log, env);
    assert Init([e]) == [] && Run(sha256, Config(1, 2000), []) == INITIAL;
    var s := Run(sha256, Config(1, 2000), [e]);
    assert s == Push(sha256, Config(1, 2000), INITIAL, log, env);
    assert s.taken == [Lost([] + [log])];
    assert s.taken[0].Lost? && s.taken[0] in s.taken;
  }

  /** A restart loses what is buffered: one push that is not yet due, then a restart. */
  lemma RestartLoses(sha256: Bytes -> Digest, cfg: Config, log: IncomingLog, env: Env)
    requires cfg.maxBatchSize > 1 && cfg.maxDurationMs > 0
    ensures var s := Run(sha256, cfg, [EPush(log, env), ERestart]);
            s.pushed == [log] && s.buffer == [] && s.ledger == [] && !NothingLost(s.taken)
  {
    var e := EPush(log, env);
    assert Init([e]) == [] && Init([e, ERestart]) == [e] && Run(sha256, cfg, []) == INITIAL;
    assert [] + [log] == [log];
    var s := Run(sha256, cfg, [e]);
    assert s == Buffered(INITIAL, log, env.mono) && s.buffer == [log];
    var s' := Run(sha256, cfg, [e, ERestart]);
    assert s'.taken == [Lost([log])];
    assert s'.taken[0] in s'.taken;
  }

  // ---------- the archive, end to end ----------

  /** Every block in the ledger of any run is found by its id and passes verification from its file. */
  lemma ArchivedBlocksVerify(sha256: Bytes -> Digest, cfg: Config, events: seq<Event>, k: nat)
    requires k < |Run(sha256, cfg, events).ledger|
    ensures var s := Run(sha256, cfg, events);
            var id := s.ledger[k].blockId;
            && id in s.files && TargetBlock(s.files[id], id) == id
            && FindEntry(s.ledger, id) == Some(s.ledger[k])
            && Intact(sha256, s.files[id], s.ledger[k])
  {
    RunKeeps(sha256, cfg, events);
    var s := Run(sha256, cfg, events);
    FindEntryUnique(s.ledger, k);
    assert Anchored(sha256, s.ledger[k], ArchivedOf(s.taken)[k], s.files);
  }

  /** Whatever rows are presented later, if they verify against the ledger of a run then their raw
  logs are exactly those of one archived batch, or SHA-256 collides on inputs of the two trees. */
  lemma ArchiveSound(sha256: Bytes -> Digest, cfg: Config, events: seq<Event>, rows: seq<StoredRecord>, fileId: nat)
    requires var e := FindEntry(Run(sha256, cfg, events).ledger, TargetBlock(rows, fileId));
             e.Some? && Intact(sha256, rows, e.value)
    ensures var s := Run(sha256, cfg, events);
            exists b :: && b in ArchivedOf(s.taken) && b.entry.blockId == TargetBlock(rows, fileId)
                        && (|| RawLogs(rows) == Raws(b.logs)
                            || Collide(Prefixed(sha256), TreeInputs(Prefixed(sha256), RawLogs(rows)),
                                       TreeInputs(Prefixed(sha256), Raws(b.logs))))
  {
    RunKeeps(sha256, cfg, events);
    var s := Run(sha256, cfg, events);
    var e := FindEntry(s.ledger, TargetBlock(rows, fileId)).value;
    FindEntryMember(s.ledger, TargetBlock(rows, fileId));
    var k :| 0 <= k < |s.ledger| && s.ledger[k] == e;
    var b := ArchivedOf(s.taken)[k];
    assert Anchored(sha256, e, b, s.files);
    IntactForcesLogs(sha256, rows, e, Raws(b.logs));
    assert b in ArchivedOf(s.taken);
  }
}
