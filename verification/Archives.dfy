/** What a run leaves on disk: block ids without gaps, and rows that carry everything a log came with. */
module Archives {
  import opened Hashing
  import opened Collections
  import opened Tamper
  import opened Batcher

  // ---------- ids ----------

  /** A flush that is due finds its writes working. */
  predicate WritesGo(cfg: Config, f: Fill, e: Event) {
    Takes(cfg, f, e) && !e.ERestart? ==> e.env.disk == Written
  }

  predicate AllWritten(cfg: Config, events: seq<Event>) {
    events == [] || (AllWritten(cfg, Init(events)) && WritesGo(cfg, FillAfter(cfg, Init(events)), Last(events)))
  }

  /** Entry k of the ledger is block k, and the next block takes the next number. */
  ghost predicate GapFree(s: State) {
    (forall k :: 0 <= k < |s.ledger| ==> s.ledger[k].blockId == k) && s.currentBlockId == |s.ledger|
  }

  lemma FlushGapFree(sha256: Bytes -> Digest, s: State, env: Env)
    requires GapFree(s) && (s.buffer != [] ==> env.disk == Written)
    ensures GapFree(Flush(sha256, s, env))
  {}

  lemma StepGapFree(sha256: Bytes -> Digest, cfg: Config, s: State, e: Event)
    requires GapFree(s) && (s.firstItemTime.Some? <==> s.buffer != []) && WritesGo(cfg, FillOf(s), e)
    ensures GapFree(Step(sha256, cfg, s, e))
  {
    match e {
      case EPush(log, env) =>
        var s' := Buffered(s, log, env.mono);
        assert GapFree(s') && FillOf(s') == Filled(FillOf(s), env.mono);
        if ShouldFlush(cfg, s', env.mono) { FlushGapFree(sha256, s', env); }
      case ETimeout(env) => if s.buffer != [] && DurationMet(cfg, s, env.mono) { FlushGapFree(sha256, s, env); }
      case EFlush(env) => if s.buffer != [] { FlushGapFree(sha256, s, env); }
      case ERestart =>
    }
  }

  /** In a run whose writes go through the blocks are numbered 0, 1, 2 and so on without a gap, whatever
  restarts lie between. */
  lemma {:induction false} IdsAreGapFree(sha256: Bytes -> Digest, cfg: Config, events: seq<Event>)
    requires AllWritten(cfg, events)
    ensures GapFree(Run(sha256, cfg, events))
  {
    if events != [] {
      IdsAreGapFree(sha256, cfg, Init(events));
      NothingLostIff(sha256, cfg, Init(events));
      RunKeeps(sha256, cfg, Init(events));
      StepGapFree(sha256, cfg, Run(sha256, cfg, Init(events)), Last(events));
    }
  }

  // ---------- rows ----------

  /** The row keeps what the log came with; a missing event object becomes an empty one. */
  predicate RowCarries(row: StoredRecord, log: IncomingLog, id: nat) {
    && row.rawLog == log.rawLog && row.vendor == log.vendor && row.blockId == id
    && (log.eventId.Some? ==> row.eventId == log.eventId.value)
    && (log.timestamp.Some? ==> row.timestamp == log.timestamp.value)
    && row.ocsfJson == (if log.ocsfJson.Some? then log.ocsfJson.value else "{}")
  }

  ghost predicate Carries(rows: seq<StoredRecord>, logs: seq<IncomingLog>, id: nat) {
    |rows| == |logs| && forall i :: 0 <= i < |rows| ==> RowCarries(rows[i], logs[i], id)
  }

  ghost predicate AllCarried(ledger: seq<LedgerEntry>, archived: seq<Batch>, files: map<nat, seq<StoredRecord>>) {
    && |archived| == |ledger|
    && forall i :: 0 <= i < |ledger| ==>
         ledger[i].blockId in files && Carries(files[ledger[i].blockId], archived[i].logs, ledger[i].blockId)
  }

  lemma CarriedDespite(ledger: seq<LedgerEntry>, archived: seq<Batch>, files: map<nat, seq<StoredRecord>>, id: nat,
                       rows: seq<StoredRecord>)
    requires AllCarried(ledger, archived, files) && IdsBelow(ledger, id)
    ensures AllCarried(ledger, archived, files[id := rows])
  {}

  lemma CarriedPush(ledger: seq<LedgerEntry>, archived: seq<Batch>, files: map<nat, seq<StoredRecord>>,
                    entry: LedgerEntry, b: Batch)
    requires AllCarried(ledger, archived, files)
    requires entry.blockId in files && Carries(files[entry.blockId], b.logs, entry.blockId)
    ensures AllCarried(ledger + [entry], archived + [b], files)
  {}

  lemma FreshCarries(sha256: Bytes -> Digest, logs: seq<IncomingLog>, id: nat, utc: int, ids: nat -> string)
    ensures Carries(StoredRows(sha256, logs, id, utc, ids), logs, id)
  {}

  ghost predicate Carrying(s: State) {
    AllCarried(s.ledger, ArchivedOf(s.taken), s.files)
  }

  lemma EmptiedCarries(s: State, rows: seq<StoredRecord>, entry: LedgerEntry, disk: Disk)
    requires Carrying(s) && IdsBelow(s.ledger, s.currentBlockId) && entry.blockId == s.currentBlockId
    requires Carries(rows, s.buffer, entry.blockId)
    ensures Carrying(Emptied(s, rows, entry, disk))
  {
    var archived, files := ArchivedOf(s.taken), s.files[entry.blockId := rows];
    TakenPush(s.taken, if disk == Written then Archived(entry, s.buffer) else Lost(s.buffer));
    CarriedDespite(s.ledger, archived, s.files, s.currentBlockId, rows);
    if disk == Written {
      CarriedPush(s.ledger, archived, files, entry, Archived(entry, s.buffer));
    } else {
      assert ArchivedOf(s.taken + [Lost(s.buffer)]) == archived;
    }
  }

  lemma FlushCarries(sha256: Bytes -> Digest, s: State, env: Env)
    requires Carrying(s) && IdsBelow(s.ledger, s.currentBlockId)
    ensures Carrying(Flush(sha256, s, env))
  {
    if s.buffer != [] {
      FreshCarries(sha256, s.buffer, s.currentBlockId, env.utc, env.ids);
      EmptiedCarries(s, StoredRows(sha256, s.buffer, s.currentBlockId, env.utc, env.ids),
                     EntryFor(sha256, s.buffer, s.currentBlockId, env.utc), env.disk);
    }
  }

  lemma RestartCarries(s: State)
    requires Carrying(s)
    ensures Carrying(Restart(s))
  {
    if s.buffer != [] { TakenPush(s.taken, Lost(s.buffer)); }
    assert ArchivedOf(Restart(s).taken) == ArchivedOf(s.taken);
  }

  lemma StepCarries(sha256: Bytes -> Digest, cfg: Config, s: State, e: Event)
    requires Carrying(s) && IdsBelow(s.ledger, s.currentBlockId)
    ensures Carrying(Step(sha256, cfg, s, e))
  {
    match e {
      case EPush(log, env) => FlushCarries(sha256, Buffered(s, log, env.mono), env);
      case ETimeout(env) => FlushCarries(sha256, s, env);
      case EFlush(env) => FlushCarries(sha256, s, env);
      case ERestart => RestartCarries(s);
    }
  }

  /** In every run each archived block's file carries, row by row, the logs of its batch. */
  lemma {:induction false} RowsCarryLogs(sha256: Bytes -> Digest, cfg: Config, events: seq<Event>)
    ensures Carrying(Run(sha256, cfg, events))
  {
    if events != [] {
      RowsCarryLogs(sha256, cfg, Init(events));
      RunKeeps(sha256, cfg, Init(events));
      StepCarries(sha256, cfg, Run(sha256, cfg, Init(events)), Last(events));
    }
  }
}
