/** The batch accumulator as an object: each method performs the step of the same name. */
module Accumulator {
  import opened Hashing
  import opened Collections
  import opened Merkle
  import opened Tamper
  import opened B = Batcher

  class BatchAccumulator {
    const sha256: Bytes -> Digest
    const config: Config
    var buffer: seq<IncomingLog>
    var firstItemTime: Option<nat>
    var currentBlockId: nat
    var ledger: seq<LedgerEntry>
    var files: map<nat, seq<StoredRecord>>
    ghost var taken: seq<Batch>
    ghost var pushed: seq<IncomingLog>

    ghost function Abs(): State
      reads this
    {
      State(buffer, firstItemTime, currentBlockId, ledger, files, taken, pushed)
    }

    /** Opens a directory that already holds a ledger and block files. */
    constructor (sha256: Bytes -> Digest, config: Config, ghost before: State, ledger: seq<LedgerEntry>,
                 files: map<nat, seq<StoredRecord>>)
      requires before.ledger == ledger && before.files == files
      ensures this.sha256 == sha256 && this.config == config && Abs() == B.Restart(before)
      ensures buffer == [] && currentBlockId == if ledger == [] then 0 else ledger[|ledger| - 1].blockId + 1
    {
      this.sha256, this.config := sha256, config;
      this.ledger, this.files := ledger, files;
      buffer, firstItemTime := [], None;
      currentBlockId := if ledger == [] then 0 else Last(ledger).blockId + 1;
      taken := if before.buffer == [] then before.taken else before.taken + [Lost(before.buffer)];
      pushed := before.pushed;
    }

    method Push(log: IncomingLog, env: Env) returns (r: Result<Option<nat>, Disk>)
      modifies this
      ensures Abs() == B.Push(sha256, config, old(Abs()), log, env)
      ensures var since := if old(buffer) == [] then Some(env.mono) else old(firstItemTime);
              var due := |old(buffer)| + 1 >= config.maxBatchSize
                         || (since.Some? && env.mono >= since.value + config.maxDurationMs);
              buffer == (if due then [] else old(buffer) + [log]) && firstItemTime == if due then None else since
      ensures var s := Buffered(old(Abs()), log, env.mono);
              r == if !ShouldFlush(config, s, env.mono) then Success(None)
                   else if env.disk == Written then Success(Some(old(currentBlockId))) else Failure(env.disk)
    {
      if buffer == [] { firstItemTime := Some(env.mono); }
      buffer := buffer + [log];
      pushed := pushed + [log];
      var countMet := |buffer| >= config.maxBatchSize;
      var durationMet := firstItemTime.Some? && env.mono >= firstItemTime.value + config.maxDurationMs;
      if countMet || durationMet {
        r := Flush(env);
      } else {
        r := Success(None);
      }
    }

    method CheckTimeout(env: Env) returns (r: Result<Option<nat>, Disk>)
      modifies this
      ensures Abs() == B.CheckTimeout(sha256, config, old(Abs()), env)
      ensures r == if old(buffer) == [] || !DurationMet(config, old(Abs()), env.mono) then Success(None)
                   else if env.disk == Written then Success(Some(old(currentBlockId))) else Failure(env.disk)
    {
      if buffer == [] { return Success(None); }
      if firstItemTime.Some? && env.mono >= firstItemTime.value + config.maxDurationMs {
        r := Flush(env);
      } else {
        r := Success(None);
      }
    }

    method Flush(env: Env) returns (r: Result<Option<nat>, Disk>)
      modifies this
      ensures Abs() == B.Flush(sha256, old(Abs()), env)
      ensures r == if old(buffer) == [] then Success(None)
                   else if env.disk == Written then Success(Some(old(currentBlockId))) else Failure(env.disk)
    {
      if buffer == [] { return Success(None); }
      var logs := buffer;
      buffer, firstItemTime := [], None;
      var id := currentBlockId;
      currentBlockId := currentBlockId + 1;
      var rows := BuildRows(sha256, logs, id, env.utc, env.ids);
      FreshBlockAnchored(sha256, logs, id, env.utc, env.ids, files);
      var root := FromLeafHashes(Prefixed(sha256), LeafHashes(Prefixed(sha256), RawLogs(rows))).root;
      if env.disk == ParquetFailed {
        taken := taken + [Lost(logs)];
        return Failure(env.disk);
      }
      files := files[id := rows];
      if env.disk == LedgerFailed {
        taken := taken + [Lost(logs)];
        return Failure(env.disk);
      }
      var entry := LedgerEntry(id, env.utc, |logs|, root);
      ledger := ledger + [entry];
      taken := taken + [Archived(entry, logs)];
      return Success(Some(id));
    }
  }

  method BuildRows(sha256: Bytes -> Digest, logs: seq<IncomingLog>, id: nat, utc: int, ids: nat -> string)
    returns (rows: seq<StoredRecord>)
    ensures rows == StoredRows(sha256, logs, id, utc, ids)
  {
    rows := [];
    for i := 0 to |logs|
      invariant rows == StoredRows(sha256, logs, id, utc, ids)[..i]
    {
      var item := logs[i];
      rows := rows + [StoredRecord(GetOr(item.eventId, ids(i)), id, i % U32, GetOr(item.timestamp, utc), item.vendor,
                                   item.rawLog, sha256(item.rawLog), GetOr(item.ocsfJson, "{}"))];
    }
  }
}
