/** The ingestion loop of the `start` command. Everything the loop asks of
    the chain arrives as an input: the height answered at the start of a
    round, and for each block the answers to successive log fetches, each
    log carrying its decode result, its block lookup, its transaction hash
    and the store's verdict on the statements it triggers. */
module Ingest {
  import opened Wrappers
  import opened Amount
  import opened Db
  import opened Retry
  import opened Watch

  /** 2^64: the first value a u64 cannot hold. */
  const U64_MODULUS: nat := 0x1_0000_0000_0000_0000
  const I64_MIN: int := -0x8000_0000_0000_0000
  const I64_LIMIT: int := 0x8000_0000_0000_0000

  type U64 = x: nat | x < U64_MODULUS

  /** `x as i64` for a u64: values from 2^63 up wrap to negatives. */
  function AsI64(x: U64): (r: int)
    ensures I64_MIN <= r < I64_LIMIT
    ensures r == x || r == x - U64_MODULUS
  {
    if x < I64_LIMIT then x else x - U64_MODULUS
  }

  /** A decoded `Transfer(from, to, value)` event, addresses rendered as text. */
  datatype Transfer = Transfer(from: Address, to: Address, value: U256)

  /** The answer to the block lookup that supplies a log's timestamp. */
  datatype BlockLookup = LookupFailed | BlockMissing | BlockFound(timestamp: U64)

  /** Whether SQLite fails the insert, the read or the write this log triggers. */
  datatype DbFaults = DbFaults(insertFails: bool, readFails: bool, writeFails: bool)

  /** One fetched log. Its block number is always present: the source unwraps
      it, so a log without one is outside the model. */
  datatype Log = Log(
    decoded: Option<Transfer>,
    blockNumber: U64,
    blockLookup: BlockLookup,
    txHash: Option<string>,
    faults: DbFaults)

  datatype LogOutcome =
    | DecodeSkipped
    | TimestampSkipped
    | TxHashSkipped
    | InsertSkipped
    | Unwatched
    | AggregateUpdated
    | UpdateFailed(error: UpdateError)

  datatype LogStep = LogStep(store: Store, outcome: LogOutcome)

  /** The log passes the decode, timestamp and transaction-hash guards. */
  predicate Admitted(log: Log) {
    log.decoded.Some? && log.blockLookup.BlockFound? && log.txHash.Some?
  }

  /** The log also passes the insert guard, so its row is in the table. */
  predicate Stored(log: Log) {
    Admitted(log) && !log.faults.insertFails
  }

  function FlagsOf(watch: seq<Address>, log: Log): Flags
    requires log.decoded.Some?
  {
    Classify(watch, log.decoded.value.from, log.decoded.value.to)
  }

  /** The log touches the watch-list on at least one side. */
  predicate Watched(watch: seq<Address>, log: Log)
    requires log.decoded.Some?
  {
    FlagsOf(watch, log).isIn || FlagsOf(watch, log).isOut
  }

  function TimestampOf(log: Log): int
    requires log.blockLookup.BlockFound?
  {
    AsI64(log.blockLookup.timestamp)
  }

  /** The `raw_transfers` row written for an admitted log. */
  function RowOf(log: Log): TransferRow
    requires Admitted(log)
  {
    var t := log.decoded.value;
    TransferRow(AsI64(log.blockNumber), t.from, t.to, ToDecimal(t.value), TimestampOf(log))
  }

  /** The body of the per-log loop: decode, timestamp, hash and insert
      guards, each skipping the log on failure; then classification and, for
      a watched transfer, the aggregate update. */
  function ProcessLog(s: Store, watch: seq<Address>, log: Log): (r: LogStep)
    // which guard, if any, turns the log away
    ensures r.outcome.DecodeSkipped? <==> log.decoded.None?
    ensures r.outcome.TimestampSkipped? <==> log.decoded.Some? && !log.blockLookup.BlockFound?
    ensures r.outcome.TxHashSkipped? <==> log.decoded.Some? && log.blockLookup.BlockFound? && log.txHash.None?
    ensures r.outcome.InsertSkipped? <==> Admitted(log) && log.faults.insertFails
    // a skipped log leaves the store exactly as it was
    ensures !Stored(log) ==> r.store == s
    // a stored log's hash is recorded once: its row is new only if the hash was
    ensures Stored(log) ==>
      && r.store.rawTransfers.Keys == s.rawTransfers.Keys + {log.txHash.value}
      && (log.txHash.value !in s.rawTransfers ==> r.store.rawTransfers[log.txHash.value] == RowOf(log))
    ensures RowsKept(s, r.store)
    // the aggregate is attempted exactly for stored, watched logs
    ensures r.outcome.AggregateUpdated? || r.outcome.UpdateFailed? <==> Stored(log) && Watched(watch, log)
    ensures Stored(log) && !Watched(watch, log) ==> r.outcome.Unwatched?
    // it succeeds exactly when the row is there, no statement fails and no
    // side reaches 2^256; the process panics exactly when a side would
    ensures r.outcome.AggregateUpdated? <==> UpdateSucceeds(s, watch, log)
    ensures Panics(r) <==> OverflowsOn(s, watch, log)
    ensures !r.outcome.AggregateUpdated? ==> r.store.netFlows == s.netFlows
  {
    match log.decoded
    case None => LogStep(s, DecodeSkipped)
    case Some(t) =>
      match log.blockLookup
      case LookupFailed => LogStep(s, TimestampSkipped)
      case BlockMissing => LogStep(s, TimestampSkipped)
      case BlockFound(_) =>
        match log.txHash
        case None => LogStep(s, TxHashSkipped)
        case Some(hash) =>
          match InsertRawTransfer(s, hash, RowOf(log), log.faults.insertFails)
          case Err(_) => LogStep(s, InsertSkipped)
          case Ok(inserted) => AggregateStep(inserted, watch, log)
  }

  /** The second half of the loop body, for a stored log: classification and,
      for a watched transfer, the aggregate update with the value printed
      back to decimal text. */
  function AggregateStep(s: Store, watch: seq<Address>, log: Log): (r: LogStep)
    requires Stored(log)
    ensures r.store.rawTransfers == s.rawTransfers
    ensures !Watched(watch, log) <==> r.outcome == Unwatched
    ensures r.outcome.AggregateUpdated? || r.outcome.UpdateFailed? || r.outcome.Unwatched?
    ensures r.outcome.AggregateUpdated? <==> UpdateSucceeds(s, watch, log)
    ensures Panics(r) <==> OverflowsOn(s, watch, log)
    ensures !r.outcome.AggregateUpdated? ==> r.store == s
  {
    var t := log.decoded.value;
    var flags := Classify(watch, t.from, t.to);
    if flags.isIn || flags.isOut then
      ParseToDecimal(t.value);
      match UpdateNetFlowsOnTransfer(s, ToDecimal(t.value), TimestampOf(log), flags.isIn, flags.isOut,
                                     log.faults.readFails, log.faults.writeFails)
      case Ok(updated) => LogStep(updated, AggregateUpdated)
      case Err(e) => LogStep(s, UpdateFailed(e))
    else LogStep(s, Unwatched)
  }

  /** Some log of the batch would overflow the aggregate of `s`. */
  predicate SomeLogOverflows(s: Store, watch: seq<Address>, logs: seq<Log>) {
    exists i {:trigger OverflowsOn(s, watch, logs[i])} | 0 <= i < |logs| :: OverflowsOn(s, watch, logs[i])
  }

  /** A panic on the first log is an overflow of the aggregate it met, which
      the panic leaves in place. */
  lemma PanicOverflowsFirst(s: Store, watch: seq<Address>, logs: seq<Log>)
    requires |logs| > 0 && Panics(ProcessLog(s, watch, logs[0]))
    ensures SomeLogOverflows(ProcessLog(s, watch, logs[0]).store, watch, logs)
  {
    var step := ProcessLog(s, watch, logs[0]);
    assert step.store.netFlows == s.netFlows;
    assert OverflowsOn(step.store, watch, logs[0]);
  }

  lemma OverflowInTail(s: Store, watch: seq<Address>, logs: seq<Log>)
    requires |logs| > 0 && SomeLogOverflows(s, watch, logs[1..])
    ensures SomeLogOverflows(s, watch, logs)
  {
    var i :| 0 <= i < |logs[1..]| && OverflowsOn(s, watch, logs[1..][i]);
    assert logs[i + 1] == logs[1..][i];
  }

  /** The stored, watched log gets as far as computing the new cumulatives:
      the aggregate row is there and reading it succeeds. */
  predicate ReachesAddition(s: Store, watch: seq<Address>, log: Log) {
    Stored(log) && Watched(watch, log) && !log.faults.readFails && NetFlowsId in s.netFlows
  }

  /** The U256 addition for this log reaches 2^256 on a flagged side. */
  predicate OverflowsOn(s: Store, watch: seq<Address>, log: Log) {
    && ReachesAddition(s, watch, log)
    && AdditionOverflows(s, log.decoded.value.value, FlagsOf(watch, log).isIn, FlagsOf(watch, log).isOut)
  }

  /** The log's aggregate update goes through and is written. */
  predicate UpdateSucceeds(s: Store, watch: seq<Address>, log: Log) {
    ReachesAddition(s, watch, log) && !OverflowsOn(s, watch, log) && !log.faults.writeFails
  }

  /** The most a log can add to either cumulative. */
  function Charged(watch: seq<Address>, log: Log): nat {
    if Stored(log) && Watched(watch, log) then log.decoded.value.value else 0
  }

  function ChargedTotal(watch: seq<Address>, logs: seq<Log>): nat
    decreases |logs|
  {
    if |logs| == 0 then 0 else Charged(watch, logs[0]) + ChargedTotal(watch, logs[1..])
  }

  /** Adding `bound` to either cumulative of `s` stays below 2^256. */
  predicate Headroom(s: Store, bound: nat) {
    NetFlowsId in s.netFlows ==>
      && AggregateOf(s.netFlows[NetFlowsId]).cumulativeIn + bound < U256_MODULUS
      && AggregateOf(s.netFlows[NetFlowsId]).cumulativeOut + bound < U256_MODULUS
  }

  /** From `s` to `s'`, neither cumulative grew by more than `bound`. */
  predicate GrowthBounded(s: Store, s': Store, bound: nat) {
    NetFlowsId in s.netFlows ==>
      && NetFlowsId in s'.netFlows
      && AggregateOf(s'.netFlows[NetFlowsId]).cumulativeIn <= AggregateOf(s.netFlows[NetFlowsId]).cumulativeIn + bound
      && AggregateOf(s'.netFlows[NetFlowsId]).cumulativeOut <= AggregateOf(s.netFlows[NetFlowsId]).cumulativeOut + bound
  }

  /** Growth bounds compose, and headroom for two stretches of growth covers
      the first and, after it, the second. */
  lemma GrowthCompose(s: Store, s1: Store, s2: Store, a: nat, b: nat)
    requires NetFlowsGrow(s, s1)
    requires GrowthBounded(s, s1, a) && GrowthBounded(s1, s2, b)
    ensures GrowthBounded(s, s2, a + b)
    ensures Headroom(s, a + b) ==> Headroom(s, a) && Headroom(s1, b)
  {
  }

  /** What a successful aggregate update of one log does: the value is added
      to each flagged side, the timestamp is the log's block timestamp, the
      cumulatives never decrease and the net-flow invariant is kept. */
  lemma ProcessLogAggregate(s: Store, watch: seq<Address>, log: Log)
    ensures var r := ProcessLog(s, watch, log);
      && (r.outcome.AggregateUpdated? ==>
           && NetFlowsId in s.netFlows && NetFlowsId in r.store.netFlows
           && var cur := AggregateOf(s.netFlows[NetFlowsId]);
              var next := AggregateOf(r.store.netFlows[NetFlowsId]);
              var flags := FlagsOf(watch, log);
              && next.cumulativeIn == cur.cumulativeIn + Share(flags.isIn, log.decoded.value.value)
              && next.cumulativeOut == cur.cumulativeOut + Share(flags.isOut, log.decoded.value.value)
              && next.lastUpdated == TimestampOf(log))
      && NetFlowsGrow(s, r.store)
      && GrowthBounded(s, r.store, Charged(watch, log))
      && (AggregateConsistent(s) ==> AggregateConsistent(r.store))
  {
    var r := ProcessLog(s, watch, log);
    if r.outcome.AggregateUpdated? {
      var t := log.decoded.value;
      var inserted := InsertRawTransfer(s, log.txHash.value, RowOf(log), false).value;
      var flags := Classify(watch, t.from, t.to);
      ParseToDecimal(t.value);
      var u := UpdateNetFlowsOnTransfer(inserted, ToDecimal(t.value), TimestampOf(log), flags.isIn, flags.isOut,
                                        log.faults.readFails, log.faults.writeFails);
      assert r.store == u.value;
    }
  }

  /** A second transfer in an already stored transaction is not stored, yet
      it still reaches the aggregate and is counted there. */
  lemma DuplicateHashStillCounted(s: Store, watch: seq<Address>, log: Log)
    requires Stored(log) && log.txHash.value in s.rawTransfers
    requires UpdateSucceeds(s, watch, log) && log.decoded.value.value > 0
    ensures var r := ProcessLog(s, watch, log);
      && r.store.rawTransfers == s.rawTransfers
      && r.outcome.AggregateUpdated?
      && r.store.netFlows != s.netFlows
  {
    ProcessLogAggregate(s, watch, log);
  }

  /** The hashes of the logs in `logs` that reach the transfer table. */
  function StoredHashes(logs: seq<Log>): set<string> {
    set i | 0 <= i < |logs| && Stored(logs[i]) :: logs[i].txHash.value
  }

  /** The U256 addition overflowing panics, which ends the process. */
  predicate Panics(step: LogStep) {
    step.outcome == UpdateFailed(AdditionOverflow)
  }

  /** The hashes stored from a batch are those of its first log, if stored,
      and those of the rest. */
  lemma StoredHashesCons(logs: seq<Log>)
    requires |logs| > 0
    ensures StoredHashes(logs) == (if Stored(logs[0]) then {logs[0].txHash.value} else {}) + StoredHashes(logs[1..])
  {
    forall h | h in StoredHashes(logs)
      ensures h in (if Stored(logs[0]) then {logs[0].txHash.value} else {}) + StoredHashes(logs[1..])
    {
      var i :| 0 <= i < |logs| && Stored(logs[i]) && logs[i].txHash.value == h;
      if i > 0 {
        assert logs[1..][i - 1] == logs[i];
      }
    }
    forall h | h in StoredHashes(logs[1..])
      ensures h in StoredHashes(logs)
    {
      var i :| 0 <= i < |logs[1..]| && Stored(logs[1..][i]) && logs[1..][i].txHash.value == h;
      assert logs[i + 1] == logs[1..][i];
    }
  }

  /** Where the processing of a batch of logs left the store, and whether a
      panic cut it short. */
  datatype Batch = Batch(store: Store, halted: bool)

  /** The loop over one block's logs, in order. */
  function ProcessLogs(s: Store, watch: seq<Address>, logs: seq<Log>): (r: Batch)
    ensures RowsKept(s, r.store)
    ensures NetFlowsGrow(s, r.store)
    ensures AggregateConsistent(s) ==> AggregateConsistent(r.store)
    ensures r.store.rawTransfers.Keys <= s.rawTransfers.Keys + StoredHashes(logs)
    ensures !r.halted ==> r.store.rawTransfers.Keys == s.rawTransfers.Keys + StoredHashes(logs)
    decreases |logs|
  {
    if |logs| == 0 then
      assert StoredHashes(logs) == {};
      Batch(s, false)
    else
      var step := ProcessLog(s, watch, logs[0]);
      StoredHashesCons(logs);
      ProcessLogAggregate(s, watch, logs[0]);
      if Panics(step) then Batch(step.store, true)
      else ProcessLogs(step.store, watch, logs[1..])
  }

  /** A batch panics only on a log whose addition overflows the aggregate as
      it then stood, and that aggregate is what the panic leaves. With
      headroom for every watched value of the batch it never panics, and the
      cumulatives grow by at most that much. */
  lemma {:induction false} ProcessLogsHalts(s: Store, watch: seq<Address>, logs: seq<Log>)
    ensures var r := ProcessLogs(s, watch, logs);
      r.halted ==> SomeLogOverflows(r.store, watch, logs)
    ensures Headroom(s, ChargedTotal(watch, logs)) ==> !ProcessLogs(s, watch, logs).halted
    ensures GrowthBounded(s, ProcessLogs(s, watch, logs).store, ChargedTotal(watch, logs))
    decreases |logs|
  {
    if |logs| > 0 {
      var step := ProcessLog(s, watch, logs[0]);
      ProcessLogAggregate(s, watch, logs[0]);
      if Panics(step) {
        PanicOverflowsFirst(s, watch, logs);
      } else {
        ProcessLogsHalts(step.store, watch, logs[1..]);
        var rest := ProcessLogs(step.store, watch, logs[1..]);
        GrowthCompose(s, step.store, rest.store, Charged(watch, logs[0]), ChargedTotal(watch, logs[1..]));
        if rest.halted {
          OverflowInTail(rest.store, watch, logs);
        }
      }
    }
  }

  /** The provider as the loop sees it: `chain(b)(k)` answers the (k+1)-th
      log fetch for block `b`. */
  type Chain = nat -> nat -> FetchOutcome<Log>

  /** The logs the loop goes through for block `b`. The error arm is the
      source's `continue` on a failed retry, which never happens. */
  function BlockLogs(chain: Chain, b: nat): seq<Log> {
    match GetLogsWithRetry(chain(b)).result
    case Ok(logs) => logs
    case Err(_) => []
  }

  /** The hashes stored by a complete scan of blocks `b` through `last`. */
  function ScannedHashes(chain: Chain, b: nat, last: nat): set<string>
    decreases last + 1 - b
  {
    if b > last then {} else StoredHashes(BlockLogs(chain, b)) + ScannedHashes(chain, b + 1, last)
  }

  /** The most the scan of blocks `b` through `last` can add to either
      cumulative. */
  function RangeCharged(watch: seq<Address>, chain: Chain, b: nat, last: nat): nat
    decreases last + 1 - b
  {
    if b > last then 0 else ChargedTotal(watch, BlockLogs(chain, b)) + RangeCharged(watch, chain, b + 1, last)
  }

  datatype Scan = Scan(store: Store, visited: seq<nat>, halted: bool)

  /** `for blk_num in b..=last`: each block's logs fetched with retry and
      processed, in increasing block order, until the range ends or a panic
      stops the process. */
  function ScanBlocks(s: Store, watch: seq<Address>, b: nat, last: nat, chain: Chain): (r: Scan)
    requires b <= last + 1
    // blocks are visited consecutively from `b`, each once
    ensures |r.visited| <= last + 1 - b
    ensures forall i | 0 <= i < |r.visited| :: r.visited[i] == b + i
    ensures !r.halted ==> |r.visited| == last + 1 - b
    ensures r.halted ==> |r.visited| >= 1
    ensures RowsKept(s, r.store)
    ensures NetFlowsGrow(s, r.store)
    ensures AggregateConsistent(s) ==> AggregateConsistent(r.store)
    decreases last + 1 - b
  {
    if b > last then Scan(s, [], false)
    else
      var batch := ProcessLogs(s, watch, BlockLogs(chain, b));
      if batch.halted then Scan(batch.store, [b], true)
      else
        var rest := ScanBlocks(batch.store, watch, b + 1, last, chain);
        Scan(rest.store, [b] + rest.visited, rest.halted)
  }

  /** The transfer table gains at most the hashes stored in the range, and
      exactly those unless a panic cuts the scan short. */
  lemma {:induction false} ScanBlocksHashes(s: Store, watch: seq<Address>, b: nat, last: nat, chain: Chain)
    requires b <= last + 1
    ensures var r := ScanBlocks(s, watch, b, last, chain);
      && r.store.rawTransfers.Keys <= s.rawTransfers.Keys + ScannedHashes(chain, b, last)
      && (!r.halted ==> r.store.rawTransfers.Keys == s.rawTransfers.Keys + ScannedHashes(chain, b, last))
    decreases last + 1 - b
  {
    var r := ScanBlocks(s, watch, b, last, chain);
    if b <= last {
      var logs := BlockLogs(chain, b);
      var batch := ProcessLogs(s, watch, logs);
      var later := ScannedHashes(chain, b + 1, last);
      assert ScannedHashes(chain, b, last) == StoredHashes(logs) + later;
      if batch.halted {
        assert r.store == batch.store;
        KeysWithin(r.store.rawTransfers.Keys, s.rawTransfers.Keys, StoredHashes(logs), later);
      } else {
        ScanBlocksHashes(batch.store, watch, b + 1, last, chain);
        ScanBlocksFirst(s, watch, b, last, chain);
        var rest := ScanBlocks(batch.store, watch, b + 1, last, chain);
        assert r.store == rest.store && r.halted == rest.halted;
        KeysChain(s.rawTransfers.Keys, batch.store.rawTransfers.Keys, rest.store.rawTransfers.Keys, StoredHashes(logs), later, rest.halted);
      }
    }
  }

  lemma KeysWithin(k: set<string>, k0: set<string>, a: set<string>, b: set<string>)
    requires k <= k0 + a
    ensures k <= k0 + (a + b)
  {
  }

  /** Two stretches of key growth compose. */
  lemma KeysChain(k0: set<string>, k1: set<string>, k2: set<string>, a: set<string>, b: set<string>, halted: bool)
    requires k1 == k0 + a
    requires k2 <= k1 + b && (!halted ==> k2 == k1 + b)
    ensures k2 <= k0 + (a + b) && (!halted ==> k2 == k0 + (a + b))
  {
  }

  /** A scan panics only in the last block it visits, on a log whose addition
      overflows the aggregate; with headroom for every watched value in the
      range it never panics, and the cumulatives grow by at most that much. */
  lemma {:induction false} ScanBlocksHalts(s: Store, watch: seq<Address>, b: nat, last: nat, chain: Chain)
    requires b <= last + 1
    ensures ScanHaltFacts(s, watch, chain, RangeCharged(watch, chain, b, last), ScanBlocks(s, watch, b, last, chain))
    decreases last + 1 - b, 1
  {
    if b <= last {
      if ProcessLogs(s, watch, BlockLogs(chain, b)).halted {
        ScanHaltsInFirst(s, watch, b, last, chain);
      } else {
        ScanHaltsLater(s, watch, b, last, chain);
      }
    }
  }

  /** The case of `ScanBlocksHalts` where the first block panics. */
  lemma ScanHaltsInFirst(s: Store, watch: seq<Address>, b: nat, last: nat, chain: Chain)
    requires b <= last
    ensures ProcessLogs(s, watch, BlockLogs(chain, b)).halted ==>
      ScanHaltFacts(s, watch, chain, RangeCharged(watch, chain, b, last), ScanBlocks(s, watch, b, last, chain))
  {
    var logs := BlockLogs(chain, b);
    var batch := ProcessLogs(s, watch, logs);
    if batch.halted {
      ProcessLogsHalts(s, watch, logs);
      var r := ScanBlocks(s, watch, b, last, chain);
      var bound := RangeCharged(watch, chain, b, last);
      assert bound == ChargedTotal(watch, logs) + RangeCharged(watch, chain, b + 1, last);
      assert r == Scan(batch.store, [b], true);
      assert !Headroom(s, ChargedTotal(watch, logs));
      ScanHaltFactsFirst(s, watch, chain, logs, batch, bound, b, r);
    }
  }

  /** The case of `ScanBlocksHalts` where the first block goes through. */
  lemma {:induction false} ScanHaltsLater(s: Store, watch: seq<Address>, b: nat, last: nat, chain: Chain)
    requires b <= last
    ensures !ProcessLogs(s, watch, BlockLogs(chain, b)).halted ==>
      ScanHaltFacts(s, watch, chain, RangeCharged(watch, chain, b, last), ScanBlocks(s, watch, b, last, chain))
    decreases last + 1 - b, 0
  {
    var logs := BlockLogs(chain, b);
    var batch := ProcessLogs(s, watch, logs);
    if !batch.halted {
      ProcessLogsHalts(s, watch, logs);
      ScanBlocksHalts(batch.store, watch, b + 1, last, chain);
      var rest := ScanBlocks(batch.store, watch, b + 1, last, chain);
      var r := ScanBlocks(s, watch, b, last, chain);
      assert RangeCharged(watch, chain, b, last) == ChargedTotal(watch, logs) + RangeCharged(watch, chain, b + 1, last);
      assert r == Scan(rest.store, [b] + rest.visited, rest.halted);
      ScanHaltFactsLater(s, batch.store, watch, chain, ChargedTotal(watch, logs), RangeCharged(watch, chain, b + 1, last), b, rest, r);
    }
  }

  /** What `ScanBlocksHalts` states of a scan `r` from `s` whose watched values
      add up to at most `bound`. */
  predicate ScanHaltFacts(s: Store, watch: seq<Address>, chain: Chain, bound: nat, r: Scan) {
    && (r.halted ==> |r.visited| > 0 && SomeLogOverflows(r.store, watch, BlockLogs(chain, r.visited[|r.visited| - 1])))
    && (Headroom(s, bound) ==> !r.halted)
    && GrowthBounded(s, r.store, bound)
  }

  /** A scan cut short by a panic in its first block. */
  lemma ScanHaltFactsFirst(s: Store, watch: seq<Address>, chain: Chain, logs: seq<Log>, batch: Batch, bound: nat, b: nat, r: Scan)
    requires logs == BlockLogs(chain, b)
    requires batch.halted && SomeLogOverflows(batch.store, watch, logs)
    requires !Headroom(s, bound)
    requires GrowthBounded(s, batch.store, bound)
    requires r == Scan(batch.store, [b], true)
    ensures ScanHaltFacts(s, watch, chain, bound, r)
  {
  }

  /** A scan whose first block went through, followed by the scan `rest` of
      the remaining blocks. */
  lemma ScanHaltFactsLater(s: Store, s1: Store, watch: seq<Address>, chain: Chain, first: nat, bound: nat, b: nat, rest: Scan, r: Scan)
    requires NetFlowsGrow(s, s1) && GrowthBounded(s, s1, first)
    requires ScanHaltFacts(s1, watch, chain, bound, rest)
    requires r == Scan(rest.store, [b] + rest.visited, rest.halted)
    ensures ScanHaltFacts(s, watch, chain, first + bound, r)
  {
    GrowthCompose(s, s1, rest.store, first, bound);
    if rest.halted {
      assert r.visited[|r.visited| - 1] == rest.visited[|rest.visited| - 1];
    }
  }

  /** The in-memory state of the loop: the next block to scan and the store. */
  datatype Indexer = Indexer(cursor: U64, store: Store)

  datatype RoundResult = RoundResult(state: Indexer, visited: seq<nat>, halted: bool)

  /** The height below which advancing the cursor past it cannot overflow. */
  predicate HeightInRange(height: Option<U64>) {
    height.Some? ==> height.value + 1 < U64_MODULUS
  }

  /** One pass of the polling loop. A failed height query changes nothing
      (the loop waits and asks again); a height below the cursor changes
      nothing; otherwise every block from the cursor to the height is
      scanned and the cursor moves just past the height. */
  function Round(st: Indexer, watch: seq<Address>, height: Option<U64>, chain: Chain): (r: RoundResult)
    requires HeightInRange(height)
    ensures height.None? ==> r == RoundResult(st, [], false)
    ensures height.Some? && height.value < st.cursor ==> r == RoundResult(st, [], false)
    ensures height.Some? && height.value >= st.cursor && !r.halted ==>
      && r.state.cursor == height.value + 1
      && |r.visited| == height.value + 1 - st.cursor
      && r.state.store.rawTransfers.Keys == st.store.rawTransfers.Keys + ScannedHashes(chain, st.cursor, height.value)
    ensures r.halted ==> r.state.cursor == st.cursor && |r.visited| >= 1
    ensures r.state.cursor >= st.cursor
    ensures forall i | 0 <= i < |r.visited| :: r.visited[i] == st.cursor + i
    ensures !r.halted ==> forall i | 0 <= i < |r.visited| :: r.visited[i] < r.state.cursor
    ensures RowsKept(st.store, r.state.store)
    ensures NetFlowsGrow(st.store, r.state.store)
    ensures AggregateConsistent(st.store) ==> AggregateConsistent(r.state.store)
  {
    match height
    case None => RoundResult(st, [], false)
    case Some(last) =>
      if last >= st.cursor then
        ScanBlocksHashes(st.store, watch, st.cursor, last, chain);
        var scan := ScanBlocks(st.store, watch, st.cursor, last, chain);
        if scan.halted then RoundResult(st.(store := scan.store), scan.visited, true)
        else RoundResult(Indexer(last + 1, scan.store), scan.visited, false)
      else RoundResult(st, [], false)
  }

  /** A round panics only on a log of its last visited block whose addition
      overflows the aggregate. With headroom for every watched value from the
      cursor to the height, it completes and the cursor moves just past the
      height. */
  lemma RoundHalts(st: Indexer, watch: seq<Address>, height: Option<U64>, chain: Chain)
    requires HeightInRange(height)
    ensures var r := Round(st, watch, height, chain);
      r.halted ==> SomeLogOverflows(r.state.store, watch, BlockLogs(chain, r.visited[|r.visited| - 1]))
    ensures height.Some? && height.value >= st.cursor && Headroom(st.store, RangeCharged(watch, chain, st.cursor, height.value)) ==>
      var r := Round(st, watch, height, chain);
      !r.halted && r.state.cursor == height.value + 1
  {
    if height.Some? && height.value >= st.cursor {
      RoundScanHalts(st, watch, height.value, chain);
    }
  }

  /** The case of `RoundHalts` where the round scans. */
  lemma RoundScanHalts(st: Indexer, watch: seq<Address>, last: U64, chain: Chain)
    requires last + 1 < U64_MODULUS && last >= st.cursor
    ensures RoundHaltFacts(st, watch, chain, RangeCharged(watch, chain, st.cursor, last), last, Round(st, watch, Some(last), chain))
  {
    ScanBlocksHalts(st.store, watch, st.cursor, last, chain);
    RoundIsRoundOf(st, watch, last, chain);
    RoundOfFacts(st, watch, chain, RangeCharged(watch, chain, st.cursor, last), last, ScanBlocks(st.store, watch, st.cursor, last, chain));
  }

  /** A scanning round is the scan of its range, with the cursor moved on
      unless the scan panicked. */
  lemma RoundIsRoundOf(st: Indexer, watch: seq<Address>, last: U64, chain: Chain)
    requires last + 1 < U64_MODULUS && last >= st.cursor
    ensures Round(st, watch, Some(last), chain) == RoundOf(st, last, ScanBlocks(st.store, watch, st.cursor, last, chain))
  {
  }

  /** The round that ends with `scan` over blocks up to `last`. */
  function RoundOf(st: Indexer, last: U64, scan: Scan): RoundResult
    requires last + 1 < U64_MODULUS
  {
    if scan.halted then RoundResult(st.(store := scan.store), scan.visited, true)
    else RoundResult(Indexer(last + 1, scan.store), scan.visited, false)
  }

  /** What `RoundHalts` states about a round `r` that scans up to `last`
      from `st`, with `bound` the watched value of the range. */
  predicate RoundHaltFacts(st: Indexer, watch: seq<Address>, chain: Chain, bound: nat, last: nat, r: RoundResult) {
    && (r.halted ==> |r.visited| > 0 && SomeLogOverflows(r.state.store, watch, BlockLogs(chain, r.visited[|r.visited| - 1])))
    && (Headroom(st.store, bound) ==> !r.halted && r.state.cursor == last + 1)
  }

  lemma RoundOfFacts(st: Indexer, watch: seq<Address>, chain: Chain, bound: nat, last: U64, scan: Scan)
    requires last + 1 < U64_MODULUS
    requires ScanHaltFacts(st.store, watch, chain, bound, scan)
    ensures RoundHaltFacts(st, watch, chain, bound, last, RoundOf(st, last, scan))
  {
  }

  /** Scanning one more block after a range that did not panic is one more
      step of the loop. */
  lemma {:induction false} ScanBlocksSnoc(s: Store, watch: seq<Address>, b: nat, last: nat, chain: Chain)
    requires b <= last + 1
    ensures var prev := ScanBlocks(s, watch, b, last, chain);
      !prev.halted ==>
        var batch := ProcessLogs(prev.store, watch, BlockLogs(chain, last + 1));
        var r := ScanBlocks(s, watch, b, last + 1, chain);
        r.store == batch.store && r.halted == batch.halted
    decreases last + 1 - b, 1
  {
    if b <= last && !ProcessLogs(s, watch, BlockLogs(chain, b)).halted {
      ScanBlocksSnocStep(s, watch, b, last, chain);
    }
  }

  /** The case of `ScanBlocksSnoc` where the first block goes through. */
  lemma {:induction false} ScanBlocksSnocStep(s: Store, watch: seq<Address>, b: nat, last: nat, chain: Chain)
    requires b <= last
    ensures var prev := ScanBlocks(s, watch, b, last, chain);
      !ProcessLogs(s, watch, BlockLogs(chain, b)).halted && !prev.halted ==>
        var batch := ProcessLogs(prev.store, watch, BlockLogs(chain, last + 1));
        var r := ScanBlocks(s, watch, b, last + 1, chain);
        r.store == batch.store && r.halted == batch.halted
    decreases last + 1 - b, 0
  {
    var first := ProcessLogs(s, watch, BlockLogs(chain, b));
    var prev := ScanBlocks(s, watch, b, last, chain);
    ScanBlocksFirst(s, watch, b, last, chain);
    if !first.halted && !prev.halted {
      var rest := ScanBlocks(first.store, watch, b + 1, last, chain);
      var batch := ProcessLogs(rest.store, watch, BlockLogs(chain, last + 1));
      ScanBlocksSnoc(first.store, watch, b + 1, last, chain);
      ScanBlocksFirst(s, watch, b, last + 1, chain);
      var r := ScanBlocks(s, watch, b, last + 1, chain);
      assert r.store == batch.store && r.halted == batch.halted;
    }
  }

  /** When the first block goes through, the scan ends where the scan of the
      remaining blocks from its store ends. */
  lemma ScanBlocksFirst(s: Store, watch: seq<Address>, b: nat, last: nat, chain: Chain)
    requires b <= last
    ensures var first := ProcessLogs(s, watch, BlockLogs(chain, b));
      !first.halted ==>
        var rest := ScanBlocks(first.store, watch, b + 1, last, chain);
        var r := ScanBlocks(s, watch, b, last, chain);
        r.store == rest.store && r.halted == rest.halted
  {
  }

  /** Across a whole range, when the final log of the final block updates the
      aggregate, `last_updated` ends as that log's block timestamp. */
  lemma RangeLastUpdateWins(s: Store, watch: seq<Address>, b: nat, last: nat, chain: Chain, front: seq<Log>, log: Log)
    requires b <= last + 1
    requires BlockLogs(chain, last + 1) == front + [log]
    ensures var prev := ScanBlocks(s, watch, b, last, chain);
      var mid := ProcessLogs(prev.store, watch, front);
      !prev.halted && !mid.halted && ProcessLog(mid.store, watch, log).outcome.AggregateUpdated? ==>
        var r := ScanBlocks(s, watch, b, last + 1, chain);
        && !r.halted
        && NetFlowsId in r.store.netFlows
        && r.store.netFlows[NetFlowsId].lastUpdated == TimestampOf(log)
  {
    var prev := ScanBlocks(s, watch, b, last, chain);
    if !prev.halted {
      ScanBlocksSnoc(s, watch, b, last, chain);
      LastUpdateWins(prev.store, watch, front, log);
    }
  }

  /** Processing one more log after a batch that did not panic is one more
      step of the loop. */
  lemma {:induction false} ProcessLogsSnoc(s: Store, watch: seq<Address>, logs: seq<Log>, log: Log)
    requires !ProcessLogs(s, watch, logs).halted
    ensures var step := ProcessLog(ProcessLogs(s, watch, logs).store, watch, log);
      ProcessLogs(s, watch, logs + [log]) == Batch(step.store, Panics(step))
    decreases |logs|
  {
    if |logs| == 0 {
      assert logs + [log] == [log];
      assert [log][1..] == [];
    } else {
      var step := ProcessLog(s, watch, logs[0]);
      assert (logs + [log])[0] == logs[0];
      assert (logs + [log])[1..] == logs[1..] + [log];
      ProcessLogsSnoc(step.store, watch, logs[1..], log);
    }
  }

  /** Logs are applied in order, so when the last log of a batch updates the
      aggregate, `last_updated` ends as that log's block timestamp, never an
      earlier one's. */
  lemma LastUpdateWins(s: Store, watch: seq<Address>, logs: seq<Log>, log: Log)
    ensures var before := ProcessLogs(s, watch, logs);
      !before.halted && ProcessLog(before.store, watch, log).outcome.AggregateUpdated? ==>
        var r := ProcessLogs(s, watch, logs + [log]);
        && !r.halted
        && NetFlowsId in r.store.netFlows
        && r.store.netFlows[NetFlowsId].lastUpdated == TimestampOf(log)
  {
    var before := ProcessLogs(s, watch, logs);
    if !before.halted {
      ProcessLogsSnoc(s, watch, logs, log);
      ProcessLogAggregate(before.store, watch, log);
    }
  }

  /** The inputs of one polling round: the height answer and the chain. */
  datatype RoundInput = RoundInput(height: Option<U64>, chain: Chain)

  datatype RunResult = RunResult(state: Indexer, visited: seq<nat>, halted: bool)

  predicate StrictlyIncreasing(xs: seq<nat>) {
    forall i, j | 0 <= i < j < |xs| :: xs[i] < xs[j]
  }

  predicate HeightsInRange(rounds: seq<RoundInput>) {
    forall i | 0 <= i < |rounds| :: HeightInRange(rounds[i].height)
  }

  /** The polling loop over a sequence of rounds, stopping early if a round
      panics. */
  function Run(st: Indexer, watch: seq<Address>, rounds: seq<RoundInput>): (r: RunResult)
    requires HeightsInRange(rounds)
    ensures r.state.cursor >= st.cursor
    // across rounds no block is scanned twice and none is scanned out of order
    ensures StrictlyIncreasing(r.visited)
    ensures forall i | 0 <= i < |r.visited| :: st.cursor <= r.visited[i]
    ensures !r.halted ==> forall i | 0 <= i < |r.visited| :: r.visited[i] < r.state.cursor
    ensures RowsKept(st.store, r.state.store)
    ensures NetFlowsGrow(st.store, r.state.store)
    ensures AggregateConsistent(st.store) ==> AggregateConsistent(r.state.store)
    decreases |rounds|
  {
    if |rounds| == 0 then RunResult(st, [], false)
    else
      var round := Round(st, watch, rounds[0].height, rounds[0].chain);
      if round.halted then RunResult(round.state, round.visited, true)
      else
        var rest := Run(round.state, watch, rounds[1..]);
        RunResult(rest.state, round.visited + rest.visited, rest.halted)
  }

  /** The `start` command: the cursor begins at the chain height read at
      startup (a failed read ends the command), then the loop runs. */
  function Session(startHeight: Option<U64>, store: Store, watch: seq<Address>, rounds: seq<RoundInput>): (r: Option<RunResult>)
    requires HeightsInRange(rounds)
    ensures r.None? <==> startHeight.None?
    // blocks mined before startup are never scanned, and none twice
    ensures r.Some? ==> forall i | 0 <= i < |r.value.visited| :: startHeight.value <= r.value.visited[i]
    ensures r.Some? ==> StrictlyIncreasing(r.value.visited)
    ensures r.Some? ==> r.value.state.cursor >= startHeight.value
    ensures r.Some? ==> RowsKept(store, r.value.state.store) && NetFlowsGrow(store, r.value.state.store)
    ensures r.Some? && AggregateConsistent(store) ==> AggregateConsistent(r.value.state.store)
  {
    match startHeight
    case None => None
    case Some(h) => Some(Run(Indexer(h, store), watch, rounds))
  }
}
