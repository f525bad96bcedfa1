/** The ledger store: the deduplicated `raw_transfers` table keyed by
    transaction hash, and the `net_flows` table whose row with id 1 holds the
    cumulative aggregate as decimal text. Each function is one call of the
    store API; a `fails` argument stands for SQLite reporting an error on the
    statement (I/O, locking), which the model does not look inside. */
module Db {
  import opened Wrappers
  import opened Amount

  /** One `raw_transfers` row; its key, the transaction hash, is the map key. */
  datatype TransferRow = TransferRow(
    blockNumber: int,
    fromAddress: string,
    toAddress: string,
    value: string,
    timestamp: int)

  /** One `net_flows` row, as text columns plus an integer timestamp. */
  datatype NetFlowRow = NetFlowRow(
    cumulativeIn: string,
    cumulativeOut: string,
    netFlow: string,
    lastUpdated: int)

  datatype Store = Store(
    rawTransfers: map<string, TransferRow>,
    netFlows: map<int, NetFlowRow>)

  /** The id of the singleton aggregate row. */
  const NetFlowsId: int := 1

  datatype DbError = RowNotFound | StatementFailed

  /** Why `update_net_flows_on_transfer` did not write. `AdditionOverflow`
      stands for the U256 addition reaching 2^256, which aborts the process. */
  datatype UpdateError = ReadFailed(cause: DbError) | AdditionOverflow | WriteFailed

  /** The aggregate as the update reads it: each text column parsed leniently. */
  datatype Aggregate = Aggregate(cumulativeIn: U256, cumulativeOut: U256, netFlow: U256, lastUpdated: int)

  function AggregateOf(row: NetFlowRow): Aggregate {
    Aggregate(ParseOrZero(row.cumulativeIn), ParseOrZero(row.cumulativeOut),
              ParseOrZero(row.netFlow), row.lastUpdated)
  }

  /** Net flow is inbound minus outbound, floored at zero. */
  predicate NetFlowFloored(a: Aggregate) {
    && (a.cumulativeIn >= a.cumulativeOut ==> a.netFlow + a.cumulativeOut == a.cumulativeIn)
    && (a.cumulativeIn < a.cumulativeOut ==> a.netFlow == 0)
  }

  /** `INSERT OR IGNORE INTO raw_transfers`: a new hash adds its row, a known
      hash leaves the table as it was. */
  function InsertRawTransfer(s: Store, txHash: string, row: TransferRow, fails: bool): (r: Result<Store, DbError>)
    ensures r.Err? <==> fails
    ensures r.Ok? ==> r.value.netFlows == s.netFlows
    ensures r.Ok? && txHash in s.rawTransfers ==> r.value == s
    ensures r.Ok? && txHash !in s.rawTransfers ==>
      && r.value.rawTransfers.Keys == s.rawTransfers.Keys + {txHash}
      && r.value.rawTransfers[txHash] == row
      && forall h :: h in s.rawTransfers ==> r.value.rawTransfers[h] == s.rawTransfers[h]
  {
    if fails then Err(StatementFailed)
    else if txHash in s.rawTransfers then Ok(s)
    else Ok(s.(rawTransfers := s.rawTransfers[txHash := row]))
  }

  /** `read_net_flows`: the four columns of the row with id 1. */
  function ReadNetFlows(s: Store, fails: bool): (r: Result<NetFlowRow, DbError>)
    ensures r.Err? <==> fails || NetFlowsId !in s.netFlows
    ensures r == Err(RowNotFound) <==> !fails && NetFlowsId !in s.netFlows
    ensures r.Ok? ==> NetFlowsId in s.netFlows && r.value == s.netFlows[NetFlowsId]
  {
    if fails then Err(StatementFailed)
    else if NetFlowsId in s.netFlows then Ok(s.netFlows[NetFlowsId])
    else Err(RowNotFound)
  }

  /** The amount added to one side: all of it when the flag is set, else none. */
  function Share(flag: bool, amount: nat): nat {
    if flag then amount else 0
  }

  /** Adding `amount` to the flagged sides of the aggregate in `s` would
      reach 2^256 on at least one side. */
  predicate AdditionOverflows(s: Store, amount: nat, isIn: bool, isOut: bool)
    requires NetFlowsId in s.netFlows
  {
    var cur := AggregateOf(s.netFlows[NetFlowsId]);
    || cur.cumulativeIn + Share(isIn, amount) >= U256_MODULUS
    || cur.cumulativeOut + Share(isOut, amount) >= U256_MODULUS
  }

  /** `update_net_flows_on_transfer`: a read-modify-write of the row with
      id 1. The stored cumulatives and the amount are parsed leniently, the
      amount is added to each flagged side, the net flow is recomputed from
      the new cumulatives and the timestamp overwrites `last_updated`. */
  function UpdateNetFlowsOnTransfer(s: Store, amount: string, timestamp: int, isIn: bool, isOut: bool,
                                    readFails: bool, writeFails: bool): (r: Result<Store, UpdateError>)
    // the read fails exactly when the statement fails or the row is absent
    ensures r.Err? && r.error.ReadFailed? <==> readFails || NetFlowsId !in s.netFlows
    ensures r == Err(ReadFailed(RowNotFound)) <==> !readFails && NetFlowsId !in s.netFlows
    // the addition overflows exactly when a flagged side reaches 2^256
    ensures r == Err(AdditionOverflow) <==>
      !readFails && NetFlowsId in s.netFlows && AdditionOverflows(s, ParseOrZero(amount), isIn, isOut)
    // the write fails only when its statement does
    ensures r == Err(WriteFailed) <==>
      && !readFails && NetFlowsId in s.netFlows && !AdditionOverflows(s, ParseOrZero(amount), isIn, isOut)
      && writeFails
    // so the update succeeds exactly when the row is there, no statement
    // fails and neither flagged side reaches 2^256
    ensures r.Ok? <==>
      && !readFails && !writeFails && NetFlowsId in s.netFlows
      && !AdditionOverflows(s, ParseOrZero(amount), isIn, isOut)
    ensures r.Ok? ==>
      && !readFails && !writeFails
      && NetFlowsId in s.netFlows && NetFlowsId in r.value.netFlows
      && r.value.rawTransfers == s.rawTransfers
      && (forall id :: id in s.netFlows && id != NetFlowsId ==> id in r.value.netFlows && r.value.netFlows[id] == s.netFlows[id])
      && r.value.netFlows.Keys == s.netFlows.Keys
      && var cur := AggregateOf(s.netFlows[NetFlowsId]);
         var row := r.value.netFlows[NetFlowsId];
         var next := AggregateOf(row);
         // each flagged side grows by the amount, the other stays put
         && next.cumulativeIn == cur.cumulativeIn + Share(isIn, ParseOrZero(amount))
         && next.cumulativeOut == cur.cumulativeOut + Share(isOut, ParseOrZero(amount))
         && NetFlowFloored(next)
         && next.lastUpdated == timestamp
         && IsCanonical(row.cumulativeIn) && IsCanonical(row.cumulativeOut) && IsCanonical(row.netFlow)
  {
    match ReadNetFlows(s, readFails)
    case Err(e) => Err(ReadFailed(e))
    case Ok(cur) =>
      var curIn := ParseOrZero(cur.cumulativeIn);
      var curOut := ParseOrZero(cur.cumulativeOut);
      var amt := ParseOrZero(amount);
      var newIn := if isIn then curIn + amt else curIn;
      var newOut := if isOut then curOut + amt else curOut;
      if newIn >= U256_MODULUS || newOut >= U256_MODULUS then Err(AdditionOverflow)
      else
        var newNet := if newIn >= newOut then newIn - newOut else 0;
        if writeFails then Err(WriteFailed)
        else
          ParseToDecimal(newIn);
          ParseToDecimal(newOut);
          ParseToDecimal(newNet);
          var row := NetFlowRow(ToDecimal(newIn), ToDecimal(newOut), ToDecimal(newNet), timestamp);
          Ok(s.(netFlows := s.netFlows[NetFlowsId := row]))
  }

  /** Every row `s` holds is still in `s'`, unchanged: the transfer table
      only grows. */
  predicate RowsKept(s: Store, s': Store) {
    forall h | h in s.rawTransfers :: h in s'.rawTransfers && s'.rawTransfers[h] == s.rawTransfers[h]
  }

  /** The aggregate row exists in `s'` exactly when it exists in `s`, and
      neither parsed cumulative has decreased. */
  predicate NetFlowsGrow(s: Store, s': Store) {
    && (NetFlowsId in s.netFlows <==> NetFlowsId in s'.netFlows)
    && (NetFlowsId in s.netFlows ==>
         && AggregateOf(s.netFlows[NetFlowsId]).cumulativeIn <= AggregateOf(s'.netFlows[NetFlowsId]).cumulativeIn
         && AggregateOf(s.netFlows[NetFlowsId]).cumulativeOut <= AggregateOf(s'.netFlows[NetFlowsId]).cumulativeOut)
  }

  /** The aggregate invariant of the store: whenever the row with id 1
      exists, its net flow is its inbound minus outbound, floored at zero. */
  predicate AggregateConsistent(s: Store) {
    NetFlowsId in s.netFlows ==> NetFlowFloored(AggregateOf(s.netFlows[NetFlowsId]))
  }

  /** The freshly seeded store: no transfers and an all-zero aggregate. */
  function SeededStore(): (s: Store)
    ensures AggregateConsistent(s)
    ensures NetFlowsId in s.netFlows && AggregateOf(s.netFlows[NetFlowsId]) == Aggregate(0, 0, 0, 0)
  {
    Store(map[], map[NetFlowsId := NetFlowRow("0", "0", "0", 0)])
  }

  /** Inserting a hash a second time, with any row, changes nothing. */
  lemma InsertIdempotent(s: Store, txHash: string, row: TransferRow, again: TransferRow)
    requires InsertRawTransfer(s, txHash, row, false).Ok?
    ensures var once := InsertRawTransfer(s, txHash, row, false).value;
      InsertRawTransfer(once, txHash, again, false) == Ok(once)
  {
  }

  /** A successful update re-establishes the aggregate invariant, whatever
      the row held before. */
  lemma UpdateEstablishesInvariant(s: Store, amount: string, timestamp: int, isIn: bool, isOut: bool,
                                   readFails: bool, writeFails: bool)
    requires UpdateNetFlowsOnTransfer(s, amount, timestamp, isIn, isOut, readFails, writeFails).Ok?
    ensures AggregateConsistent(UpdateNetFlowsOnTransfer(s, amount, timestamp, isIn, isOut, readFails, writeFails).value)
  {
  }

  /** Reading the aggregate back after a successful update sees the update
      in full: both cumulatives grown by the parsed amount on their flagged
      sides, the net flow floored, and the new timestamp. */
  lemma ReadAfterUpdate(s: Store, amount: string, timestamp: int, isIn: bool, isOut: bool,
                        readFails: bool, writeFails: bool)
    ensures var u := UpdateNetFlowsOnTransfer(s, amount, timestamp, isIn, isOut, readFails, writeFails);
      && (u.Ok? ==>
           var read := ReadNetFlows(u.value, false);
           && read.Ok?
           && var before := AggregateOf(ReadNetFlows(s, false).value);
              var after := AggregateOf(read.value);
              && after.cumulativeIn == before.cumulativeIn + Share(isIn, ParseOrZero(amount))
              && after.cumulativeOut == before.cumulativeOut + Share(isOut, ParseOrZero(amount))
              && NetFlowFloored(after)
              && after.lastUpdated == timestamp)
  {
  }

  /** An amount that does not parse (a non-digit, or a value of 2^256 or
      more) counts as zero: the cumulatives keep their parsed values, but the
      net flow is recomputed and the timestamp is still written. */
  lemma MalformedAmountUpdate(s: Store, amount: string, timestamp: int, isIn: bool, isOut: bool)
    requires FromDecStr(amount).None?
    requires NetFlowsId in s.netFlows
    ensures var r := UpdateNetFlowsOnTransfer(s, amount, timestamp, isIn, isOut, false, false);
      var cur := AggregateOf(s.netFlows[NetFlowsId]);
      && r.Ok?
      && AggregateOf(r.value.netFlows[NetFlowsId]).cumulativeIn == cur.cumulativeIn
      && AggregateOf(r.value.netFlows[NetFlowsId]).cumulativeOut == cur.cumulativeOut
      && NetFlowFloored(AggregateOf(r.value.netFlows[NetFlowsId]))
      && r.value.netFlows[NetFlowsId].lastUpdated == timestamp
  {
  }

  /** On a seeded store, an outbound transfer of "1000" at time 1000. */
  lemma OutboundScenario()
    ensures var r := UpdateNetFlowsOnTransfer(SeededStore(), "1000", 1000, false, true, false, false);
      r.Ok? && AggregateOf(r.value.netFlows[NetFlowsId]) == Aggregate(0, 1000, 0, 1000)
  {
    assert ParseOrZero("1000") == 1000 by {
      assert "1000"[..3] == "100";
      assert "100"[..2] == "10";
      assert "10"[..1] == "1";
      assert "1"[..0] == "";
    }
  }

  /** After that outbound transfer, an inbound transfer of "500" at time
      1100 leaves the net flow floored at zero. */
  lemma InboundAfterOutboundScenario(s: Store)
    requires NetFlowsId in s.netFlows && AggregateOf(s.netFlows[NetFlowsId]) == Aggregate(0, 1000, 0, 1000)
    ensures var r := UpdateNetFlowsOnTransfer(s, "500", 1100, true, false, false, false);
      r.Ok? && AggregateOf(r.value.netFlows[NetFlowsId]) == Aggregate(500, 1000, 0, 1100)
  {
    ParseFiveHundred();
    var r := UpdateNetFlowsOnTransfer(s, "500", 1100, true, false, false, false);
    assert !AdditionOverflows(s, 500, true, false);
    var next := AggregateOf(r.value.netFlows[NetFlowsId]);
    assert next.cumulativeIn == 500 && next.cumulativeOut == 1000;
    assert NetFlowFloored(next);
  }

  lemma ParseFiveHundred()
    ensures ParseOrZero("500") == 500
  {
    assert "500"[..2] == "50";
    assert "50"[..1] == "5";
    assert "5"[..0] == "";
  }
}
