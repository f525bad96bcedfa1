# Polygon token-transfer indexer: ingestion pipeline and net-flow ledger

This Dafny project models the core of a Rust blockchain indexer. The indexer polls a chain for
`Transfer(from, to, value)` events of one token contract. It stores each transfer once, keyed
by transaction hash. It also keeps a single aggregate row with the cumulative inbound and
outbound value for a fixed watch-list of addresses, the net flow (inbound minus outbound,
floored at zero) and the time of the last update.

The model follows the code in `src/db.rs` and in the `start` loop of `src/main.rs`. The chain,
the SQLite connection and the ABI decoder become inputs:

- `Amount`: `U256` amounts and their decimal text. Parsing is `from_dec_str`, modelled as a
  digit fold that fails on a non-digit or on reaching 2^256. `ParseOrZero` is the lenient
  `unwrap_or(zero)` form. Printing (`to_string`) gives canonical decimal text. The two are
  proved to be inverses.
- `Db`: the store is a `map` from transaction hash to row, plus the `net_flows` table keyed by
  id. It has three operations: `INSERT OR IGNORE` of a transfer row, the read of row 1, and the
  read-modify-write of the aggregate. A `fails` flag stands for SQLite reporting an error on a
  statement.
- `Retry`: `get_logs_with_retry`, taken over an input `fetch(k)` that gives the outcome of the
  (k+1)-th call.
- `Watch`: the case-insensitive watch-list test that produces `is_in` and `is_out`.
- `Ingest`: the guard chain for one log (decode, timestamp, transaction hash, insert), then the
  classification and the conditional aggregate update. On top of that come the loop over one
  block's logs, the scan of a block range, one polling round, a sequence of rounds, and the
  `start` command.

U256 sums are not unbounded. Each value is a `nat` below 2^256. An addition that reaches 2^256
is the `AdditionOverflow` outcome: the `U256` `+` panics, so the model stops the run there and
writes nothing.

Four behaviours of the code are worth noting:

- A log that decodes but has no block number makes the code panic at the `unwrap`
  (src/main.rs:142); it is not skipped. The model excludes logs without a block number by type,
  including undecodable ones the code would skip.
- Amounts are 256-bit, not unbounded. An overflowing sum aborts the process.
- A failed height query at the top of a round goes straight to the next query. The model treats
  that round as changing nothing.
- `INSERT OR IGNORE` drops a log whose transaction hash is already stored, but that log still
  goes on to the aggregate update. A second watched `Transfer` in one transaction is therefore
  counted in the aggregate without a row of its own.

## Model

| member | source | states |
|---|---|---|
| Amount.FromDecStr | src/db.rs:46-48 | parsing succeeds exactly on all-digit text whose value is below 2^256, and then yields that value |
| Amount.FoldDigitsCorrect | src/db.rs:46-48 | the left-to-right fold with per-step overflow checks accepts exactly the in-range digit strings and computes their value |
| Amount.ParseOrZero | src/db.rs:46-48 | the lenient parse gives the value of in-range digit text and zero for anything else |
| Amount.MalformedIsZero | src/db.rs:48 | text with a non-digit is rejected by the parse and read as zero |
| Amount.ToDecimal | src/db.rs:56 | `to_string` yields canonical digits (no leading zero except "0") that denote the number |
| Amount.ParseToDecimal | src/db.rs:46-56 | every U256 written with `to_string` is read back unchanged by `from_dec_str`, so the aggregate keeps its values across updates |
| Amount.ToDecimalOfCanonical | src/db.rs:46-56 | printing the value of canonical text gives back that text |
| Amount.AmountRoundTrip | src/db.rs:46-56 | printing the lenient parse of in-range digit text gives the text with its leading zeros removed ("0" for all zeros) |
| Db.InsertRawTransfer | src/db.rs:14-28 | a new hash adds exactly its row and keeps every other row; a known hash leaves the store unchanged; a failing statement is an error |
| Db.InsertIdempotent | src/db.rs:23-25 | inserting the same hash a second time, with any row, leaves the store as the first insert left it |
| Db.ReadNetFlows | src/db.rs:30-42 | the read fails with "not found" exactly when the statement succeeds and row 1 is absent; a failing statement is a statement error; otherwise it returns that row's four columns |
| Db.UpdateNetFlowsOnTransfer | src/db.rs:44-59 | the update succeeds exactly when the read and the write statements succeed, row 1 exists and neither flagged side reaches 2^256; a failed read or a missing row is a read error, a flagged side reaching 2^256 is an overflow, and a failed write is a write error; on success each flagged cumulative grows by the parsed amount and the other stays put, the net flow is inbound minus outbound floored at zero, `last_updated` is the timestamp, the columns are canonical, and nothing else changes |
| Db.ReadAfterUpdate | src/db.rs:30-59 | after a successful update the next read of row 1 succeeds and returns the cumulatives of the previous read grown by the amount on the flagged sides, a floored net flow and the new timestamp |
| Db.UpdateEstablishesInvariant | src/db.rs:50-56 | after any successful update the aggregate satisfies net == max(in - out, 0), whatever the row held before |
| Db.MalformedAmountUpdate | src/db.rs:48-56 | an unparsable amount (a non-digit, or a value of 2^256 or more) leaves both cumulatives at their parsed values but still recomputes the net flow and writes the timestamp |
| Db.OutboundScenario | src/db.rs:44-59 | from a zero aggregate, an outbound "1000" at time 1000 gives in 0, out 1000, net 0, time 1000 |
| Db.InboundAfterOutboundScenario | src/db.rs:44-59 | then an inbound "500" at time 1100 gives in 500, out 1000, net 0 (floored), time 1100 |
| Retry.RetryFrom | src/main.rs:26-40 | after a given number of failures, the loop returns Ok, makes at most five calls in all, and returns either the logs of the first success or an empty list after the fifth failure |
| Retry.GetLogsWithRetry | src/main.rs:25-41 | never an error; between one and five calls; every call before the last failed; the result is the last call's logs, or empty when the fifth call failed; so the caller's error branch (src/main.rs:122-125) is dead |
| Retry.AlwaysFailingFetch | src/main.rs:26-37 | a fetch that always fails is called exactly five times and the result is Ok with no logs |
| Retry.FirstSuccessWins | src/main.rs:28-34 | if the k-th call (k at most 5) is the first to succeed, the result is exactly its logs, after k calls |
| Watch.Lower | src/main.rs:180-182 | lower-casing of a rendered address: each ASCII capital becomes its small letter, every other character is kept, no capital is left and the length is unchanged |
| Watch.AnyMatches | src/main.rs:182-183 | the `any` scan is true exactly when some watch-list entry lower-cases to the key |
| Watch.Classify | src/main.rs:180-183 | `is_in` holds exactly when some watched address equals the recipient up to case, and `is_out` likewise for the sender |
| Watch.SelfTransferBothWays | src/main.rs:180-183 | a transfer from a watched address to itself sets both flags |
| Watch.UnwatchedTransferNeither | src/main.rs:180-183 | a transfer between unwatched addresses sets neither flag |
| Watch.ClassifyIgnoresCase | src/main.rs:180-183 | changing the letter case of either address does not change the flags |
| Ingest.AsI64 | src/main.rs:143 | the `as i64` cast keeps values below 2^63 and wraps larger ones by 2^64 |
| Ingest.ProcessLog | src/main.rs:128-192 | each guard skips exactly the logs that fail it and leaves the store unchanged; a stored log adds its hash once; the aggregate is attempted exactly for stored logs with a watched side; it is updated exactly when row 1 exists, neither statement fails and no flagged side reaches 2^256; the process panics exactly when a flagged side would reach 2^256; otherwise the aggregate is untouched |
| Ingest.AggregateStep | src/main.rs:180-191 | for a stored log: an unwatched transfer is left alone, a watched one is updated exactly when the update succeeds and panics exactly when a flagged side would reach 2^256, and the transfer table is not touched |
| Ingest.ProcessLogAggregate | src/main.rs:185-191 | an updated log adds its value to each flagged cumulative, leaves the other, and sets `last_updated` to its block timestamp; any log leaves the cumulatives no lower and no more than its watched value higher, and keeps the invariant |
| Ingest.DuplicateHashStillCounted | src/main.rs:167-191 | a log whose transaction hash is already stored leaves the transfer table unchanged, yet its successful update still changes the aggregate |
| Ingest.ProcessLogs | src/main.rs:128-192 | over one block's logs, existing rows are kept, the cumulatives never decrease, the invariant is kept, and the table gains exactly the hashes of the stored logs (at most those after a panic) |
| Ingest.ProcessLogsHalts | src/main.rs:128-192 | a batch panics only on a log whose addition overflows the aggregate the panic leaves behind; if the aggregate has room for the sum of the watched values of the batch, it never panics; and either cumulative grows by at most that sum |
| Ingest.ProcessLogsSnoc | src/main.rs:128-192 | the logs are applied one after another, in order |
| Ingest.LastUpdateWins | src/main.rs:128-192 | when the last log of a batch updates the aggregate, `last_updated` ends as that log's block timestamp |
| Ingest.ScanBlocks | src/main.rs:114-193 | blocks `b..=last` are visited once each, consecutively and in increasing order, and all of them unless a panic cuts the scan short; rows are kept, the cumulatives never decrease and the invariant is kept |
| Ingest.ScanBlocksHashes | src/main.rs:114-193 | a scan adds at most the hashes stored in the range, and exactly those unless a panic cuts it short |
| Ingest.ScanBlocksHalts | src/main.rs:114-193 | a scan panics only in the last block it visits, on a log whose addition overflows; if the aggregate has room for the sum of every watched value in the range, it never panics; and either cumulative grows by at most that sum |
| Ingest.ScanBlocksSnoc | src/main.rs:114-193 | scanning one more block after a range that did not panic processes that block's logs from where the range left the store |
| Ingest.RangeLastUpdateWins | src/main.rs:114-193 | across a whole range, when the final log of the final block updates the aggregate, `last_updated` ends as that log's block timestamp |
| Ingest.Round | src/main.rs:103-198 | a failed height query, or a height below the cursor, changes nothing; otherwise the blocks from the cursor to the height are scanned in order and, unless a panic cuts the round short, the cursor moves to height + 1; a panicked round leaves the cursor in place; the cursor never decreases |
| Ingest.RoundHalts | src/main.rs:103-198 | a round panics only on an overflowing log of the last block it visits; if the aggregate has room for every watched value from the cursor to the height, the round completes and the cursor moves to height + 1 |
| Ingest.Run | src/main.rs:103-198 | over any number of rounds the cursor never decreases, the scanned blocks are strictly increasing (none twice), stored rows are never altered, the cumulatives never decrease and the invariant is kept |
| Ingest.Session | src/main.rs:94-198 | the `start` command ends at once if the startup height query fails; otherwise no block below the startup height is ever scanned and no block is scanned twice |

## Left out

- `init_db` (src/db.rs:6-12): the SQLite connection, reading `schema.sql` and running it are I/O. The schema, with the seeding of the aggregate row, is not part of this model. `Db.SeededStore` assumes an all-zero row with id 1. It also assumes `tx_hash` is the table's only uniqueness constraint, so `INSERT OR IGNORE` ignores exactly a known hash.
- The failures of individual SQLite statements are not modelled, only their effect. A boolean per statement says whether it fails, and a failing statement writes nothing.
- The `ethers` provider, the HTTP transport, `get_block_number`, `get_logs` and `get_block` are inputs: the height answer of a round, the per-block fetch outcomes, and each log's block-lookup outcome.
- ABI decoding of the `Transfer` event (src/main.rs:20-23, 134) comes from a foreign library. It is an input `Option<Transfer>`.
- Sleeps and polling intervals (src/main.rs:33, 62, 108, 197): the model counts attempts and rounds, not time.
- The infinite loop is modelled as a finite sequence of rounds (`Ingest.Run`); it has no terminal state.
- CLI parsing, `dotenv`, environment defaults, parsing of the contract and watch-list address literals, and all console output are left out. So is the `query` command, which only prints what `read_net_flows` returns.
- The `log.block_number.unwrap()` panic (src/main.rs:142, 162): `Log.blockNumber` is not optional, so every modelled log carries one.
- `timestamp.as_u64()` (src/main.rs:143) panics above 2^64. Timestamps are modelled as values below 2^64; only the following `as i64` wrap is modelled.
- Ingest.Round: requires the height answer to be below 2^64 - 1. At `u64::MAX`, `to_block + 1` (src/main.rs:194) overflows, and that is not modelled.
- Debug rendering of `H160` and `H256` values as text: addresses and hashes are strings as rendered. Lower-casing is modelled on ASCII letters, the only letters in a rendered address.
- The `U256` library itself is not part of this model. `from_dec_str` is modelled by its accept/reject behaviour and value, not by which error kind it reports, because `unwrap_or` discards the kind. The `+` overflow is modelled as a run-ending outcome.

