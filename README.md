# Bridge monitor: a Dafny model

The bridge monitor watches several chains for the two legs of a Meson
cross-chain transfer: a `TokenBurnExecuted` log on one chain and a
`TokenMintExecuted` log on another, both carrying the same 256-bit request
ID. This project models the monitor's core and proves properties of the
model:

- **Request-ID codec** (`ReqIdCodec`, `HexKey`). The token index, the
  amount and the creation time are bit fields of the request ID. The amount
  is rescaled from six decimals to the token's decimals in wrapping
  `uint64` arithmetic. The table key is the request ID's `Hash.Hex()`
  string.
- **Decode pipeline** (`Events`). This is `processEvent` after the dispatch
  on the log's event. A log naming another token is dropped silently. A
  zero amount is dropped as invalid. Every other log becomes a leg handed
  to `meson_handle`.
- **Meson table** (`MesonStore`). A class over `map<string, Meson>` with the
  four queries the monitor issues: find by reqid, insert, update leg B, and
  list the unchecked rows.
- **Reconciliation** (`Reconciliation`). `meson_handle` is specified by the
  pure transition `Reconcile`: insert the first leg; reject a leg when leg B
  is already filled; or fill leg B, persist it, then validate the action
  pair and then the amounts. The method `HandleLeg` performs it on the
  table in place. Every rejection raises an alert, oriented by
  `constructMessage`'s burn-to-mint rule.
- **Scanner** (`Scanner`). This is the loop of `connectAndListen`. Its
  per-iteration step over (checkpoint, head) is a function; a session is
  the left fold of that step over the RPC answers. The method `Listen`
  runs the same loop against the table.
- **Sweep** (`Sweep`). One tick of `checkDatabase`: one alert per unchecked
  row.
- **Thousands separators** (`Commas`). `addCommas`.

The network, the clock and the checkpoint files are inputs here. Each loop
iteration of the scanner receives a `Tick`, which holds the head query's
answer, the log fetch's answer and whether the checkpoint write succeeded.

### Where the intended behaviour and the code differ

The model follows the code in each case.

- **The log range fetched.** Intended: fetch `[checkpoint+1, end]`, where
  the checkpoint is the last block scanned. The code: it keeps the next
  block to scan in `startBlock`, fetches `[startBlock, end]` and stores
  `end+1` (main.go:405-450). In the model, `cp` is the next block to scan.
- **Redelivered legs.** Intended: an exact duplicate leg is a no-op, and a
  redelivered first leg does not count as the second leg. The code: it does
  neither (main.go:159-227). `Reconciliation.RedeliveredFirstLeg` states
  what it does instead.

Above six decimals the code multiplies the raw amount by 10^(decimals-6)
in `uint64` (main.go:520-523), as its comment says. The product wraps once
`raw * 10^(decimals-6) >= 2^64`: raw 10^18 at 18 decimals gives
5076944270305263616 (`ReqIdCodec.EighteenDecimalsWraps`).

## Model

| member | source | states |
|---|---|---|
| ReqIdCodec.TokenIndex | main.go:500-505 | the token index is bits 192..199 of the request ID: `(reqId / 2^192) % 2^8`, after `Uint64()` and the `0xFF` mask |
| ReqIdCodec.IsMyToken | main.go:500-505 | a request ID belongs to the configured token exactly when bits 192..199 equal its index |
| ReqIdCodec.PackedTokenIsMine | main.go:500-505 | the token check accepts a request ID exactly when the index packed into bits 192..199 is the configured one, whatever the other fields hold |
| ReqIdCodec.RawAmount | main.go:510-512 | the raw amount is bits 128..191: `(reqId / 2^128) % 2^64` |
| ReqIdCodec.CreatedTime | main.go:536-540 | the creation time is bits 208..247, `(reqId / 2^208) % 2^40`, so it is below 2^40 |
| ReqIdCodec.GetAmount | main.go:510-517 | decoding fails exactly when the raw amount is zero |
| ReqIdCodec.Rescale | main.go:519-530 | at six decimals the amount is unchanged |
| ReqIdCodec.SixDecimalsIdentity | main.go:519-530 | a non-zero raw amount at 6 decimals decodes to itself |
| ReqIdCodec.DivU64 | main.go:526-527 | `uint64` division by a non-zero divisor truncates: `r*d <= a < r*d + d` |
| ReqIdCodec.RescaleDownTruncates | main.go:524-528 | below six decimals the result `v` satisfies `v*10^(6-d) <= raw < (v+1)*10^(6-d)`: truncation, never rounding |
| ReqIdCodec.ZeroDecimalsTruncates | main.go:524-528 | raw 5 at 0 decimals decodes to amount 0, not to an error |
| ReqIdCodec.MulWrap64 | main.go:523 | Go's `uint64` product: exact when it fits in 64 bits, and in every case congruent to the true product modulo 2^64 |
| ReqIdCodec.RescaleUpWraps | main.go:520-523 | for 6 < d <= 25 the result is `(raw * 10^(d-6)) mod 2^64` |
| ReqIdCodec.MultiplierExact | main.go:522 | up to 25 decimals the low 64 bits of `10^(d-6)` are the power itself |
| ReqIdCodec.EighteenDecimalsWraps | main.go:520-523 | raw 10^18 at 18 decimals gives 5076944270305263616, which is neither 10^30 nor 10^6 |
| ReqIdCodec.DecodePack | main.go:500-540 | a request ID assembled from a token index, an amount and a creation time decodes back to those three fields |
| HexKey.HashHex | main.go:282 | the table key is 66 characters starting with "0x" |
| HexKey.HexValueOfDigits | main.go:282 | reading back the n hex digits of a number below 16^n gives the number |
| HexKey.HashHexInjective | main.go:282 | distinct request IDs have distinct table keys |
| Reconciliation.IsMesonEvent | main.go:85-88 | `meson_event(a, b)` holds exactly when {a, b} = {burn, mint}, so it is symmetric and two equal actions fail |
| Reconciliation.Orient | main.go:114-120 | leg A is "From" exactly when its action is the burn; otherwise leg B is "From"; for a valid pair "From" is the burn leg and "To" the mint leg |
| Reconciliation.OrientIgnoresLegOrder | main.go:114-120 | for a burn/mint pair, exchanging legs A and B does not change the alert |
| Reconciliation.Reconcile | main.go:153-249 | the three paths: a first leg is inserted with all four leg-B columns empty (zero amount) and is_check false, with no alert; a leg meeting a filled leg B is rejected with an alert on the stored record and the table unchanged; otherwise leg B is filled, is_check becomes `amountA == amountB`, the action check comes before the amount check and only success raises no alert; other rows and leg A never change |
| Reconciliation.ReconcileEvolves | main.go:153-249 | one call never removes a record, never changes a stored leg A or a record whose leg B is already filled, and keeps every record stored under its own reqid |
| Reconciliation.HandleLeg | main.go:153-249 | the in-place query, field assignment, update and insert on the table produce exactly the transition `Reconcile` describes |
| Reconciliation.PairOfLegs | main.go:159-245 | two legs of a fresh transfer leave one record, leg A the first and leg B the second, and the outcome is decided by the action pair, then the amounts |
| Reconciliation.ArrivalOrder | main.go:159-245 | for two legs of a fresh transfer, either arrival order gives the same outcome and is_check, the same record up to swapping legs, and for a burn/mint pair the same alert |
| Reconciliation.RedeliveredFirstLeg | main.go:176-227 | a first leg delivered twice fills leg B with itself, fails the action check with an alert and is marked checked; the sweep no longer reports it, and the real second leg is then rejected as a conflict |
| Reconciliation.SameActionTwice | main.go:85-88 | two burns (or two mints) for one reqid are an action violation even with equal amounts |
| Reconciliation.InsertedIsUnchecked | main.go:228-245 | a record created from a first leg alone is among the rows the periodic sweep reports (is_check false, database/db_init.go:143) |
| Reconciliation.UncheckedAfterReconcile | main.go:176-245 | after a call that does not hit the conflict path, the record is unchecked exactly when it was just inserted, or its amounts differ |
| Events.EventName | main.go:426-446 | the mint topic passes "TokenMintExecuted" and the burn topic "TokenBurnExecuted" |
| Events.ProcessEvent | main.go:253-287 | a log for another token index is dropped; a zero amount is rejected; otherwise the leg carries the hex key, the chain, the event, the creation time, the rescaled amount and the hex transaction hash |
| Events.DecodeLog | main.go:423-446 | a log of any other event is ignored; a mint or burn log goes through `processEvent` |
| Events.SameKeySameTransfer | main.go:253-287 | two legs with the same table key come from the same request ID, so their creation times agree, and so do their amounts at equal decimals |
| Events.MatchedTransfer | main.go:153-287 | a burn and a mint with one request ID and equal decimals produce one checked record, burn as leg A, with no alert |
| MesonStore.WithLegB | database/db_init.go:128-129 | the update rewrites chain_b, amount_b, action_b, tx_hash_b and is_check; every other column keeps its value |
| MesonStore.MesonTable.Find | database/db_init.go:94-106 | no row gives "absent"; otherwise the row stored under that reqid |
| MesonStore.MesonTable.Insert | database/db_init.go:70 | an existing reqid violates the primary key: the insert fails and the table is unchanged; otherwise the row is added under its reqid |
| MesonStore.MesonTable.Update | database/db_init.go:128-136 | only the matching row's leg-B columns and is_check change; a reqid with no row changes nothing, and no error is reported |
| MesonStore.MesonTable.FindUnchecked | database/db_init.go:143-167 | the result lists every row with is_check false, each row once, as stored, and nothing else |
| Scanner.PlanRange | main.go:398-408 | wait exactly when `head <= cp + 100`; otherwise scan from `cp` to `min(cp + 5000, head)`, which is past `cp + 100` |
| Scanner.LoadCheckpoint | main.go:325-344 | with no saved checkpoint the configured start block is used; otherwise the saved one |
| Scanner.SaveCheckpoint | main.go:348-361 | after a save the chain's checkpoint reads back as saved; other chains' checkpoints are unchanged |
| Scanner.IngestOne | main.go:423-446 | one log of a fetch: a log that is not decoded to a leg leaves the table and the alerts as they were, and a log raises at most one alert |
| Scanner.IngestLogs | main.go:423-447 | processing a fetch's logs raises at most one alert per log |
| Scanner.IngestEvolves | main.go:423-447 | processing a fetch's logs never loses a record, never changes a leg A, leaves a record with both legs as it was, and keeps every record under its reqid |
| Scanner.Step | main.go:389-454 | a head failure, a wait or a fetch failure change nothing; a head more than 100 blocks past `cp` with a successful fetch always scans; a scan appends the range `[cp, min(cp + 5000, head)]`, sets `cp` just past it, saves the new `cp` only when the write succeeds, and leaves the table and the alerts that processing the fetched logs gives |
| Scanner.Run | main.go:389-455 | the scan loop as a fold over the answers, one `Step` per answer in order: the checkpoint never moves back and each answer adds at most one range |
| Scanner.RunEvolves | main.go:389-455 | the same holds for a whole session: records only gain a leg B, and a completed record is never rewritten |
| Scanner.RunContiguous | main.go:389-454 | from a fresh start the scanned ranges begin at the loaded checkpoint, follow each other without gap, and the checkpoint is the block after the last one |
| Scanner.ContiguousIncreasing | main.go:449 | contiguous ranges are strictly increasing and disjoint, and lie between the first and the current checkpoint |
| Scanner.RunCompose | main.go:389-455 | running two batches of iterations equals running the second from the state the first leaves |
| Scanner.RunIgnoresHistory | main.go:389-455 | what the loop scans next depends on the checkpoint and not on the ranges already scanned |
| Scanner.SavedCheckpointIsBoundary | main.go:449-453 | the saved checkpoint is at or before the in-memory one and is a range boundary; it equals the in-memory one when every write succeeded |
| Scanner.OtherChainsUntouched | main.go:449-453 | a chain's session leaves every other chain's persisted checkpoint as it was |
| Scanner.RestartResumes | main.go:383-453 | after a session in which every write succeeded, a restart from the saved checkpoint scans exactly the ranges an uninterrupted listener would scan next |
| Scanner.IngestInto | main.go:423-447 | the loop over one fetch's logs leaves the table and the alerts that `IngestLogs` describes |
| Scanner.Listen | main.go:383-455 | the imperative session produces exactly the checkpoint, ranges, saved checkpoints, table and alerts of the fold `Run` |
| Scanner.ListenOnce | main.go:389-454 | one iteration on the table object produces exactly the state `Step` describes |
| Sweep.CheckDatabaseTick | main.go:469-492 | one tick raises one alert per unchecked row: the i-th alert is the oriented message of the i-th of pairwise distinct unchecked reqids, and there are as many alerts as unchecked rows |
| Commas.AddCommas | main.go:96-106 | inputs of up to three characters are returned unchanged; otherwise one separator is added per full group of three after the first, `|s| + (|s| - 1) / 3` characters |
| Commas.CommasRoundTrip | main.go:96-106 | removing the commas gives back a comma-free input |
| Commas.CommasEveryThree | main.go:96-106 | a comma stands exactly at each non-initial position with a multiple of four characters to the end, so the first group has one to three characters and every later group exactly three |

## Left out

- Alert delivery: the Telegram and Lark bots, the HTML message text, the RFC3339 time formatting and `formatWithCommas`' float-to-`int64` cast. An alert is the oriented record that `constructMessage` would format. A negative `int64` from that cast would give "-,123" for "-123"; amounts are never negative in the model, so this case does not arise.
- Amounts as `float64` (main.go:282) and the FLOAT8 columns. Amounts stay the decoded `uint64` value, so is_check compares integers. Distinct amounts above 2^53 that collapse to one float are not modelled.
- go-ethereum calls: dialling, ABI parsing, the topic-hash comparison, `HeaderByNumber` and `FilterLogs`. The event kind, the head and the fetched logs are inputs.
- `listenEvents`' reconnect loop, every `time.Sleep`, the goroutines, `sync.WaitGroup` and the ticker. A session is one call of `connectAndListen` over a finite sequence of loop iterations.
- The race between chain tasks on the same reqid. The model is sequential.
- The checkpoint files under `last_block/`: JSON encoding, and read or decode errors that abort `connectAndListen`. The saved checkpoints are a map from chain name to block number, and a write either succeeds or fails.
- Block numbers are unbounded naturals. The `uint64` wrap of `cp + 100` and `cp + 5000`, and the `int64` cast of the range bounds, are not modelled.
- Database errors other than the duplicate-key insert: connection loss, query, scan and row errors, and the `FindUncheckedMesons` error that skips a sweep tick. `Connect`, `Disconnect` and `InitDatabase` are left out, and `MesonTable`'s constructor stands for a freshly created table.
- Logging, `loadConfig`, `InitLogger` and `main`'s wiring.
- The failed-insert error of `meson_handle` does not arise in the model: the insert path is taken only when the reqid is absent, and database errors are left out.
