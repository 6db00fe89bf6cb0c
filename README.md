# verifi-services ingestion core, modelled in Dafny

This project models the event ingestion core of the two Go services of
verifi-services. The indexer service and the sync service each run an
`EventListener` that does the following:

- polls an Aptos node for new ledger versions;
- fetches the unprocessed version range in batches of at most 100;
- keeps only the events of the configured Move module from successful user
  transactions, and dispatches each by the last `::` segment of its type to
  one of four handlers;
- writes `Activity` rows (insert-or-ignore on the transaction hash) and
  market resolutions (an `UPDATE` that never creates rows);
- in the indexer, also posts webhook notifications;
- after a complete walk to the tip, moves and saves the `last_indexed_version`
  checkpoint.

Beside the listener, the project models:

- the indexer's `APIKeyRotator`: round-robin key selection with a 100ms reuse
  delay;
- its in-memory log buffer: bounded, and it drops the oldest entry;
- the `config.Load` of both services.

## Layout

| file | module | what it holds |
|---|---|---|
| wrappers.dfy | Wrappers | `Option`, `Result` |
| stringops.dfy | StringOps | Go's `strings.Contains`, `strings.Split`, `strings.TrimSpace`, the UTF-8 byte length behind `s[:n]`, `strconv.FormatUint`/`ParseUint` |
| ledger.dfy | Ledger | transactions, events and their loosely typed payloads, and the fetch oracle |
| store.dfy | Store | the `Activity` and `Market` tables, the writes and their absorption (idempotence) |
| ingest.dfy | Ingest | the pure pipeline (see below) |
| listener.dfy | Listener | class `EventListener` with the imperative `poll`, `processTx` and handlers, each proved against Ingest |
| rotator.dfy | Rotator | class `APIKeyRotator` and round-robin fairness |
| logbuffer.dfy | LogBuffer | classes `Buffer` and `LogPackage` (the package global) |
| env.dfy | Env | `os.Getenv` and the sync service's `getEnv` |
| indexer_config.dfy | IndexerConfig | the indexer's `Load` and the key lists |
| sync_config.dfy | SyncConfig | the sync service's `Load` |

### The pure pipeline (Ingest)

A run is described by its trace: the list of handler effects it produces, in
order. Each effect records three things:

- the outcome: skipped, done, failed, or panicked;
- the store write;
- the webhook notification, if any.

The trace depends only on five things: the transactions, the service, the
handler map, the module address, and which statements the database accepts.
Each handler statement succeeds or fails on its own, and so does the
checkpoint upsert. The tables a run
leaves behind are `ApplyWrites(tables, trace)`. The webhook calls it makes are
`Notes(trace)`. `Walk` is `poll`'s batch loop and `Tick` is one whole `poll`.

One class models both services' listeners. `Service` says which copy runs:
the indexer, with or without a webhook client, or the sync service. The
copies differ in two places:

- the webhook calls;
- the key `handleMarketCreated` reads (`market_address` in the indexer,
  `market_obj_addr` in the sync service).

Each handler logs `addr[:10]` on the addresses it reads. In Go, that slice
panics when the string has fewer than 10 bytes, so the model gives such a
handler the outcome `Panicked`. Nothing recovers the panic, so it ends the
process. The model ends the tick there, with the result `PollCrashed`:

- the batch loop stops;
- the checkpoint is neither moved nor saved;
- writes already made stay.

In the trade handlers, the insert happens before the log line. In
`handleMarketResolved`, the log line comes first.

### Notes on the rotator

- `currentIdx` is one counter shared by both pools. `GetNextNoditKey` reads it
  but never advances it.
- `GetStats` reports `last_used_count`.

## Model

| member | source | states |
|---|---|---|
| Store.ApplyWriteSpec | indexer-service/internal/indexer/listener.go:223-248 | an Activity insert is ignored when the transaction hash is present and otherwise adds exactly that row; the resolving UPDATE changes only the named existing market and creates no row; nothing else changes |
| Store.AbsorbedWriteIsNoOp | indexer-service/internal/indexer/listener.go:399-405 | tables that already reflect a write are left unchanged by it |
| Store.AbsorptionIsStable | indexer-service/internal/indexer/listener.go:230 | a write is reflected once applied and stays reflected whatever is applied after it |
| StringOps.IndexFromSpec | indexer-service/internal/indexer/listener.go:153 | substring search finds the first occurrence at or after a position, and finds nothing only when there is none |
| StringOps.ContainsSpec | indexer-service/internal/indexer/listener.go:153 | `strings.Contains` holds exactly when the substring occurs at some position |
| StringOps.SplitJoin | indexer-service/internal/indexer/listener.go:158 | joining the pieces of `strings.Split` with the separator gives back the input |
| StringOps.SplitPiecesAreFree | indexer-service/internal/indexer/listener.go:158 | no piece of a split contains the separator |
| StringOps.SplitCharCount | indexer-service/internal/config/config.go:46 | splitting on a one-character separator gives one piece more than there are occurrences of it |
| StringOps.TrimLeftShape | indexer-service/internal/config/config.go:49 | the left trim removes a prefix of white space only and stops at a non-space character |
| StringOps.TrimRightShape | indexer-service/internal/config/config.go:49 | the right trim removes a suffix of white space only and stops at a non-space character |
| StringOps.TrimSpaceShape | indexer-service/internal/config/config.go:49 | `TrimSpace(s)` is the part of `s` between a white-space prefix and a white-space suffix, and neither starts nor ends with white space |
| StringOps.Utf8Len | indexer-service/internal/indexer/listener.go:251 | Go's byte length of a string lies between its character count and four times that |
| StringOps.FormatUint | indexer-service/internal/indexer/listener.go:440 | the saved checkpoint is a non-empty digit string without leading zeros |
| StringOps.ParseUint | indexer-service/internal/indexer/listener.go:424 | `ParseUint(s, 10, 64)` succeeds exactly on non-empty all-digit strings whose value fits in 64 bits, and returns that value |
| StringOps.FormatParseRoundTrip | indexer-service/internal/indexer/listener.go:424-440 | parsing the formatted form of any uint64 gives it back |
| Ingest.WithDefaultHandlers | indexer-service/internal/indexer/listener.go:184-196 | the four event names map to their handlers and every other registration is kept |
| Ingest.EventNameShape | indexer-service/internal/indexer/listener.go:158-162 | a name is extracted exactly when the type has at least three `::` parts, and it ends the type: free of `::`, preceded by `::`, with another `::` before that (with three or more `:` in a row the leftmost match decides, so `"a::b:::c"` gives `":c"`) |
| Ingest.DispatchRule | indexer-service/internal/indexer/listener.go:151-170 | a handler runs for an event if and only if the type contains the module address, has at least three `::` parts, and a handler is registered under the last part; otherwise the event is skipped |
| Ingest.Notify | indexer-service/internal/indexer/listener.go:32-38 | a notification is sent if and only if the service is the indexer with a webhook URL |
| Ingest.Payload | indexer-service/internal/indexer/listener.go:259-271 | the webhook call carries the event type, the transaction hash and the sender, and data with exactly the keys the handler sets: the market; for a trade the trader as `buyer` or `seller`, `is_yes_outcome` and the two amounts as the event's raw strings; for a creation the creator, description and resolution time |
| Ingest.HandleSharesMintedSpec | indexer-service/internal/indexer/listener.go:198-274 | with the database down nothing is written; otherwise one BUY row keyed on the transaction hash with the payload's market, user, YES/NO side and amounts (shares over 10^6, APT over 10^8); it panics after the insert if and only if the market or user address is under 10 bytes; it notifies if and only if it completed in an indexer with a webhook |
| Ingest.HandleSharesBurnedSpec | indexer-service/internal/indexer/listener.go:276-349 | the same for a SELL row with `shares_in` and `apt_amount_out` |
| Ingest.HandleMarketCreatedSpec | sync-service/internal/indexer/listener.go:306-324 | never writes; panics if and only if the market address (`market_obj_addr` in the sync copy, `market_address` in the indexer) or the creator is under 10 bytes; otherwise completes and notifies only in an indexer with a webhook |
| Ingest.HandleMarketResolvedSpec | indexer-service/internal/indexer/listener.go:385-411 | never notifies; panics if and only if the market address is under 10 bytes (before any write); marks that market resolved if and only if it does not panic and the database is up |
| Ingest.RunHandlerSpec | indexer-service/internal/indexer/listener.go:171-178 | a registered handler always runs |
| Ingest.SyncEventIsSilent | sync-service/internal/indexer/listener.go:183-244 | the sync service's handlers never notify |
| Ingest.EventsTraceShape | indexer-service/internal/indexer/listener.go:151-179 | at most one effect per event, only the last can be a panic, and the events are cut short only by one |
| Ingest.EventsTraceFollowsEvents | indexer-service/internal/indexer/listener.go:151-179 | the i-th effect is what the i-th event does |
| Ingest.HandlerErrorsDoNotStopEvents | indexer-service/internal/indexer/listener.go:172-178 | a handler error is logged and the remaining events are all dispatched, in order |
| Ingest.TxTraceShape | indexer-service/internal/indexer/listener.go:144-182 | a failed or non-user transaction does nothing; otherwise every event is handled unless one panics, and only the last effect can be a panic |
| Ingest.TxsTraceShape | indexer-service/internal/indexer/listener.go:121-130 | in a batch only the last effect can be a panic; sync batches notify nothing |
| Ingest.ReplayedPrefixIsAbsorbed | indexer-service/internal/indexer/listener.go:223-231 | delivering again any prefix of what was applied leaves the tables unchanged |
| Ingest.BatchLimit | indexer-service/internal/indexer/listener.go:110-113 | each request asks for 1 to 100 versions and never past the tip; less than 100 only for the last batch |
| Ingest.BatchesCoverRange | indexer-service/internal/indexer/listener.go:104-133 | the batches are contiguous and ascending from `lastVersion+1` to the tip, all but the last of exactly 100, and request `tip - lastVersion` versions in total |
| Ingest.EveryVersionInABatch | indexer-service/internal/indexer/listener.go:109-133 | every version of the range lies in some requested batch |
| Ingest.BatchRunnerShape | indexer-service/internal/indexer/listener.go:121-130 | the batch processing used by poll never has a panic before its last effect and, in the sync service, never notifies |
| Ingest.WalkRequests | indexer-service/internal/indexer/listener.go:109-118 | the requests made are a prefix of the batches; a completed walk made all of them; a failed walk reports the error of its last request |
| Ingest.WalkPanics | indexer-service/internal/indexer/listener.go:115-133 | only a crashed walk holds a panic, as its last effect |
| Ingest.WalkQuiet | sync-service/internal/indexer/listener.go:77-127 | a walk whose batches notify nothing notifies nothing |
| Ingest.TickSpec | indexer-service/internal/indexer/listener.go:92-142 | the checkpoint never moves back; it moves to the tip and is saved only after a walk that requested every batch of the range; a ledger error or an old tip changes nothing; a fetch error is the last request's and leaves the checkpoint; the result is a crash if and only if the trace ends in a panic |
| Ingest.TickReplayIsIdempotent | indexer-service/internal/indexer/listener.go:92-142 | re-running a tick over the same ledger leaves the tables as one run does |
| Ingest.RetriedTraceIsAbsorbed | indexer-service/internal/indexer/listener.go:115-118 | the writes of a run cut short, followed by those of a run that redoes its work and more, leave the tables as the second run alone |
| Ingest.RetriedWalkExtends | indexer-service/internal/indexer/listener.go:109-133 | a walk that stopped on a fetch error, walked again to the same or a later tip by a ledger that answers its successful batches the same way and with the same batch runner (the same handlers, module address and database answer to every statement), redoes the same work first |
| Ingest.RetriedTickIsAbsorbed | indexer-service/internal/indexer/listener.go:115-118 | after a tick that ends on a fetch error the checkpoint stays; when the ledger answers the batches that succeeded the same way and the database answers every statement as it did the first time, the next tick's trace starts with the failed tick's, and the tables after both ticks are those after the second alone |
| Ingest.SyncTickIsSilent | sync-service/internal/indexer/listener.go:77-127 | a sync tick makes no webhook call |
| Ingest.LoadCheckpoint | indexer-service/internal/indexer/listener.go:413-431 | a checkpoint is loaded if and only if the database answers, the row exists and parses as a uint64 |
| Ingest.CheckpointRoundTrip | indexer-service/internal/indexer/listener.go:424-440 | a saved checkpoint is read back unchanged on restart |
| Listener.EventListener.NewIndexer | indexer-service/internal/indexer/listener.go:31-48 | no handlers, version 0, and a webhook client exactly when the webhook URL is not empty |
| Listener.EventListener.NewSync | sync-service/internal/indexer/listener.go:24-32 | no handlers, version 0, no webhook client |
| Listener.EventListener.RegisterHandler | indexer-service/internal/indexer/listener.go:51-53 | the name maps to the handler and nothing else changes |
| Listener.EventListener.RegisterDefaultHandlers | indexer-service/internal/indexer/listener.go:184-196 | the handler map becomes `WithDefaultHandlers` of the old one |
| Listener.EventListener.Insert | indexer-service/internal/indexer/listener.go:223-244 | the tables after the insert-or-ignore |
| Listener.EventListener.MarkResolved | indexer-service/internal/indexer/listener.go:399-405 | the tables after the resolving UPDATE |
| Listener.EventListener.SendIfEnabled | indexer-service/internal/indexer/listener.go:259-271 | a call is recorded only when the webhook client exists |
| Listener.EventListener.HandleSharesMinted | indexer-service/internal/indexer/listener.go:198-274 | outcome, tables and webhook calls are those of the pure handler |
| Listener.EventListener.HandleSharesBurned | indexer-service/internal/indexer/listener.go:276-349 | outcome, tables and webhook calls are those of the pure handler |
| Listener.EventListener.HandleMarketCreated | indexer-service/internal/indexer/listener.go:351-383 | tables unchanged; outcome and webhook calls are those of the pure handler |
| Listener.EventListener.HandleMarketResolved | indexer-service/internal/indexer/listener.go:385-411 | no webhook call; outcome and tables are those of the pure handler |
| Listener.EventListener.HandleEvent | indexer-service/internal/indexer/listener.go:151-178 | one iteration of the event loop has the effect `EventEffect` describes |
| Listener.EventListener.ProcessTx | indexer-service/internal/indexer/listener.go:144-182 | the tables and webhook calls after `processTx` are those of `TxTrace`, and it reports a crash if and only if that trace ends in a panic |
| Listener.EventListener.ProcessTxs | indexer-service/internal/indexer/listener.go:120-130 | the loop over a batch produces `TxsTrace` |
| Listener.EventListener.WalkRange | indexer-service/internal/indexer/listener.go:104-133 | the batch loop's status, tables and webhook calls are those of `Walk` |
| Listener.EventListener.ProcessBatch | indexer-service/internal/indexer/listener.go:110-118 | one batch: the limit is `BatchLimit`, and the loop invariant is kept or the walk's final state is reached |
| Listener.EventListener.Poll | indexer-service/internal/indexer/listener.go:92-142 | result, `lastVersion`, tables and webhook calls are those of `Tick`, so every `TickSpec` property holds of the object; each handler statement succeeds or fails on its own; the checkpoint row is written only when the tick saves and the upsert succeeds, and a failed upsert still moves `lastVersion` and returns success |
| Listener.EventListener.PollRange | indexer-service/internal/indexer/listener.go:104-141 | the same for a tip above `lastVersion` |
| Listener.EventListener.LoadLastVersion | indexer-service/internal/indexer/listener.go:413-431 | `lastVersion` takes the stored value exactly when `LoadCheckpoint` finds one, and is untouched otherwise |
| Listener.EventListener.SaveLastVersion | indexer-service/internal/indexer/listener.go:433-442 | the row holds the decimal form of `lastVersion` when the database is up |
| Listener.EventListener.Start | indexer-service/internal/indexer/listener.go:56-73 | resume from the stored checkpoint, else from the ledger tip, else fail with the ledger error; the default handlers are registered unless it failed |
| Rotator.AcquireTime | indexer-service/internal/indexer/api_rotator.go:41-49 | a key is acquired no earlier than the call, and no earlier than its last use plus the delay; it is acquired at one of those two times |
| Rotator.ReuseIsSpaced | indexer-service/internal/indexer/api_rotator.go:42-49 | two acquisitions of one key in a row are at least `minDelay` apart |
| Rotator.Pick | indexer-service/internal/indexer/api_rotator.go:34-39 | an empty pool gives `""`, otherwise a key of the pool |
| Rotator.RoundRobinAt | indexer-service/internal/indexer/api_rotator.go:39-50 | the k-th Aptos acquisition from a new rotator hands out key `k mod N` |
| Rotator.PosIsMod | indexer-service/internal/indexer/api_rotator.go:39 | a cursor that wraps to 0 after the last position picks the same positions as `currentIdx % len(keys)` |
| Rotator.HitsSplit | indexer-service/internal/indexer/api_rotator.go:39-50 | after M selections, the positions before the cursor have been picked once more than the others, and the others as often as the last position |
| Rotator.PositionsBalanced | indexer-service/internal/indexer/api_rotator.go:39-50 | any two positions are picked a number of times that differ by at most one |
| Rotator.ServedCount | indexer-service/internal/indexer/api_rotator.go:39-50 | with distinct keys, each key is handed out exactly as often as its position is picked |
| Rotator.KeysBalanced | indexer-service/internal/indexer/api_rotator.go:39-50 | with distinct keys, over M acquisitions per-key counts differ by at most one |
| Rotator.APIKeyRotator.constructor | indexer-service/internal/indexer/api_rotator.go:19-27 | the given pools, counter 0, no recorded use, a 100ms delay |
| Rotator.APIKeyRotator.GetNextAptosKey | indexer-service/internal/indexer/api_rotator.go:30-53 | an empty pool returns `""` and changes nothing; otherwise the key at `currentIdx mod N`, acquired at `AcquireTime`; it records that time for that key only, and the counter and the served sequence advance by one |
| Rotator.APIKeyRotator.GetNextNoditKey | indexer-service/internal/indexer/api_rotator.go:56-78 | the same on the Nodit pool, but `currentIdx` is outside its frame, so consecutive calls pick the same key |
| Rotator.APIKeyRotator.GetStats | indexer-service/internal/indexer/api_rotator.go:81-91 | reads only: both pool sizes, `currentIdx`, and the count of used keys, which is at most the number of distinct keys in the pools |
| LogBuffer.AppendedShape | indexer-service/internal/logbuffer/buffer.go:43-48 | after an `Add` the buffer is within `maxSize` and ends with the new entry; only a full buffer drops an entry, exactly the oldest, and the others keep their order |
| LogBuffer.AppendedToNothing | indexer-service/internal/logbuffer/buffer.go:43-48 | a buffer of size 0 stays empty |
| LogBuffer.AppendKeepsLast | indexer-service/internal/logbuffer/buffer.go:43-48 | `Add` on the last `maxSize` entries of a history gives the last `maxSize` entries of the longer history |
| LogBuffer.RecentShape | indexer-service/internal/logbuffer/buffer.go:59-72 | for `0 < limit <= len` the result is the newest `limit` entries in order; otherwise it is all of them |
| LogBuffer.RecentOfHistory | indexer-service/internal/logbuffer/buffer.go:59-72 | `GetRecent(k)` for `k <= maxSize` is the last k entries logged since `Init` or `Clear` |
| LogBuffer.Buffer.constructor | indexer-service/internal/logbuffer/buffer.go:23-26 | an empty buffer with the given capacity |
| LogBuffer.LogPackage.constructor | indexer-service/internal/logbuffer/buffer.go:20 | the package starts with no buffer |
| LogBuffer.LogPackage.Init | indexer-service/internal/logbuffer/buffer.go:22-27 | a fresh empty buffer with `maxSize = n` |
| LogBuffer.LogPackage.Add | indexer-service/internal/logbuffer/buffer.go:29-49 | a no-op before `Init`; otherwise `Appended`, and the buffer stays the last `maxSize` entries added |
| LogBuffer.LogPackage.GetRecent | indexer-service/internal/logbuffer/buffer.go:51-73 | empty before `Init`; otherwise `Recent` of the entries, without changing them |
| LogBuffer.LogPackage.Clear | indexer-service/internal/logbuffer/buffer.go:75-84 | a no-op before `Init`; otherwise the buffer is empty with the same `maxSize` |
| Env.GetEnv | sync-service/internal/config/config.go:27-32 | the variable's value when non-empty, the fallback otherwise, so it is non-empty whenever the fallback is |
| Env.EmptyIsUnset | sync-service/internal/config/config.go:28 | an empty variable reads like a missing one |
| SyncConfig.Load | sync-service/internal/config/config.go:14-25 | fails if and only if `DATABASE_URL` is empty, with that message; otherwise keeps the URL, and `PORT` and `ENVIRONMENT` fall back on `"3001"` and `"development"` |
| SyncConfig.DefaultsWhenUnset | sync-service/internal/config/config.go:22-23 | with only the URL set, the defaults apply |
| IndexerConfig.KeyListShape | indexer-service/internal/config/config.go:44-60 | an empty value gives no keys; otherwise one key per comma-separated piece (commas + 1), in order, each its piece trimmed, blank pieces kept as `""` |
| IndexerConfig.KeyPiecesCoverValue | indexer-service/internal/config/config.go:46 | the pieces the keys come from, joined by commas, give back the whole value |
| IndexerConfig.KeysAreTrimmed | indexer-service/internal/config/config.go:48-50 | no key starts or ends with white space |
| IndexerConfig.ParseKeys | indexer-service/internal/config/config.go:44-51 | the split-then-trim-in-place loop yields `KeyList` |
| IndexerConfig.Load | indexer-service/internal/config/config.go:19-71 | an empty `DATABASE_URL` fails first; then an empty publisher address fails; it succeeds exactly when both are set, keeping them; the network defaults to `"testnet"` and the port to `"3002"`; the webhook URL may be `""`; the key lists are `KeyList` of their variables |

## Left out

- The HTTP ledger client (`GetLatestLedgerInfo`, `GetTransactionsByVersionRange`) is an input: the latest version is a `Result`, and every range fetch is answered by a `Fetcher` function. Its JSON decoding and status handling are not part of this model.
- Webhook delivery: `SendEvent` is recorded as a `Notification` in the listener's `sent` list. Its JSON encoding, HTTP POST, timeout and the ignored error are not modelled. The RFC3339 send time is not modelled either.
- Floating point: amounts are kept as the raw decimal string together with the power of ten they are divided by (`ParseFloat` / 1e8 or 1e6). The rounding of `float64` is not modelled, and neither is the ignored `ParseFloat` error: in Go a missing or non-numeric amount is stored as 0 and an out-of-range one as ±Inf, while the model keeps the raw string.
- `time.Parse(time.RFC3339, ...)`: the timestamp is stored as the transaction's string. A parse failure, which gives the zero time, is not modelled. `gen_random_uuid()` and `updatedAt = NOW()` are not modelled.
- Logging is not modelled, except for the `addr[:10]` slices, whose panics are.
- `Start`'s ticker loop, the poll interval and context cancellation: the model covers `Start` up to the loop, and one loop iteration is `Poll`. The `Polling error` log line is not modelled.
- `GetLastVersion` (a plain getter) and the log line in `NewEventListener` are not modelled.
- Mutexes and concurrency: the rotator's and the log buffer's locks are left out, and every call runs on its own. `time.Now`, `time.Since` and `time.Sleep` become the `now` input.
- Rotator.APIKeyRotator.GetNextAptosKey: `currentIdx` is an unbounded `nat`, while in Go it is an `int` that would wrap after 2^63 acquisitions; that wrap-around is not modelled.
- Rotator.AcquireTime: the sleep is taken to end exactly when `minDelay` has passed; an oversleeping scheduler would give a later acquisition time.
- Listener.EventListener.Poll: requires a ledger tip of at most 2^64-1-100, where `start + limit` cannot wrap around in uint64. The wrap-around above that bound is not modelled.
- Listener.EventListener.WalkRange, Listener.EventListener.ProcessBatch and Listener.EventListener.PollRange: they carry the same uint64 bound on the tip.
- Listener.EventListener.Start: requires that a tip given by the ledger fits in a uint64, as the Go type guarantees.
- LogBuffer.LogPackage.Init: requires `maxSize >= 0`. `make` panics on a negative capacity, and that panic is not modelled.
- Whether the database accepts a handler's statement is an oracle on the transaction and the event. Two identical events in one transaction therefore get the same answer. A failure in the middle of one statement is not modelled.
- `RegisterHandler` accepts any Go `EventHandler`, but the handler map holds only the four built-in handlers (`Handler`), because the model has no way to describe an arbitrary function's writes and webhook calls.
- The panic of a handler is not recovered in the source, so it ends the process. The model ends the tick with `PollCrashed`, and what happens to the process after that is not modelled.
