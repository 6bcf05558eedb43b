# codex-db: a verified model

codex-db holds the database side of the codex event service: a batching inserter,
a pruner that deletes expired rows, a Cassandra reader with a long-poll cursor, a
Postgres multi-row insert, and a device blacklist. This project models the parts of
it whose correctness depends on state, interleaving or arithmetic, and proves what
they guarantee. `dafny verify dfyconfig.toml` checks all of it.

| file | models |
|---|---|
| `Sums.dfy`, `Records.dfy`, `Selections.dfy` | sums, counts and multisets over sequences; the shared record types; what a SELECT with a LIMIT may return |
| `InserterProtocol.dfy` | the batch inserter as a transition system, one step per atomic action of any goroutine, and its invariant |
| `InserterTheorems.dfy`, `InserterDrain.dfy`, `InserterHistory.dfy` | what every run of it guarantees; `Stop` drains; what the list of actions says of a run, such as why a batch was cut |
| `BatchInsertion.dfy` | the object itself: each goroutine body, interleaved with arbitrary actions of the others, stays on a run of the protocol |
| `DeleterProtocol.dfy`, `DeleterTheorems.dfy`, `BatchDeletion.dfy` | the same three layers for the batch deleter, over a table of rows |
| `DeleterHistory.dfy`, `DeleterKeys.dfy`, `DeleterShutdown.dfy` | what becomes of each fetched key; when a removed row is one that was fetched; when `Stop` keeps its promise |
| `TimeUuid.dfy` | version 1 UUIDs (section 4.1.4 of RFC 4122), int64 nanoseconds, the sentinel and the birth-date fallback |
| `StateHash.dfy`, `LongPoll.dfy`, `LongPollLoss.dfy` | `GetStateHash`, the polling loop it drives, and which rows that loop loses or repeats |
| `InsertCompiler.dfy` | the multi-row insert as a compiler to columns, numbered placeholders and variables |
| `RowScan.dfy` | the Cassandra scan loops, with byte slices as references |
| `Blacklist.dfy` | the blacklist, alone and under concurrent readers and refreshes |

## How concurrency is modelled

A state holds what goroutines share and where each of them is. A `Step` is one atomic
action (a channel send or receive, a semaphore operation, a gauge update, the return of
a database call) and a run is any sequence of enabled steps, so a statement about all
runs covers every schedule and any number of producers, batchers and workers. The
classes write the goroutine bodies as loops over local variables. At each scheduling
point they call `Yield` with a slice of `env`, a list of other goroutines' actions that
is a parameter, hence arbitrary. `Valid()` says that the object's fields are what the
logged run leads to, so each theorem about runs applies to the object. `Yield` may only
be called by a goroutine that has acted since its last turn or is blocked, and a body
that has not returned has used up all of `env`: it can neither idle nor stop early. The
contracts say so through `own`, the actions of the run that are the body's, `turns` and
`waits`: `RunsAs` states that `own` holds actions of that goroutine only and that every
turn is answered by an action of its own or by its having been blocked.

Members that require the invariant `Inv` of a state hold in every reachable state: the
`RunKeepsInv` lemmas carry it along any run from the start.

## Assumptions about code outside the repository

- Channels are FIFO with the configured capacity; a `select` takes any ready case; the ticker may fire at any time; the semaphore is a counter.
- `capacityset`: `Add` answers true exactly when it inserted an absent item and otherwise changes nothing; `Pop` removes and returns one element or returns nil; `SendToChannel` runs one `Pop` and delivers its result.
- Queries mean their WHERE and LIMIT clauses; the rows returned may be any that fit, in any order. A DELETE that reports an error may or may not have removed its row.
- The UUID encoder keeps the low 60 bits of the tick count; `UnixNano` wraps as int64; parsing a printed UUID gives it back and the empty string does not parse; the database orders time UUIDs transitively, by time first.
- The long-poll client polls again with whatever hash it was given, and keeps its hash when nothing came back. Row ids come from the database clock, so they lie in the range `InRange` describes.
- The ORM's `AddToVars` appends the value and answers its 1-based position, which is what the placeholder `$n` reads. Go's float64 gauges and counters are modelled as integers.

## Where the code and its own documentation differ

- The inserter's documentation promises that a batch does not pass the configured size. With size 1, which is also the default, a batch may hold two records, because the size is checked only after the second append: `DocumentedBoundIff`.
- The deleter's `Stop` says that it waits until what was added has been processed. It abandons what is still in the set: `StopCanAbandon`, `ShutdownAccounting`. From no state before `Stop` is called is the promise safe, unless the fetch limit is zero: `StopProcessesAllIff`, `AllProcessedIff`.
- A delete takes one row with a given shard, death date and record id, and nothing in the repository makes these unique. If two rows share them, a row that no fetch returned can be removed: `ClashRemovesUnfetched`, `RemovedWereFetchedIff`.
- `GetRecordsToDelete` speaks of dates not past the given one; the query takes only dates strictly before it.
- A fetch limit of zero is accepted as a setting and means that nothing is ever deleted: `ZeroLimitDeletesNothing`.
- The long-poll scheme repeats a row when two rows share an instant, and loses rows when the limit cuts an answer: `TieIsRepeated`, `RepeatedIff`, `LimitLosesRows`, `LostIff`.
- The single-record shortcut of `GetStateHash` returns any non-empty row id unchecked: `ShortcutAgreesIff`.

## Model

| member | source | states |
|---|---|---|
| `InserterProtocol.InitKeepsInv` | batchInserter/batchInserter.go:88-134 | the state after construction and `Start` satisfies the invariant |
| `InserterProtocol.StepKeepsInv` | batchInserter/batchInserter.go:139-237 | every atomic action of every producer, batcher, insert goroutine and `Stop` keeps the whole invariant: permits, gauge, conservation, counts, times, order, batch sizes |
| `InserterProtocol.RunKeepsInv` | batchInserter/batchInserter.go:128-237 | so does every run, of any length and schedule |
| `InserterTheorems.ExactlyOnce` | batchInserter/batchInserter.go:139-228 | in every reachable state the accepted records are, as a multiset, those queued, in open batches, inside a running InsertRecords call, or already passed to one |
| `InserterTheorems.StopHasInsertedAll` | batchInserter/batchInserter.go:153-166 | when `Stop` has returned, the records passed to InsertRecords are exactly the accepted ones |
| `InserterTheorems.StoppedIsQuiet` | batchInserter/batchInserter.go:158-166 | holding all permits means that no insert goroutine is left, no batcher runs and the queue is empty |
| `InserterTheorems.NothingAfterStop` | batchInserter/batchInserter.go:158-166 | after `Stop` no database call can start; only a late gauge update can happen |
| `InserterTheorems.AcceptedIsInsertedPlusDropped` | batchInserter/batchInserter.go:213-225 | accepted = inserted + the dropped-events counter |
| `InserterTheorems.TrackedOncePerRecord` | batchInserter/batchInserter.go:180-237 | with a tracker, TrackTime was called once per accepted record with that record's own beginning; without one, never |
| `InserterTheorems.OneBatcherKeepsOrder` | batchInserter/batchInserter.go:146-211 | with one batcher, dispatched batches in dispatch order, then the open batch, then the queue, spell the accepted sequence at every step |
| `InserterTheorems.EachBatcherKeepsOrder` | batchInserter/batchInserter.go:146-211 | with many, each batcher's batches and open batch spell its share of the accepted sequence, and every dequeued record is in one share |
| `InserterTheorems.ShareIsSubsequence` | batchInserter/batchInserter.go:168-211 | a share is the subsequence at the positions that batcher received |
| `InserterTheorems.WorkerBound` | batchInserter/batchInserter.go:163-215 | running insert goroutines never exceed the maximum, and no permit left before the join means that one is running |
| `InserterTheorems.GaugeIsQueueLength` | batchInserter/batchInserter.go:146-194 | the gauge is the queue length corrected by pending updates: equal when none is pending, zero after `Stop` once producers have finished |
| `InserterTheorems.GaugeCanDip` | batchInserter/batchInserter.go:146-178 | it can be below zero in mid-run |
| `InserterTheorems.BatchBounds` | batchInserter/batchInserter.go:179-207 | dispatched batches are non-empty and, with a size set, at most max(2, size) long |
| `InserterTheorems.SizeOneOverflows` | batchInserter/batchInserter.go:179-200 | a run with size 1 that dispatches two records in one batch |
| `InserterTheorems.DocumentedBoundIff` | batchInserter/batchInserter.go:54-56 | the documented bound holds in all runs exactly when the size is not 1 |
| `InserterHistory.CompleteIff` | batchInserter/batchInserter.go:182-201 | a batch is complete exactly when its ticker fires, its batcher finds the queue closed and empty, or a size is set and the record just appended reaches it |
| `InserterHistory.ShortBatchHasReason` | batchInserter/batchInserter.go:182-204 | no batch is cut early: one dispatched with fewer records than the size asks for, or with no size set, follows a tick of its own batcher or its finding the queue closed and empty |
| `InserterHistory.AcceptedAreSent` | batchInserter/batchInserter.go:146-188 | the accepted sequence is that of the sends of the run, and who received each record is read off the receipts |
| `InserterHistory.SendIff` | batchInserter/batchInserter.go:139-146 | a record can be sent exactly when the queue is open and has room and the record has data and, with a tracker, a beginning |
| `InserterHistory.AcceptedAreGood` | batchInserter/batchInserter.go:139-146 | in every run the records sent have data and, with a tracker, a beginning, and the queue stays within its capacity |
| `InserterHistory.SentAreInserted` | batchInserter/batchInserter.go:139-228 | once `Stop` has returned, the records of the run's sends are exactly those passed to InsertRecords |
| `InserterHistory.CallsAreReturns` | batchInserter/batchInserter.go:213-228 | there is one call for each return of InsertRecords, with the whole batch of its goroutine and the outcome it had |
| `InserterDrain.MeasureStep` | batchInserter/batchInserter.go:139-237 | every action other than a send uses up at least one of the steps still due, and a send adds fewer than ten |
| `InserterDrain.RunIsBounded` | batchInserter/batchInserter.go:139-237 | so every run is at most ten steps per accepted record longer than what was due at its start |
| `InserterDrain.Progress` | batchInserter/batchInserter.go:158-211 | once closed, some goroutine can move until `Stop` has returned, without the ticker |
| `InserterDrain.StopReturnsAndDrains` | batchInserter/batchInserter.go:153-166 | from any reachable closed state every schedule ends within the measure, and only with `Stop` returned and everything inserted |
| `BatchInsertion.Repaired` | batchInserter/batchInserter.go:92-106 | a setting in range is kept, one out of range becomes the default: 1 parse worker, 5 insert workers, batches of 1, a queue of 5 |
| `BatchInsertion.BatchInserter.constructor` | batchInserter/batchInserter.go:88-134 | the constructed and started object is the protocol's initial state |
| `BatchInsertion.BatchInserter.Insert` | batchInserter/batchInserter.go:139-151 | a record without beginning (with a tracker) or data is refused with the right error and no action; otherwise the actions are exactly one send of the record, after waiting for room, and then its gauge update |
| `BatchInsertion.BatchInserter.BatchRecords` | batchInserter/batchInserter.go:168-211 | the batcher body, under any interference, stays on a run of the protocol, answers every turn with an action of its own unless blocked, and returns only by finishing |
| `BatchInsertion.BatchInserter.FillBatch` | batchInserter/batchInserter.go:176-209 | the inner loop collects one batch in its two slices and ends by dispatching it |
| `BatchInsertion.BatchInserter.SelectOnce` | batchInserter/batchInserter.go:183-201 | one select: a tick, the closed and empty queue, or a receipt that reaches the size completes the batch, and nothing else does; it takes none of them only when the ticker has not fired and the queue is open and empty |
| `BatchInsertion.BatchInserter.ReceiveMore` | batchInserter/batchInserter.go:185-200 | the record received is appended with its beginning, and the batch is complete exactly when a size is set and now reached |
| `BatchInsertion.BlockedIff` | batchInserter/batchInserter.go:158-215 | a goroutine is blocked exactly when no action of its own is possible, the ticker's aside |
| `BatchInsertion.BatchInserter.Spawn` | batchInserter/batchInserter.go:202-204 | a permit is taken and a goroutine gets exactly the two slices |
| `BatchInsertion.BatchInserter.InsertRecords` | batchInserter/batchInserter.go:213-228 | its actions are exactly one call, the drop counter on error, every begin time on both paths with a tracker, and the permit released; until it returns, a proper prefix of them |
| `BatchInsertion.BatchInserter.SendTimes` | batchInserter/batchInserter.go:230-237 | the TrackTime calls made are those of the records in order, each with its own beginning and the one end time, and no other action is taken |
| `BatchInsertion.BatchInserter.Stop` | batchInserter/batchInserter.go:158-166 | if it returns, exactly the accepted records have been passed to InsertRecords and no goroutine is left |
| `DeleterProtocol.StepKeepsInv` | batchDeleter/batchDeleter.go:126-208 | every action of the fetch loop, the pop loop, a Pop goroutine, a delete goroutine, `Stop` or another client keeps the invariant |
| `DeleterProtocol.RunKeepsInv` | batchDeleter/batchDeleter.go:115-208 | so does every run |
| `DeleterHistory.FetchedIff` | postgresql/executer.go:57-63 | a fetch may return any positions of rows of the shard dead before its time, each once and within the limit, and must return all of them if it stays below the limit |
| `DeleterHistory.FetchStartsLoop` | batchDeleter/batchDeleter.go:139-160 | it starts the loop over exactly the keys of the rows returned, in order |
| `DeleterHistory.EveryFetchedKeyIsOffered` | batchDeleter/batchDeleter.go:160-166 | in every run each key fetched is offered to the set once, in the order of the fetches and their rows; the keys added are those at the offers taken, and while the loop waits none is left to offer |
| `DeleterHistory.HistoriesAreSteps` | batchDeleter/batchDeleter.go:139-208 | the rows inserted, the times of the fetches and the outcomes of the calls are those of the run's actions |
| `DeleterTheorems.OnlyExpiredRowsGo` | postgresql/executer.go:57-63 | each removed row was in the configured shard, and a fetch made before the call, at a time past its death date, returned its key; and the row itself, if keys tell rows apart |
| `DeleterTheorems.TableIsInitialMinusRemoved` | postgresql/db.go:309-319 | the table is the initial rows plus inserted rows minus those the calls removed, with multiplicity |
| `DeleterTheorems.UnfetchedKeysSurvive` | postgresql/db.go:273-284 | rows of other shards and rows whose key no fetch has returned all survive |
| `DeleterTheorems.UnfetchedRowsSurvive` | postgresql/db.go:273-319 | if keys tell rows apart, rows that no fetch has returned all survive |
| `DeleterKeys.RemovedWereFetchedIff` | postgresql/db.go:309-319 | whatever rows there are at the start and inserted later, every run removes only rows that an earlier fetch returned exactly when keys tell them apart or nothing is fetched |
| `DeleterKeys.ClashRemovesUnfetched` | postgresql/executer.go:127-135 | two rows with one key: a run whose fetch returns the first and whose delete removes the second, which no fetch returned |
| `DeleterTheorems.FinalTable` | batchDeleter/batchDeleter.go:139-208 | with unique keys, exactly the rows no call removed remain, and a key once deleted stays gone despite re-fetches |
| `DeleterTheorems.ZeroLimitDeletesNothing` | batchDeleter/batchDeleter.go:87-89 | a fetch limit of zero never adds a key nor deletes a row |
| `DeleterTheorems.OnePopAndWorkerBound` | batchDeleter/batchDeleter.go:174-190 | at most one Pop is outstanding and delete goroutines never exceed the maximum |
| `DeleterTheorems.ShutdownAccounting` | batchDeleter/batchDeleter.go:123-197 | after `Stop`: keys added = DeleteRecord calls + keys left in the set + at most one held by the abandoned Pop |
| `DeleterShutdown.AllProcessedIff` | batchDeleter/batchDeleter.go:123-197 | from any reachable state, every run in which `Stop` returns has processed all that was added exactly when the fetch limit is zero, or the fetch loop is over and neither the set nor a Pop holds a key |
| `DeleterShutdown.StopProcessesAllIff` | batchDeleter/batchDeleter.go:123-129 | so before `Stop` is called, in whatever state, its promise holds of all runs to come exactly when the fetch limit is zero |
| `DeleterShutdown.StopCanAbandon` | batchDeleter/batchDeleter.go:123-129 | under every setting that fetches at all, from every state whose fetch loop still runs, a run in which `Stop` returns with a key left; if no delete was under way, none is ever made |
| `DeleterTheorems.StoppedIsQuiet` | batchDeleter/batchDeleter.go:193-196 | the grab-all loop leaves no delete goroutine |
| `DeleterTheorems.NothingAfterStop` | batchDeleter/batchDeleter.go:126-129 | after `Stop` no database call is made; only the abandoned Pop and other clients move |
| `DeleterTheorems.GaugeAtShutdown` | batchDeleter/batchDeleter.go:160-186 | the gauge is within one of the set size and ends as the number of abandoned keys |
| `BatchDeletion.Repaired` | batchDeleter/batchDeleter.go:75-92 | a setting in range is kept, one out of range becomes the default: 5 workers, 10 keys a fetch |
| `BatchDeletion.BatchDeleter.GetRecordsToDelete` | batchDeleter/batchDeleter.go:131-169 | the fetch loop stays on a run of the protocol, answers every turn unless blocked, takes the answers in order and waits only when none is left, and returns only after the stop signal |
| `BatchDeletion.BatchDeleter.Query` | postgresql/db.go:275-284 | the loop gets the key of every row answered, in order; each is of the shard and dead, and below the limit none such is missing; an error gives none and changes nothing |
| `BatchDeletion.BatchDeleter.Add` | batchDeleter/batchDeleter.go:160-166 | a key joins the set, and the answer is true, exactly when it was absent and there was room |
| `BatchDeletion.BatchDeleter.Delete` | batchDeleter/batchDeleter.go:171-197 | the pop loop stays on a run and answers every turn unless blocked; it ends with every permit taken, and then no delete goroutine is left |
| `BatchDeletion.BatchDeleter.DeleteWorker` | batchDeleter/batchDeleter.go:199-208 | its actions are exactly one DeleteRecord call for its own key, with the outcome the table then allows, and then the permit going back, on success and on error |
| `BatchDeletion.BatchDeleter.Stop` | batchDeleter/batchDeleter.go:126-129 | if it returns, the shutdown accounting holds |
| `BatchDeletion.BlockedIff` | batchDeleter/batchDeleter.go:131-208 | a goroutine is blocked exactly when no action of its own is possible, the ticker's aside |
| `TimeUuid.TicksRoundTrip` | cassandra/db.go:203 | the 16-byte layout keeps the low 60 bits of any tick count and marks version 1 |
| `TimeUuid.LayoutIsRfc` | cassandra/db.go:203 | the bytes are the fields of section 4.1.2 of RFC 4122: low, middle and high time with the version, clock sequence with the variant, node |
| `TimeUuid.ReadsRfc` | cassandra/db.go:215 | the version and the count are read from those same fields |
| `TimeUuid.EpochsAreDates` | cassandra/db.go:203 | the epochs are 15 October 1582 and 1 January of year 1 in the Gregorian calendar, and a tick is 100 ns |
| `TimeUuid.NanoIsInstant` | cassandra/db.go:215 | a version 1 UUID reads as its instant, wrapped to int64 nanoseconds |
| `TimeUuid.SentinelTime` | cassandra/db.go:203-204 | the UUID of the zero time reads as one fixed instant late in 1900 |
| `TimeUuid.BeatsIff` | cassandra/db.go:203-224 | any id beats the sentinel exactly when it is of version 1 and, in wrapping int64 arithmetic, lies between the sentinel and the int64 limit; up to 2262 that means after the sentinel or before 1677 |
| `TimeUuid.IdsSince1901Beat` | cassandra/db.go:203-224 | every id from 1901 to the int64 limit beats the sentinel and reads as its own instant |
| `TimeUuid.OtherVersionsNeverBeat` | cassandra/db.go:208-217 | ids of other UUID versions parse but never count |
| `TimeUuid.LateIdsCanLose` | cassandra/db.go:215 | an id of the year 2300 that does not beat the sentinel |
| `TimeUuid.FallbackBound` | cassandra/db.go:222-224 | the UUID of a positive birth date b has a time t with t <= b < t + 100 ns |
| `TimeUuid.LaterIdIsGreater` | cassandra/db.go:222-224 | so an id later than b has a larger count than the fallback hash |
| `StateHash.GetStateHash` | cassandra/db.go:197-226 | `IsStateHash` of its results: an empty list is an error with no hash; a single record's row id is returned; otherwise the first id of greatest time above the sentinel without error, else, with its error, an id at most 100 ns before the greatest positive birth date of the unparsable, else, with its error, the present's id |
| `StateHash.BestIsFirstGreatest` | cassandra/db.go:207-218 | the id chosen is the first of greatest time among those above the sentinel |
| `StateHash.BestBirthDateIsGreatest` | cassandra/db.go:205-214 | the fallback date is the greatest positive one among records whose id does not parse |
| `StateHash.LoopOutcomes` | cassandra/db.go:207-225 | each of the three outcomes occurs under exactly its condition |
| `StateHash.ShortcutAgreesIff` | cassandra/db.go:200-202 | the shortcut equals the loop exactly for canonical ids above the sentinel |
| `StateHash.OrderDoesNotMatter` | cassandra/db.go:197-226 | permuting the records changes neither the error nor the time of the hash |
| `StateHash.ConcatTakesLater` | cassandra/db.go:207-218 | the loop's hash of a concatenation has the later of the two parts' times |
| `LongPoll.PollCursor` | cassandra/db.go:161-226 | the hash of a non-empty answer is a readable cursor, the id of a row of greatest time if any row has one |
| `LongPoll.PollIff` | cassandra/db.go:161-190 | a poll may return any rows of the device, and type if asked for, with ids after the cursor, each once and within the limit, and must return all of them below the limit; it delivers them unchanged |
| `LongPoll.DeliveredWereAskedFor` | cassandra/db.go:161-190 | in every run the table holds the rows inserted, unchanged, and every row delivered is one of them, of the device and type asked for |
| `LongPoll.FallbackStillWants` | cassandra/db.go:219-224 | the fallback cursor still lets through every row whose id is past the birth dates returned |
| `LongPoll.CursorRises` | cassandra/db.go:164-167 | every poll that brings rows moves the cursor up in the database's order and never back in time |
| `LongPoll.CursorTimeRises` | cassandra/db.go:164-167 | with distinct times of the selected rows it moves strictly forward in time |
| `LongPoll.NeverTwice` | cassandra/db.go:161-226 | with distinct times of the selected rows no row with an id is ever delivered twice, whatever the limit and the inserts |
| `LongPoll.TieIsRepeated` | cassandra/db.go:165 | two rows of one instant: a run that delivers one of them twice |
| `LongPoll.EveryRowDelivered` | cassandra/db.go:161-226 | if no poll hits the limit and new ids follow the cursor, after each poll every selected row with an id has been delivered |
| `LongPoll.ExactlyOnceFromStart` | cassandra/db.go:161-226 | with distinct times of the selected rows, each of them exactly once |
| `LongPollLoss.SkippedForGood` | cassandra/executer.go:58 | a row without an id, or whose id is not after the cursor, is delivered by no poll of any continuation |
| `LongPollLoss.DeliverableIff` | cassandra/db.go:161-226 | a selected row of the table is delivered in some continuation exactly when the limit lets rows through and its id is after the cursor, if there is one |
| `LongPollLoss.LostIff` | cassandra/db.go:161-226 | an undelivered row is lost, in every continuation, exactly when there is a cursor that its id is not after |
| `LongPollLoss.RepeatedIff` | cassandra/db.go:161-226 | a delivered row can be delivered again exactly when it ties with the cursor in time and is later in the tie |
| `LongPollLoss.LimitLosesRows` | cassandra/executer.go:58 | newest first with limit one, the older of two rows is lost for good |
| `InsertCompiler.Insert` | postgresql/executer.go:79-118 | the loops produce the specified columns, placeholders and variables; an empty list is an error |
| `InsertCompiler.Numbering` | postgresql/executer.go:96-112 | placeholder j of row i has number Offset(i) + j + 1 and that variable is kept field j of record i |
| `InsertCompiler.EvenOffsets` | postgresql/executer.go:104-106 | when every record keeps k fields, Offset(i) is i * k |
| `InsertCompiler.RowFaithfulIff` | postgresql/executer.go:83-112 | row i evaluates to record i exactly when that record skips the same fields as the first |
| `InsertCompiler.StatementFaithfulIff` | postgresql/executer.go:79-118 | the statement yields the records in order exactly when all skip the same fields |
| `InsertCompiler.AcceptedIff` | postgresql/executer.go:114-118 | the tuples fit the column list exactly when all records keep as many fields as the first |
| `InsertCompiler.NoPrimaryKeyAlwaysAgrees` | db.go:25-35 | a type without a primary key, such as the event record, always agrees |
| `InsertCompiler.MeaningByField` | postgresql/executer.go:101-106 | a record's stored row has under its name every field but the ignored and a primary key that is an empty string, zero, no bytes or nil |
| `InsertCompiler.ColumnsAre` | postgresql/executer.go:83-93 | the columns are exactly those fields of the first record, in order |
| `InsertCompiler.AgreesIff` | postgresql/executer.go:86-106 | a record agrees with the first exactly when the same fields of both are stored |
| `InsertCompiler.PlainStatement` | postgresql/executer.go:79-118 | for a type without primary key or ignored field, such as the event record: all columns in order, placeholder j of row i is i * k + j + 1, and that variable is field j of record i |
| `InsertCompiler.PlainRowsAreRecords` | postgresql/executer.go:79-118 | and the database stores exactly the records' fields, each under its own name |
| `RowScan.FindRecords` | cassandra/executer.go:40-86 | every record equals its own row with nulls as zero values, and no two share a buffer, whatever the driver reuses |
| `RowScan.ScanBytes` | cassandra/executer.go:60 | the driver's part: null leaves the slice alone, otherwise the bytes land in the given buffer or a new one |
| `RowScan.FindBlacklist` | cassandra/executer.go:104-126 | each entry is its own row, a null reason reading as empty |
| `Blacklist.LastWinsMeans` | blacklist/blacklist.go:74-77 | the new rules hold exactly the ids listed, each with its last reason |
| `Blacklist.SyncList.InList` | blacklist/blacklist.go:51-68 | yes exactly for an exact rule or a pattern that matches the id, invalid ones aside; the exact rule first, the reason from such a rule |
| `Blacklist.SyncList.UpdateList` | blacklist/blacklist.go:72-82 | the rules become those of the new list alone |
| `Blacklist.SyncList.Refresh` | blacklist/blacklist.go:101-107 | a failed fetch changes nothing |
| `Blacklist.AnswersComeFromOneSnapshot` | blacklist/blacklist.go:51-145 | in every interleaving the rules are those of the list last swapped in, and each answer is right for one such list |
| `Blacklist.RulesAreLastFetch` | blacklist/blacklist.go:72-107 | after any run the rules hold exactly the ids of the list a fetch of the run returned and that was swapped in last, each with its last reason, or nothing before the first |
| `Blacklist.FetchesWait` | blacklist/blacklist.go:101-107 | a failed fetch changes nothing; a successful one only what waits to be swapped in |
| `Blacklist.AnswersAreForTheCall` | blacklist/blacklist.go:51-68 | each finished call was for the id it was made with, and its answer is right for the list in place when it was made |
| `Blacklist.SwapIff` | blacklist/blacklist.go:79-81 | a list can be swapped in exactly when no call is under way, and every call under way has a next action |
| `Blacklist.NoSwapUnderReaders` | blacklist/blacklist.go:52-81 | while a call is under way its snapshot stays installed |

## Left out

- Database drivers, SQL execution and text, connection set-up, SSL, health checks: foreign code; queries keep only their WHERE and LIMIT meaning, and the insert statement is modelled before its parts are joined into text.
- `retry`: the retry loop runs inside the backoff library, which is not part of this model; a database call simply succeeds or fails.
- Logging, metric registration, success and failure counters, connection pool gauges: single-branch facts.
- Time limits on waiting: the ticker may fire at any time, so how long a record waits is not bounded; starting and stopping tickers is not modelled.
- Calling `Insert` during or after the inserter's `Stop`, or `Stop` before `Start`: the first is documented to panic; runs begin after `Start`, and nothing is sent once the queue is closed.
- InserterDrain.StopReturnsAndDrains: calls of InsertRecords are taken to return, in success or error; a panic inside one is not modelled.
- Return of the deleter's `Stop`: it depends on whether the set's `Add` blocks when it is full, which is not part of this model.
- The nil inserter and nil pruner errors, and the nil checks of the measures, which the constructors always set.
- BatchInsertion.Repaired: the wait time of a batch is not modelled, because the ticker may fire at any time.
- BatchDeletion.Repaired: the wait times and the size of the set are not modelled, because tickers may fire at any time and the set may refuse any addition.
- LongPoll.ExactlyOnceFromStart: rows that expire by their time to live are not modelled; the table only grows.
- InsertCompiler.Insert: values are opaque apart from blankness, so the ORM's treatment of SQL expressions as values does not appear.
- Syntax of patterns: matching is a parameter that may answer yes, no or invalid.
- `getList` of both executers, `ParseEventType`, and the other connection settings: they would only add easy members.
- The Postgres `GetStateHash`, which is not implemented there.
