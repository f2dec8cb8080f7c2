# Cosmos indexer: a verified model

The indexer moves block heights from a chain node into a relational store. This project models the parts of it that
carry state, interleaving or index arithmetic, and proves what they do for all inputs, all schedules and all histories.

| file | what it models |
|---|---|
| `Enqueue.dfy`, `EnqueueTheorems.dfy`, `EnqueueProgress.dfy`, `FailedBlocks.dfy` | the default enqueue function: resume point, failed blocks, skip rule, and the loop against a bounded queue, a moving chain head and other goroutines |
| `Sharding.dfy` | fetcher mode: cutting a height range into shards and what all shards together send |
| `Pipeline.dfy`, `PipelineTheorems.dfy`, `PipelineEvents.dfy` | enqueuer, workers, closer, publish/subscribe hop, `processBlocks` and `doDBUpdates` as a labelled transition system |
| `Sessions.dfy` | the enqueue loop and the pipeline together, over any number of sessions on one database |
| `BlockEvents.dfy` | single and rolling-window block-event filters over one decision map |
| `TxAssembly.dfy`, `TxAssemblyTheorems.dfy` | the message loops of the two transaction parsers and the processor behind them |
| `Tables.dfy`, `Upsert.dfy`, `UpsertTheorems.dfy`, `ForeignKeys.dfy`, `IndexedBlocks.dfy` | the get-or-create passes of `IndexNewBlock`, idempotence, foreign keys, and the whole way from a transaction body to rows and back |
| `Signers.dfy` | signers and fees of a transaction |
| `Backoff.dfy`, `Paging.dfy`, `TransferEvents.dfy`, `CoinText.dfy`, `Uptime.dfy`, `BlockFile.dfy` | retry loops, paged requests, transfer events, coin texts, uptime, the block-file enqueuer |
| `Options.dfy`, `MachineInts.dfy`, `Sorting.dfy`, `FirstOccurrences.dfy` | small shared definitions |

Loops and objects that the source changes step by step are methods, loops and a class; each is proved equal to, or
against, a specification that the theorems are about. The loop of the enqueuer does not terminate in general, so
`Enqueue.Run` follows it for a given number of turns of the other goroutines, and the theorems hold for every number of
turns; the retry loop is treated in the same way, by a number of calls. What other goroutines do, what the chain head
reports, which requests fail and which messages the hop loses are parameters or actions that the theorems quantify over.

## Where the code does not do what one expects

Each of these is stated as a theorem, with the exact condition or a concrete case.

- The comment at `core/block_events.go:111` says that the first matching filter is used. The loops keep the last write.
  `BlockEvents.CommentHoldsExactly` says, from the filters that match an event, when the two agree,
  `BlockEvents.LastMatchWins` shows an event for which they do not.
- Without reindexing, the enqueuer starts at the highest stored height, so a gap below it is never filled:
  `EnqueueTheorems.ResumeCoversExactly`, `EnqueueTheorems.GapIsSkipped`.
- The inner loop stops strictly below the head, but the option to exit when caught up wants a height above it. On a chain
  whose head does not go down the option never ends a run: `EnqueueTheorems.NeverCaughtUp`. In general it ends a run if
  and only if some reported head is below the current height: `EnqueueTheorems.CaughtUpExactly`.
- Shards are inclusive at both ends, so interior boundaries are sent twice and the last shard reaches end + 1:
  `Sharding.ShardedCoverage`. Without reindexing, the default, each shard starts at its highest stored height, so gaps
  below it stay: `Sharding.ShardedSends`, `Sharding.GapInShard`.
- Nothing closes the channel `pipe` (`cmd/index.go:568`), so `doDBUpdates` never leaves its loop and `runIndexer` never
  returns: `PipelineTheorems.NeverReturnsAsWired`. With one explicit close it can, with everything handled:
  `PipelineTheorems.CanReturn`.
- The writer ignores the block events of a block whose transactions are indexed already. The two travel on two channels,
  so it may write the transactions first and then ignore the events, with nothing failing: `PipelineEvents.IgnoredExactly`,
  `PipelineEvents.EventsCanBeIgnored`.
- A selected message that cannot be decoded shifts the rows of the messages behind it. The rows are those of the stored
  messages (index, type, bytes and events) if and only if no such message comes before a stored one:
  `TxAssemblyTheorems.FaithfulExactly`, `TxAssemblyTheorems.ShiftedExample`.
- When parsed logs do not reach a stored message, the block-results parser indexes past their end:
  `TxAssembly.AssembleResults` says exactly when, `TxAssembly.OverrunExample` gives a case.
- A transaction that is stored and comes back changed keeps its old rows, since the inserts do nothing on conflict. What
  was given is found again if and only if the rows stored before agree with it: `ForeignKeys.LeadsBackExactly`,
  `ForeignKeys.ChangedValueIsLost`.
- `ExtractNumber` removes the digits of the amount from the denom as well, and keeps only the low 64 bits of the amount.
  A coin comes back if and only if its amount is below 2^63 and its digits do not occur in the denom:
  `CoinText.CoinRoundTrip`, `CoinText.DenomWithDigits`, `CoinText.AmountWraps`.
- The uptime query covers window + 1 heights, so the numerator exceeds the window if and only if all of them are signed:
  `Uptime.ExceedsWindow`, `Uptime.TwoOfOne`.
- With several producers the head can be asked on a full queue, since another shard can fill it during the request:
  `EnqueueTheorems.AskedOnFullQueue`; with one producer it is at most a quarter full: `EnqueueTheorems.AskedWhenLow`.
- A height can be lost at the hop without a trace, unless it had a row in failed_blocks before: for every plan and every
  height it keeps there is a session that ends, at rest, with that height lost and all others written
  (`Sessions.LossIsPossible`). A later session without reindexing sends a height that is neither stored nor recorded if
  and only if all stored heights of its range are below it (`Sessions.SentAgainExactly`, `Sessions.LostForGood`).
- The publisher does not notice that the result channel is closed (`cmd/index.go:665`). From then on it can read zero
  values any number of times without effect, so the pipeline need never come to a halt:
  `PipelineTheorems.SpinsAfterClose`.
- Without parsed logs, every stored message of a transaction without shifted rows gets all its events, so each event is
  stored as often as there are stored messages: `TxAssemblyTheorems.EventsRepeated`.
- Table failed_event_blocks is never read, and its heights would not be re-enqueued if it were: `FailedBlocks.FailedJobs`.

## Model

| member | source | states |
|---|---|---|
| PipelineTheorems.Conservation | cmd/index.go:660-732 | In every schedule, the transactions of an enqueued job are in exactly one channel or goroutine without an outcome, or nowhere with exactly one outcome (written, recorded as failed, dropped at the hop) |
| PipelineTheorems.StepConserves | core/rpc_worker.go:172-257 | No step of any goroutine creates, copies or loses the transactions of a job |
| PipelineTheorems.NothingLost | cmd/index.go:808-889 | At rest and with no drop at the hop, every job was written, or its failure is still a row of failed_blocks unless its height was written by another job |
| PipelineTheorems.NeverSendsOnClosed | cmd/index.go:445-459 | For any number of workers and any schedule, no goroutine sends on a closed channel; the result channel is closed only when all workers have exited; the queue respects its capacity and is first in, first out, and the data channels hold at most four items per worker |
| PipelineTheorems.LeavesWhenAllHandled | cmd/index.go:927-940 | doDBUpdates has left its loop only if both channels are closed and everything ever sent was handled, in order; at all times what is handled is a prefix of what was sent |
| PipelineTheorems.NeverReturnsAsWired | cmd/index.go:568-576 | Without an action that closes the pipe, no schedule lets doDBUpdates leave or runIndexer return |
| PipelineTheorems.CanReturn | cmd/index.go:1008-1012 | From every reachable state that is not aborted, with the pipe open, a schedule with a close of the pipe writes whatever is not settled, handles all that was sent and lets runIndexer return |
| PipelineTheorems.StepRank | core/rpc_worker.go:172-188 | Every step lowers a measure of the remaining work, except an enqueue, which adds a constant, and a read of a zero value, which changes nothing |
| PipelineTheorems.BoundedRun | cmd/index.go:660-680 | The length of every schedule is bounded by the work at its start, 21 steps per enqueued job and the reads of zero values after the result channel is closed |
| PipelineTheorems.SpinsAfterClose | cmd/index.go:660-680 | After the result channel is closed, an idle publisher can read any number of zero values without effect |
| PipelineTheorems.Progress | cmd/index.go:445-453 | No deadlock: in every reachable state with a job anywhere and the pipe open, some goroutine can take a step that moves a job on |
| PipelineTheorems.AlwaysDrains | cmd/index.go:934-952 | From every reachable state, working steps alone bring the pipeline to rest and settle every enqueued job exactly once, by writing all that were not settled before |
| PipelineTheorems.RunKeepsRow | db/db.go:560-567 | In every schedule a row of failed_blocks goes away only when its height is written |
| PipelineTheorems.LedgerSound | cmd/index.go:845-889 | Every outcome belongs to a job that was enqueued with transactions |
| PipelineEvents.EventsConserved | cmd/index.go:822-859 | In every schedule, the block events of every enqueued job, with or without transactions, are in exactly one place (queue, worker, hop, processor before its event part, events channel, writer) or have ended in exactly one way (indexed, ignored, block not fetched or not processed, events not parsed, dropped at the hop) |
| PipelineEvents.AllEventsHandled | cmd/index.go:1008-1033 | At rest and with no such failure and no drop, the writer has handled the block events of every enqueued job, each exactly once |
| PipelineEvents.EventsAlwaysDrain | cmd/index.go:927-1034 | From every reachable state, working steps alone bring the block events of every enqueued job to exactly one end, in the writer |
| PipelineEvents.IgnoredExactly | cmd/index.go:1018-1022 | The writer ignores block events if and only if the block was indexed with transactions at the start or its transactions have been written since |
| PipelineEvents.EventsCanBeIgnored | cmd/index.go:934-1022 | A schedule of working steps in which the transactions of a new block are written and its block events ignored |
| PipelineEvents.LastTouchDecides | db/db.go:560-567 | A height that is written and not recorded as failed afterwards is not a row of failed_blocks; one that is recorded and not written afterwards is |
| PipelineEvents.Untouched | db/db.go:516-531 | A height that no step writes or records is a row if and only if it was one |
| Pipeline.StepInv | cmd/index.go:804-806 | Every step keeps the invariant: no panic, first-in first-out channels that lose nothing, failures backed by rows of failed_blocks, shutdown in order |
| Pipeline.RunInv | cmd/index.go:404-655 | The invariant holds after every schedule |
| Pipeline.GrowBooks | db/db.go:560-567 | Deleting a height from failed_blocks when it is written keeps every other recorded failure |
| Enqueue.Run | core/block_enqueue.go:247-329 | The loops as written, with deletion from blocksInDB and with turns of the other goroutines around the length test, the head request, the guard, the decision and the send, reach after every number of turns the state of the machine whose skip rule uses the original map |
| Enqueue.Decide | core/block_enqueue.go:278-322 | One pass of the inner loop decides as the skip rule does, and the map still agrees with the original at and above the next height |
| Enqueue.FillQueue | core/block_enqueue.go:277-327 | The inner loop ends where its condition fails on the machine's state |
| Enqueue.ResendFailed | core/block_enqueue.go:226-244 | Failed blocks are sent first, each send waiting for room |
| Enqueue.Send | core/block_enqueue.go:292-295 | A send waits while the queue is full and then moves the current height by one |
| Enqueue.HighestStored | db/db.go:466-480 | The stored, stamped row of greatest height within the bounds, None exactly if there is none |
| Enqueue.KeptJobsExact | core/block_enqueue.go:277-322 | The kept jobs of a range are strictly ascending and exactly the heights the skip rule keeps |
| EnqueueTheorems.SendsExactly | core/block_enqueue.go:247-329 | At every reachable point, also among other producers, the main loop has sent, strictly ascending and once each, exactly the kept heights between its effective start and its current height |
| EnqueueTheorems.QueueDiscipline | core/block_enqueue.go:258-327 | The queue never exceeds its capacity; every send finds room, is below the last reported head and within the end block, and follows all failed blocks; every head request follows, after one turn of the others, a test that found the queue at most a quarter full, and every such test is followed by a request |
| EnqueueTheorems.TestDecides | core/block_enqueue.go:261-269 | Every length test that finds the queue at most a quarter full is followed by a head request, which ends the run if it fails and else tells the loop the head; any other test is not |
| EnqueueTheorems.GuardDecides | core/block_enqueue.go:250-277 | The inner loop goes on exactly while the height is below the head, within the end block and the queue is not full; otherwise the exit tests decide |
| EnqueueTheorems.SkipRule | core/block_enqueue.go:278-314 | The height at which a run resumes is sent exactly if its transactions are wanted and not indexed, any other exactly if it is not in the skip set |
| EnqueueTheorems.StartHeight | core/block_enqueue.go:196-217 | Without a stored row in range the loop starts at the configured height, or at 1 if that is not positive |
| EnqueueTheorems.NeverBlocks | core/block_enqueue.go:277-327 | With a single producer a main-loop send never blocks |
| EnqueueTheorems.AskedWhenLow | core/block_enqueue.go:261-265 | With a single producer the queue is at most a quarter full at every head request |
| EnqueueTheorems.AskedLowExactly | core/block_enqueue.go:261-265 | Among any producers the queue is at most a quarter full at a head request if and only if the turn since the test did not fill it beyond |
| EnqueueTheorems.AskedOnFullQueue | core/block_enqueue.go:261-277 | Among several producers the head can be asked on a full queue: a world in which it is |
| EnqueueTheorems.RefillNeedsDrain | core/block_enqueue.go:259-277 | After the queue was full, it is found a quarter full again, and with a single producer the head is asked again, only once cap - cap/4 jobs have been consumed |
| EnqueueTheorems.EndReachedSendsAll | core/block_enqueue.go:250-253 | A run ended by the end-block test has sent exactly the kept heights up to and including the end block |
| EnqueueProgress.EndIsReached | core/block_enqueue.go:247-329 | If the head is beyond the end block, consumers infinitely often bring even a full queue down to a quarter and nobody else puts jobs on it, every run ends by the end-block test |
| EnqueueTheorems.NeverCaughtUp | core/block_enqueue.go:253-256 | If heads never go down, the exit test never fires and the current height stays at or below the head |
| EnqueueTheorems.CaughtUpExactly | core/block_enqueue.go:253-256 | With the option on, a run ends by the exit test if and only if some head report of the run is below the height reached then; with it off, never |
| EnqueueTheorems.ShortReportBefore | core/block_enqueue.go:264-277 | The head is below the current height only after such a report |
| EnqueueTheorems.ResumeCoversExactly | core/block_enqueue.go:196-217 | A resumed run covers every height not indexed yet if and only if none lies below the highest stored height |
| EnqueueTheorems.GapIsSkipped | core/block_enqueue.go:207-216 | Heights 1 and 3 stored: height 2 is never sent |
| EnqueueTheorems.AfterInv | core/block_enqueue.go:247-329 | At every reachable point the loop's variables agree with the history of the channels |
| FailedBlocks.FailedJobs | core/block_enqueue.go:154-191 | One job with transactions per distinct height of failed_blocks, ascending, and nothing else; none if reattempts or transactions are off |
| FailedBlocks.MergeFailures | core/block_enqueue.go:168-184 | The merged map has the heights of both tables and asks for transactions exactly for those of failed_blocks |
| Sessions.KeptIsSettled | core/block_enqueue.go:247-329 | When the loop has ended at the end block and the pipeline is at rest on its jobs, every kept height of [start, end] was written, is a row of failed_blocks, or was dropped at the hop |
| Sessions.HandedIsSettled | core/rpc_worker.go:172-257 | The same for every job the loop has handed over, reattempts included, at any point of the loop |
| Sessions.RecordedIsReattempted | core/block_enqueue.go:226-244 | A session that reattempts failed blocks sends every recorded height again before its main loop; at rest it is written or still recorded |
| Sessions.NothingElse | core/block_enqueue.go:247-329 | Only kept heights and heights to be reattempted ever get an outcome |
| Sessions.NeverForgotten | core/block_enqueue.go:154-191 | Over any chain of sessions on one database, a height that one session kept and did not lose at the hop is written by a session or is still a row of failed_blocks |
| Sessions.CanRest | cmd/index.go:404-655 | Whatever the loop does, some schedule of the pipeline comes to rest on its jobs and has written them all, so the theorems about sessions at rest are never empty |
| Sessions.CanLose | cmd/index.go:666-677 | Whatever the loop does, any one of its jobs can be the only one that is not written, with no failure recorded |
| Sessions.LossIsPossible | cmd/index.go:666-677 | For every plan and every height it keeps, some session ends at the end block, comes to rest, has dropped that height and written all others; the height is in failed_blocks if and only if it was before |
| Sessions.LostIsNotResent | core/block_enqueue.go:207-217 | Without reindexing, a height that is not reattempted and lies below a stored one is never sent, whether or not the run ends |
| Sessions.SentAgainExactly | core/block_enqueue.go:207-217 | A run to the end block without reindexing sends a height that is not stored and not reattempted if and only if every stored height of its range is below it |
| Sessions.LostForGood | core/block_enqueue.go:207-217 | A height one session left unrecorded is never sent by the next, once a later block of its range is stored |
| Sharding.CalculateGoroutines | cmd/index.go:216-232 | All shards but the last have the step size, the last has the rest, between 1 and the step size |
| Sharding.MakeShards | cmd/index.go:362-391 | Shard k runs from start + k * step to the start of shard k + 1, the last one to end + 1 |
| Sharding.HitsOfKept | core/block_enqueue.go:277-322 | A kept height of a range is sent once, any other height not at all |
| Sharding.ShardSends | cmd/index.go:372-382 | A shard that ran to its end sent, with reindexing, each height that is not stored; without, each height above its highest stored one, and that one if its transactions are wanted and missing; all once, nothing else |
| Sharding.ShardedSends | cmd/index.go:362-391 | With or without reindexing, all shards together send a height of [start, end + 1] as often as the last shard that contains it and the shard before it do, and nothing outside |
| Sharding.SentBySome | cmd/index.go:362-391 | A height is sent if and only if some shard sends it |
| Sharding.ShardedCoverage | cmd/index.go:362-391 | With reindexing, all shards together send exactly [start, end + 1] minus the stored heights, interior boundaries twice and all others once |
| Sharding.GapInShard | core/block_enqueue.go:207-216 | Without reindexing and with heights 1 and 3 stored, the only shard of [1, 3] sends height 4 alone |
| BlockEvents.FilterRPCBlockEvents | core/block_events.go:102-166 | Fails exactly if an evaluated filter fails; else returns, in order, the events whose deciding match is inclusive; with one inclusive filter by type, or by type and attribute, exactly the events of that type, or with that attribute |
| BlockEvents.EvaluateSingles | core/block_events.go:118-126 | The decision map holds the last single match of the pass, earlier writes elsewhere |
| BlockEvents.EvaluateWindows | core/block_events.go:128-153 | The decision map holds, for every covered event, the last matching window of the pass |
| BlockEvents.MatchesExactly | filter/static_block_event_filters.go:27-84 | A type filter matches exactly its type, a regex filter the types it accepts, a type-and-attribute filter the events of its type with an attribute of its key and value; none of them fails |
| BlockEvents.WindowMatches | filter/static_block_event_filters.go:110-123 | A window matches if and only if every pattern matches its event |
| BlockEvents.WindowVerdict | filter/static_block_event_filters.go:110-123 | A window that does not match returns what its first pattern without a match returns |
| BlockEvents.WindowAtExactly | core/block_events.go:128-147 | A placed window matches if and only if each pattern matches the event it lies on |
| BlockEvents.LastWriteDecides | core/block_events.go:112-153 | After any number of passes the last write for an event is the match that beats all matches evaluated so far |
| BlockEvents.LastWriteIsDeciding | core/block_events.go:112-163 | The final write is the unique deciding match; an event is included if and only if that match is inclusive |
| BlockEvents.IncludedExactly | core/block_events.go:112-163 | The last window that matches at the event decides; else the last matching single filter; else, of the windows that reach it from before, the last one at the latest start |
| BlockEvents.CommentHoldsExactly | core/block_events.go:111-153 | For an event with a match, the first match of the comment decides if and only if one single filter and no window at the event match, or no single filter and one placed window do |
| BlockEvents.LastMatchWins | core/block_events.go:111-126 | Two single filters on one type: the comment's rule keeps the event, the code drops it |
| TxAssembly.AssembleSearch | core/tx/parser.go:296-356 | The three lists of the loop are those of the specification that the row theorems are about: entry, log and bytes per message, bytes before decoding |
| TxAssembly.AssembleResults | core/tx/parser.go:118-157 | As above with bytes after decoding; it panics if and only if parsed logs miss a stored message of a code-0 transaction |
| TxAssembly.OverrunExample | core/tx/parser.go:143-145 | One parsed log and two stored messages overrun |
| TxAssembly.ProcessMessage | core/tx/processor.go:195-239 | The row has the events of the first log with the message's index, all numbered, and the unique maps grow by exactly their strings |
| TxAssembly.ProcessTx | core/tx/processor.go:43-78 | Rows only for code 0; the unique maps hold exactly the strings the rows use |
| TxAssembly.LogForIndex | cosmos/modules/tx/logic.go:12-20 | The first log with the index, None exactly if there is none |
| TxAssemblyTheorems.RawInBounds | core/tx/processor.go:58-69 | The bytes list is at least as long as the message list in both parsers, for every body |
| TxAssemblyTheorems.PositionKept | core/tx/parser.go:303-343 | A message keeps its position if and only if no message before it was undecodable |
| TxAssemblyTheorems.AlignedExactly | core/tx/parser.go:296-356 | All stored messages carry their body index if and only if no undecodable message comes before a stored one |
| TxAssemblyTheorems.LogFound | core/tx/parser.go:303-356 | The log found for a position is the one recorded for that body message, for every body |
| TxAssemblyTheorems.FaithfulExactly | core/tx/processor.go:54-75 | The rows are exactly the stored messages in body order, each with its own index, type, bytes and recorded events, if and only if no undecodable message comes before a stored one |
| TxAssemblyTheorems.SearchedRow | core/tx/parser.go:296-356 | Search parser, unshifted body: stored message j has a row with index j, its type and bytes, and exactly the kinds, keys and values of log j, or no events without such a log |
| TxAssemblyTheorems.ResultsRow | core/tx/parser.go:118-157 | Results parser, code 0, unshifted body: the same with parsed log j or, without parsed logs, all events of the transaction |
| TxAssemblyTheorems.StoredExactly | core/tx/parser.go:472-494 | A message is selected if and only if there is no filter, an exact filter has its type or a regex accepts it; which selected messages each parser stores |
| TxAssemblyTheorems.EventsRepeated | core/tx/parser.go:142-150 | Without parsed logs each event of a code-0 transaction is stored once per stored message, if no undecodable message comes before a stored one |
| TxAssemblyTheorems.ShiftedExample | core/tx/parser.go:318-334 | An undecodable first message makes the second one message 0 with the first one's bytes |
| TxAssemblyTheorems.RowsNumbered | core/tx/processor.go:195-239 | Message indexes ascend; events and attributes are numbered from 0 |
| TxAssemblyTheorems.UniqueMapsCover | core/tx/processor.go:195-239 | Every message type, event type and attribute key of a row is in the unique maps |
| TxAssemblyTheorems.UniqueKeyFrom | core/tx/processor.go:195-239 | Every attribute key in the unique map is that of some row |
| TxAssemblyTheorems.UniqueTypeFrom | core/tx/processor.go:195-239 | Every event type in the unique map is that of some row |
| Tables.StoreRows | db/db.go:838-882 | The statement pairs of the insert loops compute get-or-create for every request and scan back the id of each row |
| Tables.GetOrCreateKeeps | db/db.go:859-880 | Get-or-create keeps unique keys and all rows, and adds at most the requested key with a fresh id |
| Tables.PutAllSays | db/db.go:838-882 | A request with a new key is stored as asked, its name recoverable through the foreign key |
| Tables.PutAllAgain | db/db.go:838-882 | Requests whose rows exist change nothing |
| Upsert.CollectEvents | db/db.go:884-892 | The event requests, each below the id scanned back for its message |
| Upsert.CollectAttributes | db/db.go:941-951 | The attribute requests, each below the id scanned back for its event |
| Upsert.UpsertTxsKeeps | db/db.go:778-790 | Stored transactions keep their ids, new ones get fresh ids, all of the block are present |
| UpsertTheorems.UpsertTxsHas | db/db.go:778-790 | With distinct hashes, after the upserts every transaction of the block has a row with its own code and the block |
| Upsert.Database.constructor | db/db.go:374-398 | The empty tables |
| Upsert.Database.StoreTx | db/db.go:811-1001 | The three insert passes of one transaction, on tables changed in place, equal the specification |
| Upsert.Database.IndexNewBlock | db/db.go:778-1001 | The whole block, on tables changed in place, equals the specification that the theorems are about |
| UpsertTheorems.IndexTwice | db/db.go:778-1001 | With distinct hashes, indexing the same transactions again leaves the rows and indexes of every table exactly as they were |
| ForeignKeys.PassAdds | db/db.go:811-1001 | A transaction's pass adds rows below that transaction only |
| ForeignKeys.EarlierPasses | db/db.go:811-1001 | The passes of other transactions leave what is below a transaction as it was |
| ForeignKeys.LeadsBackExactly | db/db.go:811-1001 | Foreign keys from an attribute of the block lead back to its strings, bytes, positions and hash if and only if the rows of the store before the call, found under its hash and positions, agree |
| ForeignKeys.NewTxLeadsBack | db/db.go:811-1001 | For a hash that was not stored before they always do |
| ForeignKeys.ChangedValueIsLost | db/db.go:978-982 | Indexed again with another value, an attribute does not lead back to it |
| IndexedBlocks.FreshRowLeadsBack | db/db.go:941-1001 | Every attribute row a block adds is the row of some attribute of the block, and leads back to it under the same condition on the store before the call |
| IndexedBlocks.ProcessedIsWellFormed | core/tx/processor.go:43-78 | What the processor produces satisfies what the store relies on: numbering, unique maps, distinct hashes |
| IndexedBlocks.RecordedIsStored | core/tx/processor.go:54-75 | Every attribute of the log that belongs to a stored message of a new transaction, unshifted and of code 0, from either parser, has a row that leads back to its body position, own bytes, event and hash |
| IndexedBlocks.StoredIsRecorded | db/db.go:941-1001 | Conversely every attribute row a block adds belongs to a transaction of the block; if that one is new and unshifted, whatever the others are, the row is one of those |
| ForeignKeys.BlockKeeps | db/db.go:811-1001 | Indexing a block keeps every row, every unique key and every foreign key |
| IndexedBlocks.HistoryValid | db/db.go:550-1001 | Every store reachable by indexing blocks has its unique and foreign keys in order |
| IndexedBlocks.RecoveredForever | db/db.go:550-1001 | In every history of blocks, repeated or not, what was recorded once can be read back after every later block |
| Signers.ProcessSigners | core/tx/processor.go:84-160 | Exactly the addresses of single and multisig keys, the message signers and the non-empty payer, without repetition, in the order in which they are first named: keys by signer info and position, message signers, payer; else the first key that does not resolve decides between an error and two empty lists |
| Signers.DedupInOrder | core/tx/processor.go:84-160 | First occurrences of all signers are exactly the named addresses in the order in which they are first named |
| Signers.InfoRowAt | core/tx/processor.go:96-140 | Each signer info with a key has its own row in order, with its sequence and mode and the address of its key, for a multisig that of the last key |
| FirstOccurrences.DedupExact | core/tx/processor.go:84-160 | Same elements, no repetition, ordered by first occurrence |
| Signers.ProcessFees | core/tx/processor.go:163-193 | One row per coin with an amount other than 0, in order, none left out; its payer is the named one, else the first signer, else empty |
| Signers.FeesConserved | core/tx/processor.go:174-190 | Dropping zero coins conserves the sum of every denom |
| Signers.PayerSigned | core/tx/processor.go:152-190 | The payer of a fee is in the signer list whenever that list is not empty |
| Backoff.CallWithRetry | rpc/blocks.go:192-229 | The k-th wait is min(floor(1.5^k s), cap) although computing stops at the cap; at most m + 1 calls, an error only after exactly m + 1 failures, else the first success |
| Backoff.CapExactly | rpc/blocks.go:197-207 | The cap is 2 seconds below 2, the given seconds while they fit, 30 seconds when the product wraps to a negative number |
| Backoff.UncappedExactly | rpc/blocks.go:232-243 | The k-th wait w before the cap satisfies w * 2^k <= 3^k * 10^9 < (w + 1) * 2^k |
| Backoff.UncappedGrows | rpc/blocks.go:232-243 | The uncapped waits never decrease |
| Backoff.WaitsGrow | clients/chain_rpc.go:106-144 | The waits never decrease and stay within the cap |
| Paging.GetTxsByBlockHeight | clients/chain_rpc.go:44-80 | Pages 1 to max(1, ceil(total/100)) are requested once each, in order; the result is the received pages, and an error only if the first page fails |
| Paging.PagesCover | clients/chain_rpc.go:62-66 | The requested pages of 100 cover the total and one less does not |
| Paging.AllReceived | clients/chain_rpc.go:44-80 | With full pages, a right total and no failure, all transactions and responses come back in order |
| Paging.StaysAligned | clients/chain_rpc.go:44-80 | Transactions and responses stay aligned if each page is |
| TransferEvents.ParseTransferEvent | cosmos/modules/tx/logic.go:74-107 | Accepts exactly the transfer events whose attributes are repeated triples; transfer j is read from attributes 3j, 3j + 1 and 3j + 2, and printing gives the attributes back |
| TransferEvents.PrintInjective | cosmos/modules/tx/logic.go:74-107 | Different transfers print differently, so parsing undoes printing |
| CoinText.ExtractNumber | pkg/repository/txs.go:655-672 | Nothing exactly if there is no digit; else the first digit run as a 64-bit number and the text without its decimal form; for the text of a coin, when the coin comes back |
| CoinText.FirstRun | pkg/repository/txs.go:656-657 | The first number is the first maximal digit run, wherever it is |
| CoinText.ParseItoa | pkg/repository/txs.go:655-672 | Reading a number's decimal text gives the number |
| CoinText.RemoveKeeps | pkg/repository/txs.go:667 | Replacing a text by nothing changes nothing if and only if it does not occur |
| CoinText.CoinRoundTrip | pkg/repository/txs.go:655-672 | For every n the low 64 bits of the amount come back, which are the amount if and only if n < 2^63; the coin comes back if and only if moreover its digits do not occur in the denom |
| CoinText.AmountWraps | pkg/repository/txs.go:664-667 | The amount 2^63 comes back as -2^63, and the whole text as the denom if that has no minus sign |
| MachineInts.Int64Exactly | pkg/repository/txs.go:664 | The low 64 bits, signed: in range and congruent modulo 2^64 |
| CoinText.DigitFreeCoin | pkg/repository/txs.go:655-672 | Amount and denom come back for every digit-free denom |
| CoinText.DenomWithDigits | pkg/repository/txs.go:655-672 | The text 7p7 yields 7 and p |
| Uptime.UptimeByBlocks | pkg/repository/blocks.go:417-448 | The unsigned heights of [height - window, height), ascending; with the signed count they make the window, plus one if height itself is signed |
| Uptime.SameNumerator | pkg/repository/blocks.go:41-55 | Under the unique indexes BlockUptime counts the same number |
| Uptime.ExceedsWindow | pkg/repository/blocks.go:417-448 | The numerator exceeds the window if and only if every height of [height - window, height] is signed |
| Uptime.TwoOfOne | pkg/repository/blocks.go:41-55 | Two signed blocks count in a window of one |
| BlockFile.RemoveDuplicates | util/utils.go:69-79 | The first occurrences, in order |
| BlockFile.EnqueueFile | core/block_enqueue.go:57-97 | Sends, strictly ascending, exactly the listed heights in [earliest, latest]; the skipped list is the rest |

## Left out

- Clients and engines: RPC, HTTP, Redis, Mongo and Postgres, SQL text, migrations and materialized views; requests, rows and messages appear as parameters, tables and actions.
- Codecs: JSON, protobuf, base64, bech32 and regular expressions; a decoder is an option per message, a regex a predicate.
- Fetcher mode's own pipeline: its workers and publishers run without doDBUpdates; only its sharding is modelled.
- Cancellation of the context, and a zero value that another process receives from a publisher about to crash on it.
- Consumers of chBlocks and chTxs, caches and aggregates: sends on these channels are assumed to be taken.
- Rows of failed_event_blocks, and the rows that doDBUpdates writes for block events: only whether events are indexed or ignored is modelled. Table blocks is given by the heights with indexed transactions.
- Rows of IndexNewBlock other than transactions, messages, events, attributes and their three name tables: addresses, fees, denoms, signatures, auth info, tips, signer infos, responses.
- The gorm pre-fills of the name tables (db/db.go:1025-1112): the statement pairs of the insert loops create the same strings.
- SQL errors and the rollback-and-continue paths of IndexNewBlock; the single reattempt and the failure quota of doDBUpdates are the abort action.
- Order of transaction upserts: the source walks a map by hash, the model the list; only the values of fresh ids depend on it.
- Overflow of heights: heights are unbounded, so nothing is said about heights at the ends of int64, nor about uint64 conversions in the block-file enqueuer.
- Throttling sleeps, clocks and logging.
- Generators for reindexing by message type, and GetIndexerStartingHeight: thin queries.
- Easy helpers: GetNthValueForAttribute, GetLastValueForAttribute, getAltMsgType, GetCoinsSpent, GetCoinsReceived, calculateMedian, WalkFindStrings.
- Equality of GetSenderAndReceiver and GetEvents with their V2 forms: it does not hold as written, since the two indexes are stored the opposite way round in cmd/index.go:1075-1077 and db/local_migration.go:204-206.
- Custom block-event parsers and custom filters beyond their interface.
- CoinText.CoinRoundTrip: a denom that starts with a digit, which no Cosmos denom does, cannot be told from the amount and is not covered.
- UpsertTheorems.IndexTwice: an insert that does nothing on conflict does not advance the id sequence of the model, as it does in Postgres; rows and indexes are not affected, later ids are.
- Sessions.NeverForgotten: the sessions are joined by the jobs handed over, not by queue lengths at each step, so it covers more schedules than the code has; sessions of fetcher mode, whose producers share a queue, are not covered.
- Backoff.CallWithRetry: does not model floating-point rounding of 1.5^k, the wait is its exact floor.
- Paging.GetTxsByBlockHeight: does not model floating-point rounding of the page count for totals above 2^53.
- Uptime.UptimeByBlocks: states the numerator and the window, not their floating-point quotient.
- BlockFile.EnqueueFile: sorting is a function, not sort.Slice's swaps in place.
- TxAssembly.AssembleSearch: type filters cannot fail, as those of the package do not, and unpacking yields a message or an error, not neither (core/tx/parser.go:325-331 would then dereference nil).
- TxAssembly.ProcessTx: does not model the failure to parse the timestamp; the unique maps are given by their key sets, since each string is mapped to a row with that string.
