# A verified model of cdviz-collector

cdviz-collector moves events from sources (webhooks, HTTP polling, file storage) through transformer
chains and a broadcast queue into sinks (PostgreSQL, ClickHouse, HTTP). This project models the parts of it
that are hardest to get right and proves what they promise, for every input, every interleaving and every
run. `dafny verify dfyconfig.toml` checks all of it.

The model takes the form of the code. Tasks that share state across `await` points (the batcher, the polling
source, the queue) are state machines with one step for each atomic action, and their loops are also written as
methods on classes that are proved to take only those steps. Servers, clocks, drivers and other tasks may
answer, wait and interleave in any way: what they do is a parameter of the step or an unconstrained choice.

| file | what it models |
|---|---|
| `Spool.dfy`, `Utf8.dfy` | the JSONL spool of a batch slot, byte by byte, with appends torn anywhere |
| `BatchProtocol.dfy` | writer, flusher, two slots and two files, over any number of crashes and restarts |
| `BatchSafety.dfy` | the invariants of that protocol, step by step |
| `BatchTheorems.dfy` | conservation, crash safety, the flush contract, the fate of an item, termination |
| `BatchRuns.dfy` | stretches of one life of the batcher: every flush is acknowledged once and in order |
| `Stores.dfy` | one `store` call of the PostgreSQL and ClickHouse sinks, with retries and fallbacks |
| `Batcher.dfy` | the code of slots, writer and flusher, proved to follow the protocol |
| `TimeWindow.dfy` | the persisted time window of the polling sources, and the file filter of the opendal source |
| `Polling.dfy`, `PollingTheorems.dfy` | the worklist of a poll: budget, depth, routing, outcome, termination |
| `PollingTiming.dfy` | rate-limit resets and the minimum interval, for releases and for starts |
| `HttpPolling.dfy` | `run_once` and `run` as loops, proved to follow the worklist and the window models |
| `Queue.dfy`, `QueueTasks.dfy` | the broadcast queue, its high watermark, a source's `send` and a sink's loop |
| `Transformers.dfy`, `Pipes.dfy` | transformer chains, deduplication, the collector and the HTTP sink |
| `Query.dfy` | the ClickHouse query template and its multi-row rewrite |
| `Oci.dfy` | OCI image references, Helm charts and the package URL normaliser |
| `Redirects.dfy` | redirects and server-requested retries, and which headers survive them |

## Where the code and its promises differ

- **Torn spool writes.** The comment at `src/sinks/batch.rs:139-140` says a torn record loses only itself. That
  holds exactly when no append stops between the bytes of one character (`Spool.TornWrites`); otherwise
  `Slot::open` fails on the whole file (`Spool.TornCharacter`, with an instance in `Spool.TornAccent`), and the
  collector does not start again (`BatchTheorems.Restart`).
- **Spacing of request starts.** `src/sources/http_polling/README.md:34-36` and the comment at
  `src/sources/http_polling/mod.rs:94-97` promise that the *starts* of consecutive requests are at least
  `min_request_interval` apart. Requests are *released* that far apart (`PollingTiming.ReleaseTiming`), but a
  future pushed to the in-flight set does nothing until the set is awaited, so with more than one slot, several
  released requests start at the same instant (`PollingTiming.BothStartAtOnce`). Starts are spaced exactly when
  `max_concurrency <= 1`, `max_requests <= 1` or there is no interval (`PollingTiming.StartSpacingExactlyWhen`).
  For the same reason a released request can start before a reset that another response has just reported
  (`PollingTiming.StartsBeforeReset`).
- **Start in the future.** A source whose `ts_after` is later than now minus one second moves its window
  backwards at the first advance and covers time before its start point; coverage is exact precisely when the
  start is in the past or at its limit (`TimeWindow.CoverageExactlyWhen`).
- **Backpressure headroom.** The watermark leaves room for bursts in flight exactly while there are at most
  `ring - watermark + 1` webhook sources (`Queue.LosslessExactlyWhen`).
- **`localhost` with a port.** `localhost:5000/app:1` is not taken for a registry, because the test at
  `src/transformers/vrl_purl.rs:94` compares the whole component (`Oci.LocalhostWithPort`);
  `Oci.RoundTripExactlyWhen` says exactly which references are given back unchanged.
- **Upper bound of a window.** `src/sources/http_polling/README.md:64-65` calls both ends of a window exclusive.
  Coverage is proved for windows that include their end, as the file filter at
  `src/sources/opendal/filter.rs:43-44` reads them; a driver that asks its API for both ends exclusive misses
  exactly the instants at which a window ends (`TimeWindow.EndpointsMissed`).
- **Unclosed placeholder.** A template that ends inside a placeholder with a known name is accepted
  (`src/sinks/clickhouse.rs:156-169`): `Query.UnclosedPlaceholder`.

## Model

| member | source | states |
|---|---|---|
| Utf8.ValidPrefix | src/sinks/batch.rs:118-119 | a prefix of valid text is valid text exactly when the cut does not split a character |
| Utf8.EncodedIsCharacter | src/sinks/batch.rs:118-119 | the encoding of every scalar value is accepted as one character, whatever follows |
| Utf8.CharacterIsEncoded | src/sinks/batch.rs:118-119 | nothing else is: an accepted character is the encoding of a scalar value |
| Spool.LoadLoop | src/sinks/batch.rs:115-131 | the line loop of `Slot::open` computes `Load`: an error on invalid UTF-8, blank and unreadable lines skipped |
| Spool.LoadWrite | src/sinks/batch.rs:137-156 | one group append cut anywhere reads back as exactly its whole records, or as an error if the cut splits a character |
| Spool.TornWrites | src/sinks/batch.rs:115-156 | for any sequence of appends each cut anywhere, opening succeeds exactly when no cut splits a character and then yields exactly the whole records in order |
| Spool.TornCharacter | src/sinks/batch.rs:118-119 | a record torn between the two bytes of a letter makes the file unreadable, the complete append behind it included |
| Spool.TornAccent | src/sinks/batch.rs:118-119 | an instance: a torn `["é"]` takes a complete `[0]` along |
| BatchSafety.StepKeeps | src/sinks/batch.rs:196-317 | every step of writer, flusher, clients, crash and restart keeps conservation, file shape, the ledger of spooled items, flush order and the drain contract |
| BatchTheorems.Conservation | src/sinks/batch.rs:196-317 | in every reachable state accepted, held by the drain, sealed, active and unwritten items, in this order, are exactly the pushed sequence |
| BatchTheorems.PutBackOverwritesNothing | src/sinks/batch.rs:305-312 | while a drain holds items its slot is the sealed one and empty, so putting the rest back loses nothing |
| BatchTheorems.FileContents | src/sinks/batch.rs:137-166 | each file is the accepted items of its slot since its last truncation followed by the spooled items still pending, also after failed truncations and drains |
| BatchTheorems.Ledger | src/sinks/batch.rs:115-188 | over all runs, copy by copy: spooled whole plus replayed though accepted equals accepted from the spool plus owed, by slots or by files |
| BatchTheorems.CrashSafety | src/sinks/batch.rs:115-188 | after a crash anywhere the next start comes up exactly if both files are readable, and each slot then holds exactly what it had accepted since its last truncation followed by everything spooled it still owed |
| BatchTheorems.Restart | src/sinks/batch.rs:177-188 | a restart succeeds exactly when both files are readable and then loads exactly their recovered items |
| BatchTheorems.FlushContract | src/sinks/batch.rs:255-281 | when a flush is acknowledged every item pushed before it is accepted, or a `store` call of that drain failed and the rest is in the slots in order |
| BatchTheorems.ShutdownContract | src/sinks/batch.rs:271-278 | the final drain leaves nothing unless one of its `store` calls failed |
| BatchTheorems.ItemFate | src/sinks/batch.rs:287-317 | every pushed item was inserted, or refused in a statement of its own, or is still buffered at its position |
| BatchTheorems.PotentialStep | src/sinks/batch.rs:255-317 | every drain step lowers a potential that appends never raise and a push raises by eight |
| BatchTheorems.DrainAllTerminates | src/sinks/batch.rs:255-261 | the number of drain steps is bounded by the potential plus eight for each item pushed meanwhile |
| BatchTheorems.DrainNeverBlocks | src/sinks/batch.rs:255-317 | a running drain always has a step to take |
| BatchTheorems.ChunkOfStore | src/sinks/batch.rs:304-314 | a `store` call carries at least one and at most `batch_max_size` items, the first ones the drain still holds |
| BatchRuns.HandedFlushes | src/sinks/batch.rs:271-276 | along every stretch of a life the flushes waiting at the flusher and those forwarded to it are, in order, those acknowledged and those still waiting |
| BatchRuns.FlushesInOrder | src/sinks/batch.rs:88-98 | end to end: flushes unanswered before and flushes asked for are, in order, flushes acknowledged and flushes unanswered after |
| BatchRuns.WriterFinishes | src/sinks/batch.rs:204-238 | a received batch takes the writer at most a bounded number of steps, whatever the others do in between |
| BatchRuns.WriterNeverBlocks | src/sinks/batch.rs:204-238 | a busy writer always has a step to take, unless the flush before still waits for the flusher |
| Batcher.SlotBuffer.PushAll | src/sinks/batch.rs:137-156 | one write of the group behind leading newlines, cut anywhere; memory always gets the whole group |
| Batcher.SlotBuffer.Truncate | src/sinks/batch.rs:159-165 | empties the file or, when that fails, leaves it; memory is untouched |
| Batcher.Batcher.Push | src/sinks/batch.rs:81-86 | is the send step of the protocol |
| Batcher.Batcher.WriterReceive | src/sinks/batch.rs:204 | is the receive step: a batch from the front of the channel |
| Batcher.Batcher.WriterCollect | src/sinks/batch.rs:208-210 | is the collect step: consecutive pushes are grouped |
| Batcher.Batcher.WriterAppend | src/sinks/batch.rs:223-241 | is the append step on the active slot and its file |
| Batcher.Batcher.WriterForward | src/sinks/batch.rs:211-216 | is the forward step, once every push before the flush is in a slot |
| Batcher.Batcher.TakeSealed | src/sinks/batch.rs:292-299 | is the swap-and-take step under the lock |
| Batcher.Batcher.PutBackRest | src/sinks/batch.rs:305-312 | is the put-back step |
| Batcher.Batcher.TruncateSealed | src/sinks/batch.rs:315 | is the truncate step |
| Batcher.Batcher.CheckSlots | src/sinks/batch.rs:257-259 | is the check step: both slots empty or another round |
| Batcher.Batcher.StoreChunk | src/sinks/batch.rs:304-314 | stores one chunk while the other tasks run, and keeps an honest receipt for each chunk accepted |
| Batcher.Batcher.DrainSealed | src/sinks/batch.rs:287-317 | with any interleaving ends, lowers the remaining work, and returns false exactly when it gave up |
| Batcher.Batcher.DrainAll | src/sinks/batch.rs:255-261 | ends with the drain over, along steps of the protocol |
| Batcher.Batcher.ServeFlush | src/sinks/batch.rs:271-276 | acknowledges exactly the first waiting flush after a whole drain, and then every item pushed before the flush is accepted or a `store` call failed since |
| Batcher.Batcher.ServeTick | src/sinks/batch.rs:265-270 | a timer or notification leads through one wake-up and one drain, others interleaving, back to an idle flusher, and acknowledges nothing |
| Batcher.Batcher.ServeClosed | src/sinks/batch.rs:271-278 | when the writer is gone the last drain accepts everything pushed before the call, or one of its `store` calls failed; nothing is pushed meanwhile |
| Batcher.Batcher.ServeWake | src/sinks/batch.rs:264-280 | each wake-up is served: one drain for the timer, the first waiting flush acknowledged for the flush channel, and the end exactly when that is closed and empty |
| Batcher.Batcher.NextTurn | src/sinks/batch.rs:263-281 | a turn of the loop serves what the wake-up finds after any steps of the other tasks; flushes that waited before are still found |
| Batcher.Batcher.RunFlusher | src/sinks/batch.rs:245-282 | for any wake-ups and any interleaving: after the first drain every wake-up is served in turn, the steps taken contain one timer wake-up for each, the flushes waiting and forwarded are in order those acknowledged and those left, a waiting flush is acknowledged at the first wake-up of its channel, and the loop ends exactly on a closed and empty channel, with everything accepted or a failed `store` call |
| Batcher.Start | src/sinks/batch.rs:58-79 | opens both slots from the files of the previous run, or fails exactly when the protocol cannot restart |
| Stores.OnlyBadRowsAreLost | src/sinks/db.rs:199-229 | a row no successful insert contained was refused for good in a statement carrying only it |
| Stores.RowFate | src/sinks/batch.rs:31-37 | every row handed to the store is traced to the statement that settled it |
| Stores.Target.StoreEventsBatch | src/sinks/db.rs:258-294 | success settles every row, through the batch procedure or the older one-event procedure; a transient error is the last answer |
| Stores.Target.Attempt | src/sinks/clickhouse.rs:292-309 | one attempt settles its rows on success, and a single row also on a lasting error; it meets at most one transient error, its last answer |
| Stores.Target.RetryOnTransient | src/sinks/retry.rs:18-56 | ends with success, a lasting error, or a transient error, the last exactly after as many retries as the policy grants |
| Stores.Target.StoreOneByOne | src/sinks/clickhouse.rs:310-325 | rows one by one: true means each is settled, false means the retries of a row were used up on transient errors |
| Stores.Target.Store | src/sinks/db.rs:201-229 | true means every row of the chunk was inserted or failed alone for good; false only after more transient errors than the policy grants retries; a ClickHouse sink that can insert many rows at once sends them one by one only after a lasting error |
| TimeWindow.ComputeTsBefore | src/sources/http_polling/filter.rs:48-54 | the end of a window is the smaller of the limit and now minus the margin |
| TimeWindow.TimeWindowFilter.constructor | src/sources/http_polling/filter.rs:15-18 | the first window begins at the given start |
| TimeWindow.TimeWindowFilter.Advance | src/sources/http_polling/filter.rs:21-24 | the next window begins where this one ended |
| TimeWindow.TimeWindowFilter.SetTsAfter | src/sources/http_polling/filter.rs:43-45 | a loaded checkpoint moves only the beginning |
| TimeWindow.TimeWindowFilter.IsAtLimit | src/sources/http_polling/filter.rs:27-29 | true exactly when the beginning has reached the limit |
| TimeWindow.StartSource | src/sources/http_polling/mod.rs:843-849 | the first window begins at the saved checkpoint if there is one that can be read, at the configured time otherwise |
| TimeWindow.RestartResumes | src/sources/http_polling/mod.rs:843-849 | a process that can read its checkpoint begins exactly where the last saved advance ended, whatever happened in between without saving; one that cannot begins at the configured time |
| TimeWindow.UnsavedStartsOver | src/state.rs:31-52 | as long as nothing was saved every process begins at the configured time |
| TimeWindow.AdvanceReachesHighWater | src/sources/http_polling/mod.rs:884-886 | the window advanced past ends exactly where coverage then ends |
| TimeWindow.NothingTwice | src/sources/http_polling/mod.rs:842-919 | across a restart that reads the checkpoint of the last advance no instant covered before lies in a window of the new process, however long it runs |
| TimeWindow.GaplessCovers | src/sources/http_polling/mod.rs:842-919 | windows that never begin past what earlier ones reached cover exactly the time from the start to the furthest end |
| TimeWindow.GapFreeCoverage | src/sources/http_polling/mod.rs:842-919 | over polls, failed saves, crashes and restarts the advanced windows cover exactly the time from the start to the furthest end, the current `ts_after` included |
| TimeWindow.WindowsAbut | src/sources/http_polling/mod.rs:884-886 | within one process each window begins exactly where the previous one ended |
| TimeWindow.StopsExactlyAtLimit | src/sources/http_polling/mod.rs:868-874 | no window passes the limit, and a source stopped at it has covered the time exactly up to it |
| TimeWindow.FutureStartCounterexample | src/sources/http_polling/filter.rs:21-24 | a source configured to start an hour ahead covers time before its start |
| TimeWindow.CoverageExactlyWhen | src/sources/http_polling/filter.rs:15-54 | coverage is exact in every life of the source if and only if it starts in the past or at its limit |
| TimeWindow.ExactlyOneWindow | src/sources/opendal/filter.rs:40-62 | a non-empty file with an accepted path is accepted by exactly one window of a process if its modification time lies in the range scanned, any other resource by none, at the limit too, which no window passes |
| TimeWindow.EndpointsMissed | src/sources/http_polling/README.md:64-65 | read with both ends exclusive, the windows of a process miss exactly the instants at which one ends |
| Polling.RateLimitResetIn | src/sources/http_polling/mod.rs:243-259 | a pause exactly for a spent budget with a reset ahead, ending one second past it |
| PollingTheorems.TaskConservation | src/sources/http_polling/mod.rs:709-803 | every created task is in exactly one of queued, pushed, under way, failed, handled, dropped; tasks are exactly the requests the driver calls returned, each with the state and depth of its call, one deeper than its parent and none deeper than `max_depth` |
| PollingTheorems.WithinBudget | src/sources/http_polling/mod.rs:711-722 | at most `max_requests` are issued, re-queues included, at most `max(max_concurrency, 1)` are in flight, and tasks are dropped only once the budget is spent |
| PollingTheorems.Routing | src/sources/http_polling/request.rs:37-44 | downstream go exactly the handled responses with a status in 200..299 and route `pipeline` or `both`; back to the driver exactly those with such a status, route `feedback` or `both` and a depth below `max_depth`; both in the order handled |
| PollingTheorems.CompletionEffect | src/sources/http_polling/mod.rs:757-802 | what one response does to the worklist, by status, route, depth and rate limit |
| PollingTheorems.OnStatusOverrides | src/sources/http_polling/mod.rs:164-176 | an exact `on_status` entry decides for its code alone, a class entry for the other codes of its class; without entries 401 and 403 abort and 5xx hold |
| PollingTheorems.AbortsExactlyWhen | src/sources/http_polling/mod.rs:757-773 | a response stops the source exactly if it is no 2xx, reports no spent rate limit, and its own entry, else its class, else being 401 or 403 says so |
| PollingTheorems.PollOutcome | src/sources/http_polling/mod.rs:805-809 | a finished poll left nothing over, and holds the window exactly when something was asked for, the budget was not zero and no response was a 2xx or skipped |
| PollingTheorems.AbortsOnlyOnPolicy | src/sources/http_polling/mod.rs:758-774 | the source stops only over a non-2xx that is no rate-limit refusal and resolves to abort: by default a 401 or 403, and a code with its own entry only if that says so |
| PollingTheorems.RefusedGoesNext | src/sources/http_polling/mod.rs:763-766 | after a rate-limited refusal the poll's next step releases that very task again, not before the reset, or drops it because the budget is spent |
| PollingTheorems.NeverStuck | src/sources/http_polling/mod.rs:711-748 | a poll that has not ended can always take a step |
| PollingTheorems.PollTerminates | src/sources/http_polling/mod.rs:684-810 | for every driver and server a poll ends within 4 max_requests + 2 steps |
| PollingTiming.ReleaseTiming | src/sources/http_polling/mod.rs:707-732 | no request is released before any reset reported in this or an earlier poll, and releases of a poll are at least the interval apart |
| PollingTiming.ResetIsWaitedOut | src/sources/http_polling/mod.rs:628-644 | after a spent budget with a reset ahead no request of this or any later poll is released before one second past it, one hour at most |
| PollingTiming.ReleasesApart | src/sources/http_polling/mod.rs:724-732 | two requests of a poll are released at least the interval apart, whatever happens between |
| PollingTiming.BothStartAtOnce | src/sources/http_polling/mod.rs:711-743 | with two slots a run in which two requests start at the same instant |
| PollingTiming.StartSpacingExactlyWhen | src/sources/http_polling/mod.rs:94-98 | the starts of worklist requests (one `fetch` each) are spaced in every run if and only if there is one slot, one request or no interval |
| PollingTiming.StartsBeforeReset | src/sources/http_polling/mod.rs:737-755 | a run in which a released request starts before a reset reported by another response |
| PollingTiming.StartAfterResetsExactlyWhen | src/sources/http_polling/mod.rs:628-644 | starts respect every reset reported earlier, in every run, if and only if there is one slot or at most two requests |
| HttpPolling.HttpPollingSource.ApplyRateLimitPause | src/sources/http_polling/mod.rs:628-644 | pushes the next release out to the reset, capped at one hour, and never pulls it in |
| HttpPolling.HttpPollingSource.Fill | src/sources/http_polling/mod.rs:711-741 | the inner loop takes only issue and drop steps and stops with the slots full or the queue empty |
| HttpPolling.HttpPollingSource.Await | src/sources/http_polling/mod.rs:743 | whatever the world wishes, what happens while awaiting is a completion the model allows |
| HttpPolling.HttpPollingSource.Conclude | src/sources/http_polling/mod.rs:750-802 | handling one completion changes the worklist, the pauses and the emitted responses as the model's completion step |
| HttpPolling.HttpPollingSource.RunOnce | src/sources/http_polling/mod.rs:684-810 | ends for every driver and server, is one poll of the model from the given bootstrap, takes the results from the world in order, emits exactly the handled 2xx responses routed to the pipeline, returns the model's verdict, and never meets an empty in-flight set with a non-empty queue |
| HttpPolling.HttpPollingSource.Run | src/sources/http_polling/mod.rs:842-919 | polls once for each cycle with that cycle's bootstrap, stops only at the limit, on abort or at the end, returns the verdicts of the polls, and moves window and checkpoint by one window step for each, forward exactly on Advance |
| HttpPolling.HttpPollingSource.RunProcess | src/sources/http_polling/mod.rs:842-919 | a process begins at its checkpoint or the configured time and then moves the window once for each poll, forward exactly on Advance |
| Queue.Watermark | src/sources/send_cdevents.rs:40-41 | four fifths of the capacity rounded down or one, whichever is more; never above the capacity and below it from two on |
| Queue.Ring | src/pipeline.rs:78 | the channel holds a power of two of messages, at least the capacity and less than twice it |
| Queue.EverySinkAccounts | src/sinks/mod.rs:206-251 | each sink receives the sent messages in order minus exactly those counted as lagged: received plus skipped is its cursor |
| Queue.ReceptionExactly | src/sinks/mod.rs:211-245 | a sink at most a ring behind gets the next message; one further behind skips exactly the messages the ring has overwritten |
| Queue.BacklogBound | src/sources/send_cdevents.rs:49-76 | with K backpressured sources and no pull source no backlog exceeds watermark - 1 + K |
| Queue.RefusesExactlyWhen | src/sources/send_cdevents.rs:50-57 | a source is refused exactly if some sink has the watermark or more messages still to read, and never once all have caught up |
| Queue.EverySinkReceivesAll | src/sinks/mod.rs:206-251 | with few enough backpressured sources every sink receives exactly what was sent and never lags |
| Queue.LosslessExactlyWhen | src/sources/send_cdevents.rs:9-43 | no sink ever lags if and only if K <= ring - watermark + 1 |
| QueueTasks.Processor.constructor | src/sources/send_cdevents.rs:31-43 | only a source with a queue capacity gets a watermark |
| QueueTasks.Processor.Send | src/sources/send_cdevents.rs:49-76 | refuses without a trace exactly when some sink has at least the watermark of messages still to read; otherwise checks and enqueues with anything happening in between |
| QueueTasks.Recv | src/sinks/mod.rs:211-245 | one reception delivers the next message, or reports a lag exactly when more messages wait than the ring holds |
| QueueTasks.RunSink | src/sinks/mod.rs:206-258 | the channel goes through exactly the others' steps and this sink's receptions; the loop delivers every message received in order, ends once the closed queue is drained, and flushes then: each message sent was delivered or skipped |
| Transformers.StageInFront | src/transformers/vrl.rs:78-86 | one stage before any terminal feeds it exactly the stage's outputs up to the first refusal |
| Transformers.ChainIsComposition | src/transformers/mod.rs:166-176 | depth-first pushing through any chain feeds the terminal what composing the stages left to right yields, fails exactly when a stage or the terminal refuses, and on success leaves the composed states |
| Transformers.PlainStages | src/transformers/vrl.rs:78-86 | a passing or logging stage hands every event on, a discarding one none, a VRL stage what its program returns, up to the first event it fails on |
| Transformers.StageAfterPushes | src/transformers/mod.rs:166-176 | after any pushes, failing or not, each stage has reacted to exactly the events that arrived at it |
| Transformers.ChainSplits | src/transformers/mod.rs:166-176 | chain(a ++ b, t) behaves as chain(a, chain(b, t)) |
| Transformers.DedupWindow | src/transformers/deduplicate.rs:39-64 | the remembered keys are exactly the last `capacity` handed on, without duplicates, and equal keys have `capacity` others between them |
| Transformers.DedupAfterPushes | src/transformers/deduplicate.rs:57-63 | anywhere in a chain, and even if the pipes behind it fail, the stage remembers exactly the last `capacity` keys it handed on, each recorded before the next pipe can fail |
| Transformers.DroppedExactlyWhen | src/transformers/deduplicate.rs:52-62 | an event is dropped exactly when its key is among the last `capacity` handed on |
| Transformers.ZeroCapacityPasses | src/transformers/deduplicate.rs:40-42 | capacity zero hands every event on |
| Pipes.TransformerChainConfig.Resolve | src/transformers/mod.rs:223-227 | appends the referenced transformers in order, or reports the first unknown name and changes nothing |
| Pipes.TransformerChainConfig.Append | src/transformers/mod.rs:229-231 | global transformers come last |
| Pipes.BuildTransformerChain | src/transformers/mod.rs:166-176 | wrapping from last to first yields the stages in configuration order, or fails exactly when one cannot be made |
| Pipes.TransformerChain.Process | src/transformers/deduplicate.rs:39-64 | what each kind of pipe hands on and remembers before calling the next, its memory updated before the next can fail |
| Pipes.TransformerChain.SendFrom | src/transformers/mod.rs:47-53 | sending from one pipe on is the depth-first meaning of the rest of the chain |
| Pipes.TransformerChain.SendOutputs | src/transformers/vrl.rs:79-82 | outputs are handed on one by one up to the first error |
| Pipes.TransformerChain.Push | src/transformers/mod.rs:251-253 | a push, failing or not, leaves stages and terminal as depth-first sending does, and feeds the terminal the composition of the stages on this event |
| Pipes.HttpSink.Drain | src/transformers/collect_to_vec.rs:52-57 | returns everything collected and leaves nothing |
| Pipes.HttpSink.SendMessage | src/sinks/http.rs:245-260 | the requests made for a message are exactly the events its chain derives from it, none if rejected, and the collector is empty afterwards whatever failed |
| Query.ScanTemplate | src/sinks/clickhouse.rs:147-175 | the character loop reads the template as specified, failing exactly on an unknown placeholder |
| Query.KnownPlaceholders | src/sinks/clickhouse.rs:95-108 | the eight placeholder names stand for their fields and no other name is known |
| Query.ReadPlaceholder | src/sinks/clickhouse.rs:155-161 | a placeholder is everything up to the next closing brace or the end |
| Query.ReadingScans | src/sinks/clickhouse.rs:147-175 | a template that spells some tokens, a closing brace at the end optional, reads as their text with `?` for placeholders and the placeholders in order |
| Query.ScanReads | src/sinks/clickhouse.rs:147-175 | whatever is read without an error spells some tokens |
| Query.UnclosedPlaceholder | src/sinks/clickhouse.rs:156-169 | `{id` is read as the identifier |
| Query.SplitExactly | src/sinks/clickhouse.rs:183-200 | a split is found if and only if the text behind the last VALUES is a parenthesised tuple with white space around and semicolons behind, and it is that split |
| Query.LastValues | src/sinks/clickhouse.rs:183-194 | the split is at the last whole-word VALUES in any case |
| Query.ValuesWord | src/sinks/clickhouse.rs:183-191 | the keyword is VALUES in any case with no letter, digit or underscore beside it |
| Query.SplitShape | src/sinks/clickhouse.rs:195-200 | the statement is its head, white space, the tuple, and only white space and semicolons |
| Query.Parse | src/sinks/clickhouse.rs:147-203 | succeeds exactly on templates that spell tokens with a placeholder, and yields their text, their placeholders in order and the only split of the text into head and tuple |
| Query.MarksOfBatch | src/sinks/clickhouse.rs:206-210 | the multi-row statement has the head's marks plus n times the tuple's |
| Query.BatchBindsExactlyWhen | src/sinks/clickhouse.rs:292-298 | the flattened rows bind to the multi-row statement if and only if rows times literals equal (rows - 1) times marks in the head; without literals, for one row or a head without placeholders |
| Query.MultiRowPreservesMeaning | src/sinks/clickhouse.rs:206-210 | binding the flattened rows gives the head and then the very tuples that binding each row alone gives, in order |
| Query.ParameterPosition | src/sinks/clickhouse.rs:293 | row i, field j binds at i fields + j |
| Oci.ParseOciImage | src/transformers/vrl_purl.rs:50-128 | for every well-formed reference with that text the result has kind oci, the last component as name, the digest with its algorithm as version, and the repository URL and tag of the canonical form as qualifiers; it has no slash in its name and is already normal |
| Oci.NoTag | src/transformers/vrl_purl.rs:70-78 | a registry's port is never taken for a tag |
| Oci.ImageParts | src/transformers/vrl_purl.rs:50-128 | kind, name, version, repository URL and tag of what every well-formed reference is parsed to |
| Oci.RenderGivesCanonical | src/transformers/vrl_purl.rs:50-128 | re-rendering what any well-formed reference parses to gives its canonical form |
| Oci.RoundTripExactlyWhen | src/transformers/vrl_purl.rs:50-128 | a reference comes back unchanged if and only if it has a host with a dot or is plain localhost, a path, and a tag or a sha256 digest |
| Oci.LocalhostWithPort | src/transformers/vrl_purl.rs:94 | `localhost:5000/app:1` is read as a repository on docker.io |
| Oci.Normalise | src/transformers/vrl_purl.rs:326-343 | the in-place edit of the qualifiers computes the normal form |
| Oci.NormaliserKeepsLocation | src/transformers/vrl_purl.rs:326-343 | no slash is left in an OCI name, repository URL and name together are unchanged, other qualifiers too, and a second application changes nothing |
| Oci.HelmAgreesWithNormaliser | src/transformers/vrl_purl.rs:148-177 | for an OCI registry the Helm parser gives what the normaliser gives, at the location registry/chart |
| Oci.HelmParts | src/transformers/vrl_purl.rs:148-177 | a chart of an HTTP repository becomes a generic package with that address and type helm; any other registry takes all of the chart but its last component |
| Oci.ImagesAreNormal | src/transformers/vrl_purl.rs:50-128 | what the image parser produces is already normal |
| Redirects.StripCredentials | src/sources/http_polling/retry_after_middleware.rs:138-163 | a configured header stays exactly on the same scheme, host and port or towards a trusted host without leaving https, other credentials only on the former, everything else always |
| Redirects.React | src/sources/http_polling/retry_after_middleware.rs:48-118 | a reply costs one of the two budgets or ends the loop, a retry repeats the request, and a redirect keeps only headers that may survive it, unchanged |
| Redirects.Handle | src/sources/http_polling/retry_after_middleware.rs:35-121 | the loop ends for every server and sends exactly the specified requests, returning the last reply |
| Redirects.AtMostTwentyOneSends | src/sources/http_polling/retry_after_middleware.rs:9-12 | no server can make the loop hand more than 21 requests to the rest of the middleware stack |
| Redirects.EachHop | src/sources/http_polling/retry_after_middleware.rs:48-116 | a 303 makes a bodyless GET (section 15.4.4 of RFC 9110), other redirects keep verb and body, a retry repeats the request |
| Redirects.FollowedExactlyWhen | src/sources/http_polling/retry_after_middleware.rs:45-119 | a reply is followed exactly if the body can be sent again and it is a redirect with a location and fewer than ten before it, or a 429 or 503 with `Retry-After` and fewer than ten before it |
| Redirects.GetForever | src/sources/http_polling/retry_after_middleware.rs:69-73 | after one 303 every later request is a GET without a body |
| Redirects.VerbKept | src/sources/http_polling/retry_after_middleware.rs:93-116 | without a 303 the request keeps verb and body to the end |
| Redirects.HeadersExactly | src/sources/http_polling/retry_after_middleware.rs:138-163 | a header is on a request exactly if it was on the original and survived every earlier redirect |
| Redirects.ConfiguredHeadersStay | src/security/header.rs:189-197 | a configured header is on a later request exactly if it was on the original and every earlier redirect kept scheme, host and known port, or went to a trusted host and not from https to another scheme |
| Redirects.OtherHeaders | src/sources/http_polling/retry_after_middleware.rs:138-163 | unconfigured credentials stay exactly while redirects keep scheme, host and known port, all other headers always |

## Left out

- Power loss: a crash in the model keeps what a write has put into the file; the order of data on disk before `sync_data` returns is not modelled.
- `Batcher.Batcher.RunFlusher`: does not model an endless loop; it serves as many wake-ups as it is given, in any order.
- The capacities of the batcher's two channels: `push` waits when a channel is full, which removes interleavings and adds none, except for the flush channel, whose capacity of one is modelled.
- JSON text: records are objects or arrays whose encoding is valid UTF-8 without line breaks and has no proper prefix that parses (`Spool.Good`, met by `Spool.SomeCodecIsGood`), as the JSON library guarantees.
- VRL programs, glob patterns and JSON pointers: arbitrary functions of their input; a VRL program that reads the clock or random numbers is not covered.
- Resends inside one `fetch`: a request of the worklist is one `fetch`. The middleware behind `handle` may send each of its up to 21 requests several times after transient errors, and neither these nor redirects and retries count against `max_requests` or wait for `min_request_interval`.
- URL parsing and joining, date parsing and header syntax: parameters of the reply (`Redirects.Reply`, `Polling.Response`).
- `Queue.Watermark`: does not model rounding of 64-bit floating point, which changes nothing for capacities below 2^50.
- Queue capacity zero, for which the broadcast channel panics at start.
- `PlaceholderField::extract_value`: which part of an event a placeholder stands for; a row is any list of strings.
- Escaping of `??` and rendering of values inside the ClickHouse client: a statement's question marks are its parameters.
- `Stores.Target.RetryOnTransient`: does not model the waiting time between retries; how often the policy grants one is arbitrary.
- `Pipes.TransformerChain.Push`: does not model lock poisoning after a panic in another thread.
- Parsing of response bodies into events (`emit_response`): the model records which responses are emitted, not the events in them.
- Reading accepted files into events, and `FilePatternMatcher` of the opendal source: the path test is an arbitrary predicate.
- Shutdown of a poll in the middle: it ends the source, and every prefix of a run is a run of the model.
- Git sources of package URLs: they only copy their input into qualifiers.
- Network, database, Kafka, NATS, SSE, OTLP and folder clients, the HTTP server, signatures, configuration loading, command-line tools, metrics and tracing.
