# Verified model of the Convex backend's retention, caching, scheduling and log structures

This project models self-contained cores of the Convex backend in Dafny and proves what they promise
over all inputs and all runs. `dafny verify dfyconfig.toml` checks everything.

- `IndexRetention.dfy` - the expiry test on multi-version index rows and the sweep that uses it. A read at
  a snapshot takes the latest revision not newer than it; a tombstone means nothing. A log is sorted by
  `(index_id, key_prefix, key_sha256, ts)`; the SHA-256 hash is assumed to determine the key, and a
  concrete log shows what happens without that.
- `AsyncLru.dfy`, `AsyncLruProtocol.dfy` - the cache behind its lock, and the protocol of gets, queued
  requests, generating tasks and broadcasts, one step per critical section. The request queue may hand out
  requests in any order, expire any of them and refuse any submission, so the results hold for every
  queue. `leaked` is a ledger of sizes the failing branch forgets; the code has no such field.
- `CoDelQueue.dfy` - the adaptive queue with each clock reading of a call kept separate, and the channel
  with counted senders.
- `ThreadPool.dfy` - dispatcher and workers as a state machine whose steps are the stretches between two
  awaits, over the adaptive queue of the module above.
- `FunctionLog.dfy` - the execution log with its cursors, eviction, waiters and stream calls. Cursors are
  integers; the strict successor stands for the next representable float. At least one execution is kept.
- `IdTracker.dfy`, `DeletedBitset.dfy` - on-disk tables, byte for byte except for the perfect-hash section.
- `ClientPool.dfy`, `S3Upload.dfy`, `LogLines.dfy` - bounded client reuse, multipart uploads, nested log
  lines and their truncation.
- `Common.dfy`, `Traces.dfy` - results, byte order and little-endian integers; last occurrences in a record of events.

Objects that the code updates in place are classes. Each of their methods is tied by its postcondition to a
function on values, and the statements about whole runs are lemmas about those functions.

Findings where code and expectation part:

- `trim_to_size` cannot hit its "no more entries" panic in any run, also after a failure popped a ready value: what
  has leaked stays within the counter, and the counter within the limit. Leaks shrink the cache for good.
- `drop_waiting` can panic: after a prefetch filled the key, or after a waiting entry was evicted and
  requested again. It cannot in single-key runs that evict no waiting entry.
- A generator passed to `get_and_prepopulate` that omits the requested key leaves a waiting entry whose
  channel never broadcasts; the comment above `wait_for_value` expects that not to happen.
- `new_developer_log_line` subtracts below zero, which aborts with the repository's overflow checks, exactly
  when a proper prefix of an over-long message list joins to the limit to the byte.
- The comment on `is_expired` speaks of `(index_id, index_key, ts)` order; for keys longer than the prefix
  the derived order is that of the hash. The proofs use the derived order.
- Part number 10000 is never used, because the counter is advanced before the number is returned.

## Model

| member | source | states |
|---|---|---|
| `IndexRetention.SweepFailsExactlyOnInversion` | appAll/convex-backend/crates/common/src/index.rs:67-73 | no row of a log sorted by primary key draws the out-of-order error, and every adjacent inversion of primary keys does |
| `IndexRetention.RevisionsAreAdjacent` | appAll/convex-backend/crates/common/src/index.rs:45-56 | in a sorted log where the hash determines the key, all revisions of one key are neighbours with increasing timestamps, although the order also compares the prefix and the expiry test does not |
| `IndexRetention.ReadIsLatestLiveRevision` | appAll/convex-backend/crates/common/src/index.rs:58-61 | a read returns a row if and only if it is live, visible and no visible revision of the key is newer |
| `IndexRetention.MarkedIffNotNeeded` | appAll/convex-backend/crates/common/src/index.rs:74-111 | the local test on a row and its successor says expired if and only if the row lies before the window and no read at the start of the window returns it |
| `IndexRetention.DeletionInvisibleIffCovered` | appAll/convex-backend/crates/common/src/index.rs:74-111 | for every set of expired rows: deleting it leaves all reads at all retained snapshots unchanged if and only if every live row left below a deleted deciding tombstone is still covered by a remaining tombstone |
| `IndexRetention.InterruptedSweepIsInvisible` | appAll/convex-backend/crates/common/src/index.rs:59-61 | after any number of deletions in primary-key order all reads at retained snapshots are unchanged |
| `IndexRetention.RetentionIsInvisible` | appAll/convex-backend/crates/common/src/index.rs:62-113 | removing every expired row changes no read of any key at any snapshot not older than the minimum |
| `IndexRetention.CollectKeepsExactlyNeeded` | appAll/convex-backend/crates/common/src/index.rs:62-113 | a sweep keeps, in order, exactly the rows inside the window and the one live row per key visible at its start |
| `IndexRetention.ResumedSweepCompletes` | appAll/convex-backend/crates/common/src/index.rs:59-66 | a sweep stopped anywhere and resumed at the same or a newer snapshot, judging rows against the successors then left, ends where one uninterrupted sweep at the newer snapshot ends |
| `IndexRetention.SweepsCompose` | appAll/convex-backend/crates/common/src/index.rs:62-66 | sweeping at m1 and then at m2 >= m1 equals sweeping once at m2 |
| `IndexRetention.OldRowsAreVisible` | appAll/convex-backend/crates/common/src/index.rs:74-111 | after a sweep a key has at most one row older than the window; it is live and a read at the minimum snapshot returns it |
| `IndexRetention.TombstoneFirstResurrects` | appAll/convex-backend/crates/common/src/index.rs:75-78 | a concrete log where deleting the tombstone before the row it hides brings the row back |
| `IndexRetention.HashCollisionLosesRow` | appAll/convex-backend/crates/common/src/index.rs:86-93 | a concrete log where two keys with one hash make the sweep drop a live row |
| `IndexRetention.SplitEmbedsOrder` | appAll/convex-backend/crates/common/src/index.rs:29-43 | prefix and suffix concatenate to the key, there is a suffix exactly for keys over 2500 bytes and the prefix is then 2500 bytes, and comparing prefix then suffix is the lexicographic order of the keys, both directions |
| `IndexRetention.RowsSortByKey` | appAll/convex-backend/crates/common/src/index.rs:45-56 | rows of different indexes sort by index, rows whose keys differ within the prefix sort as the whole keys, keys with one prefix by hash, and revisions of one key by timestamp |
| `IndexRetention.OrderIsTotal` | appAll/convex-backend/crates/common/src/index.rs:45-56 | of two different rows exactly one comes before the other |
| `IndexRetention.TiesBreakBySuffixThenDeleted` | appAll/convex-backend/crates/common/src/index.rs:45-56 | rows with one primary key: no suffix before any suffix, suffixes as bytes, live before deleted |
| `IndexRetention.RefusedIffNotBefore` | appAll/convex-backend/crates/common/src/index.rs:67-73 | the out-of-order error is raised if and only if the successor is the same row or comes before it |
| `Bytes.LexIsFirstDifference` | appAll/convex-backend/crates/common/src/index.rs:45-56 | the derived order on byte vectors: the first differing byte decides, else the shorter one is smaller |
| `AsyncLru.TrimPanicsIffLeakTooLarge` | appAll/convex-backend/crates/async_lru/src/async_lru.rs:294-320 | trimming runs out of entries if and only if sizes that belong to no entry exceed the limit |
| `AsyncLru.TrimKeepsMostRecent` | appAll/convex-backend/crates/async_lru/src/async_lru.rs:294-320 | trimming leaves a suffix of the cache whose ready sizes fit beside the leaked size |
| `AsyncLru.TrimEvictsNoMore` | appAll/convex-backend/crates/async_lru/src/async_lru.rs:294-320 | no shorter eviction would have fitted |
| `AsyncLru.TouchMovesToBack` | appAll/convex-backend/crates/async_lru/src/async_lru.rs:390-401 | a hit moves its slot behind all others, which keep their order |
| `AsyncLru.PutMovesToBack` | appAll/convex-backend/crates/async_lru/src/async_lru.rs:272-278 | writing a key moves it behind all others, which keep their order |
| `AsyncLru.UpdateStaysBalanced` | appAll/convex-backend/crates/async_lru/src/async_lru.rs:256-287 | from a balanced state no update subtracts below zero or runs out of entries; afterwards the counter is again ready sizes plus ledger and at most the limit |
| `AsyncLru.UpdateOnlyEvictsOthers` | appAll/convex-backend/crates/async_lru/src/async_lru.rs:262-286 | an update writes its own key only; every other slot it leaves was there before |
| `AsyncLru.NewValueStaysIffItFits` | appAll/convex-backend/crates/async_lru/src/async_lru.rs:264-281 | a new value remains cached if and only if its size fits beside what has leaked |
| `AsyncLru.CacheState.TrimToSize` | appAll/convex-backend/crates/async_lru/src/async_lru.rs:294-320 | the loop computes the trimmed cache and size, or reports the panic |
| `AsyncLru.CacheState.UpdateValue` | appAll/convex-backend/crates/async_lru/src/async_lru.rs:256-287 | both branches, with the old entry's size subtracted on success and not on failure |
| `AsyncLru.CacheState.DropIfWaiting` | appAll/convex-backend/crates/async_lru/src/async_lru.rs:247-254 | pops the key and reports the panic when a ready value was popped |
| `AsyncLruProtocol.StepKeepsInv` | appAll/convex-backend/crates/async_lru/src/async_lru.rs:383-477 | in every state satisfying the invariant only dropping an expired request can panic, and every step keeps the invariant |
| `AsyncLruProtocol.SizeLedgerBalances` | appAll/convex-backend/crates/async_lru/src/async_lru.rs:256-320 | over every interleaving the counter equals ready sizes plus ledger, is within the limit, is exact while the ledger is zero, and no later update panics |
| `AsyncLruProtocol.CacheIsByLastUse` | appAll/convex-backend/crates/async_lru/src/async_lru.rs:256-401 | over every run the cache lists its slots in the order in which their keys were last asked for or generated |
| `AsyncLruProtocol.EvictsLeastRecentlyUsed` | appAll/convex-backend/crates/async_lru/src/async_lru.rs:262-320 | over every run, what applying an entry evicts was last used before everything it keeps |
| `AsyncLruProtocol.ReceiversPredateBroadcast` | appAll/convex-backend/crates/async_lru/src/async_lru.rs:383-477 | over every interleaving a receiver handed out belongs to a channel that has not broadcast, no slot holds a channel that has, and no channel broadcasts twice |
| `AsyncLruProtocol.NoStrandedReceivers` | appAll/convex-backend/crates/async_lru/src/async_lru.rs:421-477 | from an empty cache, if generators always return the requested key: every channel ever handed out has broadcast or has a request that will, also when its slot was evicted; every waiting slot has such a request; and when no task can go on every channel has broadcast |
| `AsyncLruProtocol.BroadcastsAreGenerated` | appAll/convex-backend/crates/async_lru/src/async_lru.rs:455-475 | over every run what a channel broadcasts is the outcome its own request's generator returned for the key the channel was made for, or the expiry of that request |
| `AsyncLruProtocol.HitsAreGenerated` | appAll/convex-backend/crates/async_lru/src/async_lru.rs:383-394 | over every run a value that a get finds ready was built by some generator for that very key |
| `AsyncLruProtocol.GeneratorRunsOnce` | appAll/convex-backend/crates/async_lru/src/async_lru.rs:455-466 | over every run the generator of a request runs at most once |
| `AsyncLruProtocol.EveryEntryIsApplied` | appAll/convex-backend/crates/async_lru/src/async_lru.rs:466-475 | over every run the entries a task applied are in order what its generator returned, the rest still pending, also behind the broadcast; a finished task has applied all of them |
| `AsyncLruProtocol.TaskMakesProgress` | appAll/convex-backend/crates/async_lru/src/async_lru.rs:456-475 | every step of a task brings it closer to its end and leaves all other tasks alone |
| `AsyncLruProtocol.GetAnswersForItsKey` | appAll/convex-backend/crates/async_lru/src/async_lru.rs:383-426 | over every run: a hit is a ready value under the key, a receiver belongs to the channel made for that key and held in the cache, a refused miss changes nothing, and only an accepted miss makes a request |
| `AsyncLruProtocol.GenerateStrandsIff` | appAll/convex-backend/crates/async_lru/src/async_lru.rs:466-475 | a generated map leaves receivers without a sender if and only if it omits the requested key while the slot still waits on that request |
| `AsyncLruProtocol.DropPanicsIffReady` | appAll/convex-backend/crates/async_lru/src/async_lru.rs:247-254 | dropping an expired request panics if and only if a ready value sits under its key |
| `AsyncLruProtocol.DropPanicsIffFilledSince` | appAll/convex-backend/crates/async_lru/src/async_lru.rs:247-287 | over every run: dropping an expired request panics if and only if, since the request was made, some applied entry built a value under its key and that value has been in the cache ever since |
| `AsyncLruProtocol.WaitingIffOneOutstanding` | appAll/convex-backend/crates/async_lru/src/async_lru.rs:390-426 | under single flight a key is waiting on a channel if and only if that channel's request is outstanding for it, there is at most one, dropping never panics and the size is exact |
| `AsyncLruProtocol.DisciplinedRunsAreSingleFlight` | appAll/convex-backend/crates/async_lru/src/async_lru.rs:383-477 | runs whose generators produce only the requested key and which evict no waiting slot keep single flight and a zero ledger |
| `AsyncLruProtocol.DisciplinedRunsNeverPanic` | appAll/convex-backend/crates/async_lru/src/async_lru.rs:247-477 | from an empty cache, in such runs: no step panics, in particular no drop, a key is waiting exactly for its one outstanding request and the size is exact |
| `AsyncLruProtocol.PrefetchThenExpiryPanics` | appAll/convex-backend/crates/async_lru/src/async_lru.rs:460-463 | a run where a prefetch fills a queued key and the expiry of its request panics |
| `AsyncLruProtocol.EvictedWaiterThenExpiryPanics` | appAll/convex-backend/crates/async_lru/src/async_lru.rs:289-293 | a run without prefetch where evicting a waiting slot leads to a second request whose expiry panics |
| `AsyncLruProtocol.FailureAfterPrefetchLeaks` | appAll/convex-backend/crates/async_lru/src/async_lru.rs:282-285 | a run where a key is prefetched and its own request then fails: the counter stays at 3 with nothing ready |
| `AsyncLruProtocol.OmittedKeyStrandsReceivers` | appAll/convex-backend/crates/async_lru/src/async_lru.rs:468-475 | a run where a later get receives a channel that has no sender and never broadcast |
| `CoDel.CoDelQueue.UpdateLastTimeEmpty` | appAll/convex-backend/crates/common/src/codel_queue.rs:107-112 | the time is touched exactly when the queue is empty |
| `CoDel.CoDelQueue.IsIdle` | appAll/convex-backend/crates/common/src/codel_queue.rs:96-105 | touches an empty queue, then compares with the later clock reading |
| `CoDel.CoDelQueue.Push` | appAll/convex-backend/crates/common/src/codel_queue.rs:120-133 | full queues are refused unchanged; otherwise the item is appended with the deadline of the current mode, for separate clock readings of each step |
| `CoDel.CoDelQueue.Pop` | appAll/convex-backend/crates/common/src/codel_queue.rs:135-170 | expired head first, then front or back by mode, with the flag computed from the first clock reading |
| `CoDel.PopServes` | appAll/convex-backend/crates/common/src/codel_queue.rs:151-170 | on the fields: an expired head is drained and flagged, else the front is served while the queue was empty recently enough and the back when not; what is left and the time of emptiness |
| `CoDel.PushStores` | appAll/convex-backend/crates/common/src/codel_queue.rs:120-133 | on the fields: refused exactly when full; the deadline is the last clock reading plus the expiration of the mode at the test |
| `CoDel.PopTakesOldestOrNewest` | appAll/convex-backend/crates/common/src/codel_queue.rs:151-170 | over every run a pop returns the oldest accepted item still buffered if it is past its deadline or the queue is idle, and the newest otherwise, flagged exactly when late |
| `CoDel.RunsKeepInv` | appAll/convex-backend/crates/common/src/codel_queue.rs:120-170 | every event over a non-decreasing clock keeps capacity, ticket conservation, the two-run shape and the deadline bounds |
| `CoDel.BufferIsTwoRuns` | appAll/convex-backend/crates/common/src/codel_queue.rs:120-133 | every reachable buffer is within capacity and splits into idle-deadline items followed by congested-deadline items, with ordered deadlines in each part |
| `CoDel.RunDelivers` | appAll/convex-backend/crates/common/src/codel_queue.rs:135-170 | the recorded ticket numbers stand for the items the pops returned, in order |
| `CoDel.EveryItemOnce` | appAll/convex-backend/crates/common/src/codel_queue.rs:120-170 | from an empty queue, over every run: what the pops returned and what is still buffered are the items of the accepted pushes, each exactly once |
| `CoDel.ItemsConserved` | appAll/convex-backend/crates/common/src/codel_queue.rs:120-170 | as multisets, buffered before plus accepted equals returned plus buffered after, for every run from any queue |
| `CoDel.IdleMeansNothingExpired` | appAll/convex-backend/crates/common/src/codel_queue.rs:96-112 | whenever a reachable queue tests idle every buffered deadline is still ahead |
| `CoDel.CongestionPersists` | appAll/convex-backend/crates/common/src/codel_queue.rs:103-112 | a reachable non-idle queue stays non-idle at every later time until it has been emptied |
| `CoDel.EmptyingRestoresIdle` | appAll/convex-backend/crates/common/src/codel_queue.rs:135-149 | popping the last item makes the queue idle for the idle expiration |
| `CoDel.IdleRunsAreFifo` | appAll/convex-backend/crates/common/src/codel_queue.rs:151-170 | from an empty queue, a run whose pops all find it idle returns what a plain bounded FIFO queue returns, nothing expired |
| `CoDel.CongestedPopCanExpire` | appAll/convex-backend/crates/common/src/codel_queue.rs:161-168 | a reachable queue whose congested pop serves an expired item from the back while the head is live |
| `CoDel.CoDelChannel.PollNext` | appAll/convex-backend/crates/common/src/codel_queue.rs:250-260 | an item, closed, or pending: closed exactly when the queue is empty and no sender is left |
| `CoDel.PollAnswers` | appAll/convex-backend/crates/common/src/codel_queue.rs:250-260 | closed if and only if the queue is empty and no sender is left, pending if and only if it is empty and one is left |
| `CoDel.SendersAreCounted` | appAll/convex-backend/crates/common/src/codel_queue.rs:209-234 | the senders left are those at the start plus clones less drops |
| `CoDel.ClosedAfterDeliveringAll` | appAll/convex-backend/crates/common/src/codel_queue.rs:227-260 | over every channel run with counted senders: a receiver told closed has been handed the items of all accepted sends, each exactly once, and the channel stays closed |
| `ThreadPool.DoneHasRoom` | appAll/convex-backend/crates/common/src/bounded_thread_pool.rs:154-161 | the completion channel has room whenever a worker reports |
| `ThreadPool.InboxHasRoom` | appAll/convex-backend/crates/common/src/bounded_thread_pool.rs:199-210 | the chosen worker's channel is empty and the worker waiting whenever the dispatcher sends |
| `ThreadPool.BlockedOnlyWhileWorkersRun` | appAll/convex-backend/crates/common/src/bounded_thread_pool.rs:178-188 | the dispatcher blocks on completions only while a worker is busy or has reported |
| `ThreadPool.ReusesMostRecentWorker` | appAll/convex-backend/crates/common/src/bounded_thread_pool.rs:163-174 | over every run the dispatcher reserves, of the idle workers on its stack, the one that reported its completion last |
| `ThreadPool.WaitsForFirstReport` | appAll/convex-backend/crates/common/src/bounded_thread_pool.rs:179-188 | when it had to wait it gets the worker that reported first among those in the channel |
| `ThreadPool.CreatesWorkerIffNoneIdle` | appAll/convex-backend/crates/common/src/bounded_thread_pool.rs:172-189 | over every run a worker is created if and only if there are fewer than allowed and every existing one is busy or has just reported; at the limit the dispatcher waits |
| `ThreadPool.StepMovesRequest` | appAll/convex-backend/crates/common/src/bounded_thread_pool.rs:89-116 | one step moves a request between places or accepts a new one, and starts are exactly running plus completed |
| `ThreadPool.RunsKeepInv` | appAll/convex-backend/crates/common/src/bounded_thread_pool.rs:136-212 | every interleaving of submissions, dispatcher and worker steps keeps both accounts |
| `ThreadPool.ChannelsNeverOverflow` | appAll/convex-backend/crates/common/src/bounded_thread_pool.rs:136-213 | in every reachable state each worker is in exactly one place, there are at most the allowed number, no channel is full at a send and the dispatcher has not shut down |
| `ThreadPool.OneAnswerEach` | appAll/convex-backend/crates/common/src/bounded_thread_pool.rs:89-116 | every accepted request is in exactly one of queued, held, boxed, running, completed, expired; at most one answer; completed means started once, expired means never started |
| `ThreadPool.ExpiredIffTakenLate` | appAll/convex-backend/crates/common/src/bounded_thread_pool.rs:191-198 | over every run of a fresh pool: a request has the error answer if and only if the dispatcher took it off the queue after the deadline given at its submission, and is still queued if and only if it was not taken |
| `ThreadPool.StepMakesProgress` | appAll/convex-backend/crates/common/src/bounded_thread_pool.rs:160-212 | every step other than a submission lowers the count of remaining steps |
| `ThreadPool.EveryRequestIsAnswered` | appAll/convex-backend/crates/common/src/bounded_thread_pool.rs:148-227 | after any run of a fresh pool, once submissions stop every continuation is finite and one that cannot go on has answered every accepted request exactly once |
| `ThreadPool.DrainIsARun` | appAll/convex-backend/crates/common/src/bounded_thread_pool.rs:163-168 | the drain loop is a run of single receives |
| `ThreadPool.Scheduler.DrainCompleted` | appAll/convex-backend/crates/common/src/bounded_thread_pool.rs:163-168 | moves the whole completion channel onto the stack in order |
| `ThreadPool.Scheduler.ReserveWorker` | appAll/convex-backend/crates/common/src/bounded_thread_pool.rs:172-189 | pops the stack, creates a worker under the limit, or waits |
| `ThreadPool.Scheduler.ReceiveRequest` | appAll/convex-backend/crates/common/src/bounded_thread_pool.rs:191-198 | answers expired requests and holds the first live one |
| `ThreadPool.Scheduler.SendToWorker` | appAll/convex-backend/crates/common/src/bounded_thread_pool.rs:199-210 | fills the worker's channel, or shuts down if it is full |
| `ThreadPool.Scheduler.RunJob` | appAll/convex-backend/crates/common/src/bounded_thread_pool.rs:148-154 | takes the request and starts its job |
| `ThreadPool.Scheduler.CompleteJob` | appAll/convex-backend/crates/common/src/bounded_thread_pool.rs:100-104 | sends the one-shot answer |
| `ThreadPool.Scheduler.ReportCompletion` | appAll/convex-backend/crates/common/src/bounded_thread_pool.rs:155-157 | reports to the completion channel, dropping the report if it is full |
| `ThreadPool.Scheduler.SubmitRequest` | appAll/convex-backend/crates/common/src/bounded_thread_pool.rs:108-112 | queues the request or returns the full-queue error |
| `FunctionLog.EvictDropsPrefix` | appAll/convex-backend/crates/application/src/function_log.rs:1505-1510 | eviction drops the shortest prefix that brings the completions within the bound |
| `FunctionLog.NewestSurvivesIffBoundPositive` | appAll/convex-backend/crates/application/src/function_log.rs:1502-1510 | the completion just logged survives eviction if and only if the bound is at least one |
| `FunctionLog.LoggingKeepsInv` | appAll/convex-backend/crates/application/src/function_log.rs:1502-1514 | logging keeps times increasing, the counter exact and bounded, the newest entry present and no waiter registered, whatever the clock reads |
| `FunctionLog.FunctionExecutionLog.NextEntryTime` | appAll/convex-backend/crates/application/src/function_log.rs:1626-1640 | the clock or the successor of the newest entry, an error before the epoch |
| `FunctionLog.NextTimeIsLeast` | appAll/convex-backend/crates/application/src/function_log.rs:1626-1640 | an entry gets the least time that is not before the clock and later than every entry |
| `FunctionLog.TimesFollowTheClock` | appAll/convex-backend/crates/application/src/function_log.rs:1626-1640 | from an empty log, over every run, each entry is the part logged and carries its clock reading if that is past its predecessor, else the next time after it |
| `FunctionLog.WaitersAreTheBlocked` | appAll/convex-backend/crates/application/src/function_log.rs:1307-1325 | over every run the registered waiters are exactly the calls that found nothing newer since a part was last logged, in order |
| `FunctionLog.FunctionExecutionLog.LogExecution` | appAll/convex-backend/crates/application/src/function_log.rs:1473-1515 | push, evict in a terminating loop, wake everybody; unchanged on a clock error |
| `FunctionLog.FunctionExecutionLog.LogProgress` | appAll/convex-backend/crates/application/src/function_log.rs:1581-1602 | push without eviction, wake everybody |
| `FunctionLog.FunctionExecutionLog.PartitionPoint` | appAll/convex-backend/crates/application/src/function_log.rs:1307-1307 | binary search finds the first entry newer than the cursor |
| `FunctionLog.FunctionExecutionLog.Stream` | appAll/convex-backend/crates/application/src/function_log.rs:1303-1327 | one pass returns the completions a linear scan finds newer and the newest time, or registers a waiter |
| `FunctionLog.RunsKeepInv` | appAll/convex-backend/crates/application/src/function_log.rs:1502-1514 | every run of logging and streaming keeps the log a suffix of everything logged, with the counter, bound, order and waiters sound |
| `FunctionLog.ReachableLogIsSound` | appAll/convex-backend/crates/application/src/function_log.rs:1502-1514 | from an empty log, over every run: the counter equals the completions kept and is bounded, times increase, the newest entry is kept and nothing in the log is newer than a registered waiter's cursor |
| `FunctionLog.OneCallDelivers` | appAll/convex-backend/crates/application/src/function_log.rs:1307-1319 | one call returns the completions between the cursor's position or the eviction point, whichever is later, and the end |
| `FunctionLog.ExpectedIsExact` | appAll/convex-backend/crates/application/src/function_log.rs:1303-1327 | the reference list is ordered, without duplicates, and holds a position if and only if its completion was logged after the start and not evicted before the next call |
| `FunctionLog.FollowingCursorsIsExact` | appAll/convex-backend/crates/application/src/function_log.rs:1303-1327 | repeated calls with returned cursors deliver the executions at the reference positions |
| `FunctionLog.FollowerSeesAllButTheEvicted` | appAll/convex-backend/crates/application/src/function_log.rs:1303-1327 | whatever a fresh log went through before, a follower from any cursor receives, in order and once each, exactly the completions newer than it and not evicted before its first call after they were logged |
| `IdTracker.InsertInverseIff` | appAll/convex-backend/crates/common/src/id_tracker.rs:131-134 | inserting keeps the two maps inverse if and only if neither id is already paired with another |
| `IdTracker.LastCheckMeansContiguous` | appAll/convex-backend/crates/common/src/id_tracker.rs:144-152 | the last index id is the count less one if and only if the index ids are exactly 0 up to the count |
| `IdTracker.BitsHoldEveryIndex` | appAll/convex-backend/crates/common/src/id_tracker.rs:161-162 | the computed bits hold every index id and one bit fewer would not |
| `IdTracker.WrittenTableLoads` | appAll/convex-backend/crates/common/src/id_tracker.rs:68-92 | a written table passes every check of load and gives back count, ids and index |
| `IdTracker.LoadAcceptsExactly` | appAll/convex-backend/crates/common/src/id_tracker.rs:68-92 | a file loads as a tracker if and only if it is the header and ids of that tracker with the announced total length |
| `IdTracker.TableLayout` | appAll/convex-backend/crates/common/src/id_tracker.rs:165-180 | a written table is the version byte 1, the count and the index length little-endian, and the ids in index order at multiples of 16 |
| `IdTracker.LookupIsExact` | appAll/convex-backend/crates/common/src/id_tracker.rs:114-121 | lookup returns the position of present ids and nothing for absent ones, whatever the hash answers for those |
| `IdTracker.TrackerRoundTrip` | appAll/convex-backend/crates/common/src/id_tracker.rs:59-122 | writing and loading gives a tracker that agrees with the in-memory maps on every Convex id and every index id, present or absent |
| `IdTracker.BuiltTrackerRoundTrip` | appAll/convex-backend/crates/common/src/id_tracker.rs:59-134 | a tracker built by inserting pairs with distinct ids, written and loaded, finds exactly those pairs in both directions |
| `IdTracker.WriteSucceedsIff` | appAll/convex-backend/crates/common/src/id_tracker.rs:144-180 | for any tracker: written if and only if the index ids have no gap, no two share a Convex id and the lengths fit 32 bits |
| `IdTracker.WriteFailsOnlyForGapsOrSize` | appAll/convex-backend/crates/common/src/id_tracker.rs:155-180 | a tracker with inverse maps is written if and only if its index ids have no gap and the lengths fit 32 bits |
| `IdTracker.MemoryIdTracker.InsertPair` | appAll/convex-backend/crates/common/src/id_tracker.rs:131-134 | updates both maps |
| `IdTracker.MemoryIdTracker.WriteIdTracker` | appAll/convex-backend/crates/common/src/id_tracker.rs:155-180 | all checks, the header and the ids in index order |
| `DeletedBitset.DeleteStaysConsistent` | appAll/convex-backend/crates/common/src/deleted_bitset.rs:86-94 | deleting fails exactly on deleted or out-of-range ids, otherwise sets exactly that id and keeps the count equal to the set bits |
| `DeletedBitset.DeletedIffPastEndOrDeleted` | appAll/convex-backend/crates/common/src/deleted_bitset.rs:68-94 | over every edit sequence from a new bitset: an id reads as deleted, and deleting it fails, if and only if it lies past the final size or was deleted when below the size then reached |
| `DeletedBitset.ResizeConsistentIff` | appAll/convex-backend/crates/common/src/deleted_bitset.rs:52-54 | resizing keeps the count right if and only if no set bit is cut off |
| `DeletedBitset.FileRoundTrip` | appAll/convex-backend/crates/common/src/deleted_bitset.rs:104-178 | every consistent bitset below 2^32 bits is written as 9 + 8*ceil(n/64) bytes and loads back to the same bits and count |
| `DeletedBitset.ReachableFileRoundTrip` | appAll/convex-backend/crates/common/src/deleted_bitset.rs:43-178 | every bitset reached from a new one by growing and deleting counts its set bits and survives its file |
| `DeletedBitset.LoadRefusals` | appAll/convex-backend/crates/common/src/deleted_bitset.rs:138-178 | which of the checks of load refuses a file, in their order; a loaded bitset has the announced bits and count |
| `DeletedBitset.FileLayout` | appAll/convex-backend/crates/common/src/deleted_bitset.rs:104-125 | a written file is the version byte 1, the bit count, the deleted count and the blocks, little-endian |
| `DeletedBitset.WrittenIffLoadable` | appAll/convex-backend/crates/common/src/deleted_bitset.rs:77-178 | exactly the consistent bitsets below 2^32 bits are written, and what is written loads back unchanged |
| `DeletedBitset.RewriteIffPaddingClear` | appAll/convex-backend/crates/common/src/deleted_bitset.rs:138-178 | a file that loads is rewritten unchanged if and only if the unused bits of its last block are clear |
| `DeletedBitset.DeletedIds.DeleteId` | appAll/convex-backend/crates/common/src/deleted_bitset.rs:86-94 | succeeds exactly on a clear bit below the size, sets that bit and counts it, or fails unchanged |
| `DeletedBitset.DeletedIds.WriteTo` | appAll/convex-backend/crates/common/src/deleted_bitset.rs:104-125 | checks, header, then the blocks in a loop |
| `DeletedBitset.DeletedIds.ReadWordsInto` | appAll/convex-backend/crates/common/src/deleted_bitset.rs:159-160 | fills the block buffer from little-endian bytes |
| `DeletedBitset.DeletedIds.LoadFrom` | appAll/convex-backend/crates/common/src/deleted_bitset.rs:138-178 | every check of load in order, with its error |
| `ClientPool.FirstFree` | appAll/convex-backend/crates/common/src/client_pool.rs:40-49 | the first client below the limit, with every earlier one full |
| `ClientPool.Pool.Create` | appAll/convex-backend/crates/common/src/client_pool.rs:23-36 | refused exactly for a zero limit |
| `ClientPool.Pool.Get` | appAll/convex-backend/crates/common/src/client_pool.rs:38-55 | the scan borrows the first client with room and creates one only if there is none |
| `ClientPool.CreatesOnlyWhatThePeakNeeds` | appAll/convex-backend/crates/common/src/client_pool.rs:38-55 | over every sequence of borrows and drops no client exceeds the limit and the clients are the fewest that can carry the peak |
| `ClientPool.ClientsCreatedIsCeilingOfPeak` | appAll/convex-backend/crates/common/src/client_pool.rs:38-55 | the clients created are the peak of simultaneous borrows divided by the limit, rounded up |
| `S3Upload.MultipartUpload.NextPartNumber` | appAll/convex-backend/crates/aws_s3/src/storage.rs:550-554 | hands out the current number unless moving past it leaves the valid range, and then changes nothing |
| `S3Upload.MultipartUpload.Write` | appAll/convex-backend/crates/aws_s3/src/storage.rs:614-620 | numbers the chunk, uploads it and records it, with both failures |
| `S3Upload.MultipartUpload.TryWriteParallel` | appAll/convex-backend/crates/aws_s3/src/storage.rs:591-612 | chunks are numbered in stream order and recorded in completion order; on failure the numbers are spent and nothing is recorded |
| `S3Upload.MultipartUpload.Complete` | appAll/convex-backend/crates/aws_s3/src/storage.rs:629-643 | the recorded parts sorted by number |
| `S3Upload.EventKeepsInv` | appAll/convex-backend/crates/aws_s3/src/storage.rs:550-620 | one call, also a failed one, keeps numbers distinct and matched to their chunks; it records as many parts as it numbers if and only if it succeeds or numbers none |
| `S3Upload.FailedCallSpendsNumbers` | appAll/convex-backend/crates/aws_s3/src/storage.rs:550-620 | a failed call has spent the numbers of the chunks it reached, up to the limit, and recorded none of them |
| `S3Upload.NumbersStayDistinct` | appAll/convex-backend/crates/aws_s3/src/storage.rs:550-620 | over any mix of sequential and parallel writes, failed ones included: recorded numbers are distinct and carry the chunks they were given to, at most 9999 parts are started and the next start fails exactly then |
| `S3Upload.CompletedListIsStreamOrder` | appAll/convex-backend/crates/aws_s3/src/storage.rs:629-643 | the sorted list is the started chunks in stream order numbered from one if and only if as many parts were recorded as started |
| `S3Upload.CompletedListIffNothingLost` | appAll/convex-backend/crates/aws_s3/src/storage.rs:591-643 | over any such mix the completed list is every started chunk in stream order if and only if no call failed after giving out a number |
| `S3Upload.UploadedObjectIsTheInput` | appAll/convex-backend/crates/aws_s3/src/storage.rs:591-654 | for any successful mix of calls and any completion order the parts are the input chunks numbered from one and their concatenation is the input |
| `LogLines.LenCountsLines` | appAll/convex-backend/crates/common/src/log_lines.rs:281-289 | the length of a log tree is the number of its flattened lines |
| `LogLines.PrettyPrintsFlattened` | appAll/convex-backend/crates/common/src/log_lines.rs:396-404 | pretty-printing prints the flattened lines one by one, as many as the length |
| `LogLines.PrettyStringSays` | appAll/convex-backend/crates/common/src/log_lines.rs:142-155 | a pretty line is the bracketed level, a space, the joined messages and the note on truncation |
| `LogLines.Truncate` | appAll/convex-backend/crates/common/src/log_lines.rs:295-320 | at most n lines are kept, so the running subtraction never underflows |
| `LogLines.Truncated` | appAll/convex-backend/crates/common/src/log_lines.rs:295-320 | the nested loop computes the recursive truncation |
| `LogLines.TruncateTakesFirstLines` | appAll/convex-backend/crates/common/src/log_lines.rs:295-320 | flattening truncated(n) gives the first n flattened lines and its length is the smaller of n and the length, at any nesting |
| `LogLines.TruncateKeepsPlaces` | appAll/convex-backend/crates/common/src/log_lines.rs:295-320 | the kept lines stand under the same list of enclosing function paths as before |
| `LogLines.TruncateEntrywise` | appAll/convex-backend/crates/common/src/log_lines.rs:295-320 | an entry is kept if and only if fewer than n lines stand before it: plain lines as they are, sub-functions under their path with their lines truncated to what is left |
| `LogLines.TruncateBeyondIsIdentity` | appAll/convex-backend/crates/common/src/log_lines.rs:295-320 | truncating to more lines than there are changes nothing |
| `LogLines.TotalLength` | appAll/convex-backend/crates/common/src/log_lines.rs:196-201 | the summed lengths with saturation are the byte length of the join |
| `LogLines.CutMessages` | appAll/convex-backend/crates/common/src/log_lines.rs:211-224 | the truncation loop, with its panic |
| `LogLines.CutIsLongestPrefix` | appAll/convex-backend/crates/common/src/log_lines.rs:211-224 | on over-long input the loop panics if and only if a proper prefix of the messages joins to exactly the limit; otherwise the join of the result is the longest fitting prefix of the full join |
| `LogLines.CutKeepsMessages` | appAll/convex-backend/crates/common/src/log_lines.rs:211-224 | the loop returns whole messages and then the start of one more |
| `LogLines.CutInBytes` | appAll/convex-backend/crates/common/src/log_lines.rs:219-220 | in UTF-8 bytes: the cut is a prefix of the encoded text within the limit and one more character would exceed it |
| `LogLines.FloorPrefixIsLongest` | appAll/convex-backend/crates/common/src/log_lines.rs:219-220 | the cut is a prefix at a character boundary, and a prefix fits in the limit if and only if it is no longer than the cut |
| `LogLines.NewDeveloperLogLine` | appAll/convex-backend/crates/common/src/log_lines.rs:191-232 | short lines unchanged, the exact panic condition, and for the rest the truncated flag and the longest fitting prefix: at most 32768 bytes, a prefix of the bytes of the full line, messages kept apart |
| `LogLines.FullFirstMessagePanics` | appAll/convex-backend/crates/common/src/log_lines.rs:214-214 | a first message of exactly the limit followed by any other panics |

## Left out

- Metrics, tracing, timers, Sentry reporting and log-event sending: no effect on the modelled state.
- The internals of `event_listener`, tokio channels and `async_broadcast`: channels are sequences, wakeups are steps.
- The perfect-hash construction of the ID table and its encoding: only that built keys get their value cut to the stored bits, and that the section reads back as written; construction is taken to fail on duplicate keys.
- SHA-256: taken to determine the key.
- Concurrency limit of the cache's worker (`for_each_concurrent`): any number of tasks may run, which includes every limit.
- 64-bit overflow of the cache's size counter: sizes are unbounded naturals; between updates the counter is at most the limit, and within one at most the limit plus the new size.
- Cancellation of callers, panicking or non-terminating jobs, and shutdown of the thread pool.
- Floating-point time in the execution log: integers with a strict successor replace it.
- `stream_parts` and `udf_summary` of the execution log, and all metrics queries: the same scan with other projections.
- Reading files: a reader is the sequence of its bytes; flushing and paths are not modelled.
- Dropping a borrowed client concurrently with a scan of the pool: a scan is one step.
- Client-driven uploads, aborting on drop and the S3 requests themselves: a failed upload is a flag of the call.
- JSON forms, heap sizes and system metadata of log lines.
- `bounds.rs`, authentication, the application layer, the web shop and the scrapers: small case splits, foreign libraries or user interface.
