# Resources ingester: a verified model

The resources ingester watches Kubernetes objects and writes them to PostgreSQL. This project
models the parts of it whose correctness is not visible from one function body, and proves what
they guarantee over whole runs:

- **The two job queues** (`QueuerSpec`, `Crew`, `QueueView`, `ChanQueue`, `ListQueue`). Pushers, the
  dispatcher, the N workers, Run and Terminate are one labelled transition system per queue; a
  label is one channel, lock or WaitGroup operation, a blocked goroutine is a label that is not
  enabled, and a Go panic is a state in which nothing is enabled. Both queues share the workers,
  the pool of worker tokens and the WaitGroup (`Crew`), and both are proved to refine one abstract
  queuer (`QueueView` holds what the two proofs have in common). A run is called clean if no Push
  stands between its running check and its wg.Add when Wait returns; every run is clean until
  then. What is said about states after Wait is about clean runs, because of the first point in
  the next section.
- **The batch writer** (`Records`, `UpsertTable`, `ColumnList`, `InsertSyntax`, `StatementText`,
  `Statement`, `BatchWorker`). The receive/tick/stop loop is a class proved against a step function; the
  statement text is written by loops and read back by an independent reader that plays the
  database: it reads the table, the column names and the conflict clause from the text, skipping
  white space and comments, binds the parameters to the columns named, and changes a stored row as
  the clause says; the table is a map from global_uid to row.
- **The informer manager** (`CrdExtract`, `Manager`, `ManagerRace`), once with handlers run one at
  a time and once with the unlocked lookup of `stopInformer` as a step of its own.
- **Routing** (`Strings`, `RouterKeys`, `WorkerPool`, `Retry`, `Storage`, `CrdPipeline`): keys,
  informer lookup, the bounded retry, the delete flag from the informer callback to the table row,
  and CRDs from the callback to the routers that the manager starts and stops.
- **Shared objects** (`SharedObjects`, `SharedFlow`, `SharedRecords`, `SharedCrds`): the same pipeline over
  references. The informer's cache, the queue items and the events hold pointers to one object, and
  the storage handler changes its deletion timestamp in place; the handler is three steps (change,
  encode, read deleted_at), so handlers can overlap.

Run `dafny verify dfyconfig.toml` with Dafny 4.11 to check everything.

## What is false of the code

Some properties one would expect do not hold. The model keeps the code's behaviour; for each there
is a run that shows the failure and an exact condition.

- Terminate of the channel queue can panic: a Push that has read `running` but not yet called
  `wg.Add` when Wait returns can send on the closed job channel (`ChanQueue.PanicReachable`). No
  continuation panics exactly when no Push is in that window (`ChanQueue.ShutdownSafeExactly`); at
  the moment Terminate is called, a panic is possible exactly when a Push is in the window then
  and the count can still reach zero (`ChanQueue.TerminatePanicsExactly`).
- Terminate of the list queue can panic too: a Push in that window puts its job into the list after
  Wait, the dispatcher takes it with a token, and sends it on the closed job channel of a worker
  that has gone (`ListQueue.PanicReachable`). This is possible exactly when, as Wait returns, a
  Push is in the window, the dispatcher is still there and there is a worker
  (`ListQueue.PanicsExactly`); seen from the call of Terminate, exactly when a Push is in the
  window then and there is a worker (`ListQueue.TerminatePanicsExactly`).
- Terminate of the list queue can wait for ever: the dispatcher leaves as soon as `running` is
  cleared and the list is empty, even if a Push past its check has not reached the list
  (`ListQueue.HangReachable`). It can hang exactly when some Push is under way at that moment
  (`ListQueue.LeavingHangsExactly`); seen from the call of Terminate, exactly when some Push is
  under way then, or a job waits and there is no worker (`ListQueue.TerminateHangsExactly`).
- A queue with no workers never drains (`ChanQueue.DrainsExactlyWithWorkers`).
- The list queue's maxLen is not the maximum length: k pushers at once can reach maxLen + k, and
  never more (`ListQueue.BoundIsReached`).
- Batching does not always equal upserting record by record: for a new row, the columns that a
  conflict does not update come from the last record of the first batch, not from the first record
  (`UpsertTable.BatchingShows` has two records that show it; the exact conditions are in
  `UpsertTable.BatchAgreesWithSequential` for one batch and `UpsertTable.CutsDoNotMatter` for many).
- Deleting a CRD does not by itself stop its router, although the documentation says so: the
  update that sets the deletion timestamp and the delete both go to storage
  (`CrdPipeline.DeletionMissed`, and `CrdPipeline.DeletionLeavesRouters` for all such callbacks). A
  router is cancelled exactly when, while it is live, the manager handles the event of an add or a
  plain update of the CRD and the object of that event has a deletion timestamp by then: the API
  server delivered it with one (`CrdPipeline.DeletionSeen` is such a run), or a storage handler of a
  delete set one on the shared object (`SharedCrds.StoppedByStorage`). The equivalence over all runs
  is `SharedCrds.CancelledExactly`.
- deleted_at is not always the object's own deletion timestamp, even if handlers do not overlap: a
  queued item can find the deleting object in the cache and its handler clears the timestamp, so
  that the handler of the deletion sets its clock (`SharedRecords.TimestampLost`). What it is
  instead, for all such runs, is in `SharedRecords.FlagRightApart`.
- If handlers overlap, the record of a deletion can have no deleted_at (`SharedRecords.FlagLost`),
  and raw and deleted_at can disagree (`SharedRecords.RecordMixed`). The flag is wrong exactly when
  the last in-place change of the object before it is read was made by another handler for the
  opposite operation (`SharedRecords.FlagRightExactly`).
- The callback of a deletion can miss it: the timestamp may have been cleared on the cached object
  before the callback runs (`SharedRecords.CallbackMisses`), exactly when the last change of the
  object was made for an update (`SharedRecords.CallbackMissesExactly`).
- Overlapping stops in the manager can leave a live router that no map entry can cancel
  (`ManagerRace.LeakReachable`), exactly when a looked-up cancel function is stale
  (`ManagerRace.LeaksExactlyWhenStale`).
- Keys do not round-trip when a part contains a separator (`RouterKeys.SeparatorLosesParts`,
  `RouterKeys.RoundTripsExactly`).

Where the code and its comments or documentation differ, the model follows the code: an update of
an object with a deletion timestamp is stored as a deletion, although the storage handler's comment
says the timestamp is removed until the resource is deleted and `queue_item.go` says the object is
present only for deletes.

## Model

| member | source | states |
|---|---|---|
| `QueuerSpec.TerminatedMeansAllRan` | internal/queue/queue.go:9-13 | Over every run of the abstract queuer: at most `width` jobs run at once, no job enters twice, and once terminated every accepted job was entered, started and finished exactly once, in line order |
| `QueuerSpec.NothingAfterTermination` | internal/queue/queue.go:9-13 | After termination the abstract queuer takes no further step |
| `Crew.WorkingKept` | internal/queue/worker.go:26-44 | Until Wait returns, no step of a worker, of Run or of Terminate breaks token conservation, job conservation or WaitGroup accounting, and none panics |
| `Crew.TokenInOnePlace` | internal/queue/worker.go:26-37 | Each started worker's token is in exactly one of: the pool, the dispatcher's hand, the worker itself |
| `Crew.BoundedConcurrency` | internal/queue/chan_queue.go:9-17 | Jobs started and not done are those with workers, at most one per worker |
| `Crew.TokenPlaces` | internal/queue/worker.go:34-37 | A worker that still owns its token has neither put it in the pool nor given it to the dispatcher, and the pool has room for it, so returning it never blocks |
| `Crew.HandOffKeeps` | internal/queue/chan_queue.go:47-48 | Handing a job to the worker whose token the dispatcher holds keeps all conservation laws and does not panic |
| `Crew.TakeTokenKeeps` | internal/queue/chan_queue.go:47 | Taking a token from the pool keeps all conservation laws |
| `Crew.WaitReturnsClean` | internal/queue/worker.go:36-37 | When the count is zero and nothing waits in front, every worker's token is in the pool; this needs the token to be sent before Done |
| `Crew.ShuttingDownKept` | internal/queue/worker.go:38-41 | After a clean Wait every remaining step keeps the shutdown invariant and none panics |
| `Crew.DrainNeverBlocks` | internal/queue/worker.go:38-39 | A quitting worker's last receive from the pool finds a token |
| `Crew.RankDrops` | internal/queue/worker.go:31-44 | Every step of the workers, Run and Terminate lowers the crew's measure |
| `ChanQueue.StepKeeps` | internal/queue/chan_queue.go:31-76 | Every step of every goroutine keeps the queue's invariant |
| `ChanQueue.EveryRunIsSafe` | internal/queue/chan_queue.go:45-76 | In every reachable state, after Wait in clean runs: no panic; entry history = handed off + in hand + waiting; WaitGroup = accepted minus done; at most maxThread jobs with workers; tokens in exactly one place until Wait returns |
| `ChanQueue.ShutdownSafeExactly` | internal/queue/chan_queue.go:53-76 | After Wait returns no continuation panics if and only if no Push stands between its running check and its wg.Add |
| `ChanQueue.PanicReachable` | internal/queue/chan_queue.go:59-75 | A run of a queue with one worker, of any capacity, that ends in a send on the closed job channel |
| `ChanQueue.TerminatePanicsExactly` | internal/queue/chan_queue.go:53-76 | When Terminate is called, some continuation panics if and only if a Push is between its running check and its wg.Add then, and there is a worker or no accepted job is left |
| `ChanQueue.TerminateHangsExactly` | internal/queue/chan_queue.go:53-76 | When Terminate is called, it may wait for ever if and only if there is no worker and a job is accepted or a Push may still bring one |
| `ChanQueue.ShutdownCompletes` | internal/queue/chan_queue.go:61-66 | After a clean Wait, in every continuation no worker blocks on its last pool receive and all goroutines can still end |
| `ChanQueue.EveryStepLowersRank` | internal/queue/chan_queue.go:45-76 | Every step except the arrival of a Push call lowers the ranking measure |
| `ChanQueue.EveryRunIsFinite` | internal/queue/chan_queue.go:45-76 | A clean run has at most 9 steps per Push call plus 5 per worker plus 8 |
| `ChanQueue.Progress` | internal/queue/chan_queue.go:45-50 | No deadlock: while anything is under way after Run was called, with at least one worker, some internal step is enabled |
| `ChanQueue.Drain` | internal/queue/chan_queue.go:45-66 | From every reachable state the queue settles by its own steps, within the measure; after Terminate was called all goroutines end |
| `ChanQueue.DrainsExactlyWithWorkers` | internal/queue/chan_queue.go:9-17 | In every clean run of a started queue, a state with no internal step left has a zero WaitGroup, if and only if maxThread >= 1 |
| `ChanQueue.StepSimulates` | internal/queue/chan_queue.go:45-76 | Each step is one step of the abstract queuer or invisible to it |
| `ChanQueue.RefinesQueuer` | internal/queue/chan_queue.go:19-76 | Every clean run is a run of the abstract queuer; once Wait returned, accepted, started and finished jobs are the same, each once, started in entry order |
| `ChanQueue.PushTakenExactly` | internal/queue/chan_queue.go:69-76 | Over every run, by its labels: a Push call is taken, and its job stays at its wg.Add or accepted, if and only if the call comes after Run and before Terminate |
| `ChanQueue.PushedRunsOnceExactly` | internal/queue/chan_queue.go:31-76 | In a clean run past Wait, the job of a Push call has finished exactly once if the call came after Run and before Terminate, and never otherwise |
| `ChanQueue.CallsNeverRefused` | internal/queue/chan_queue.go:31-76 | After every run that has not panicked Push can be called, Run if it was not, and Terminate once Run has returned |
| `ChanQueue.ChannelFills` | internal/queue/chan_queue.go:9-17 | The channel can be filled to its capacity and never holds more |
| `ChanQueue.AllWorkersBusy` | internal/queue/chan_queue.go:31-50 | For every capacity and number of workers some run has all of them busy at once |
| `ChanQueue.StoppedWorkerLeaves` | internal/queue/worker.go:38-44 | After a clean Wait a worker told to quit leaves by its own steps, even while Terminate is still telling the others |
| `ChanQueue.CleanUntilWaitReturns` | internal/queue/chan_queue.go:53-59 | Every run is clean as long as Wait has not returned |
| `ListQueue.StepKeeps` | internal/queue/list_queue.go:43-115 | Every step of every goroutine keeps the queue's invariant |
| `ListQueue.WaitGroupCounts` | internal/queue/list_queue.go:57-100 | Until Wait returns: WaitGroup = pushers past Add + list length + jobs with workers, minus one while an element is handed off but not removed |
| `ListQueue.EveryRunIsSafe` | internal/queue/list_queue.go:57-115 | As for the channel queue, with the list minus the handed-off element as what waits |
| `ListQueue.PanicsExactly` | internal/queue/list_queue.go:57-115 | After Wait returns some continuation panics if and only if a Push stands between its running check and its wg.Add, the dispatcher has not left and there is a worker |
| `ListQueue.NothingAcceptedLateExactly` | internal/queue/list_queue.go:82-115 | After Wait returns the WaitGroup stays zero in every continuation if and only if no Push stands in that window |
| `ListQueue.PanicReachable` | internal/queue/list_queue.go:57-115 | A run of a queue with one worker, of any maxLen, that ends in a send on a worker's closed job channel |
| `ListQueue.TerminatePanicsExactly` | internal/queue/list_queue.go:82-115 | When Terminate is called, some continuation panics if and only if a Push is in that window then and there is a worker |
| `ListQueue.TerminateHangsExactly` | internal/queue/list_queue.go:59-115 | When Terminate is called, it may wait for ever if and only if a Push is under way then, or a job waits and there is no worker |
| `ListQueue.ListLengthBounded` | internal/queue/list_queue.go:82-100 | In every run, list length plus pushers past the length check never exceeds maxLen plus the largest number of Push calls ever under way at once |
| `ListQueue.BoundIsReached` | internal/queue/list_queue.go:87-99 | For every maxLen > 0 and every k > 0 some run with k Push calls at once reaches maxLen + k, and no such run exceeds it |
| `ListQueue.EveryStepLowersRank` | internal/queue/list_queue.go:57-115 | Every step except a new Push call and an idle poll lowers the ranking measure |
| `ListQueue.EveryRunIsFinite` | internal/queue/list_queue.go:57-115 | Idle polls and Push calls aside, a clean run has at most 10 steps per Push call plus 5 per worker plus 13 |
| `ListQueue.Progress` | internal/queue/list_queue.go:57-79 | No deadlock while a dispatcher that has gone left nothing behind |
| `ListQueue.Drain` | internal/queue/list_queue.go:57-115 | From every such state the queue settles by its own steps and after Terminate shuts down completely |
| `ListQueue.LeavingHangsExactly` | internal/queue/list_queue.go:59-63 | When the dispatcher leaves, some continuation makes Terminate wait for ever if and only if a Push call is under way then |
| `ListQueue.HangReachable` | internal/queue/list_queue.go:59-99 | A run of a queue with one worker, of any maxLen, after which Terminate can wait for ever |
| `ListQueue.RefinesQueuer` | internal/queue/list_queue.go:31-115 | Every clean run is a run of the same abstract queuer as the channel queue, with the same consequence once Wait returned |
| `ListQueue.PushTakenExactly` | internal/queue/list_queue.go:82-100 | Over every run, by its labels: a Push call is taken if and only if it comes after Run and before Terminate and its length check does not find the list longer than a positive maxLen |
| `ListQueue.PushedRunsOnceExactly` | internal/queue/list_queue.go:57-115 | In a clean run past Wait, the job of a Push call has finished exactly once if so, and never otherwise; with maxLen <= 0 no Push is dropped |
| `ListQueue.CallsNeverRefused` | internal/queue/list_queue.go:43-115 | As for the channel queue |
| `ListQueue.AllWorkersBusy` | internal/queue/list_queue.go:43-80 | For every maxLen and number of workers some run has all of them busy at once |
| `ListQueue.StoppedWorkerLeaves` | internal/queue/worker.go:38-44 | As for the channel queue |
| `ColumnList.ParseColumns` | internal/batch/worker.go:51-61 | The entries are exactly the trimmed non-empty pieces between commas, in order |
| `ColumnList.AssetInOrder` | internal/batch/assets/cols.sql:1-16 | The asset parses into 15 entries, and although its comment is part of the first they read as the table's columns in the order of the fields |
| `ColumnList.ReadsNames` | internal/batch/worker.go:127-128 | The parenthesised list reads back as the names of its entries, whatever white space and comment lines these have |
| `ColumnList.FieldsLandInTheirColumns` | internal/batch/worker.go:153-156 | For any complete list of columns: every field of every record lands in its own column if and only if the columns are named in the order of cols.sql |
| `UpsertTable.LastOfMeans` | internal/batch/worker.go:115-119 | The dedup map holds exactly the buffer's keys, each with a row after which none has that key |
| `UpsertTable.BatchingShows` | internal/batch/worker.go:115-162 | Two records of one new object with different updated_at: one batch stores the second value, one-by-one upserts the first |
| `UpsertTable.BatchAgreesWithSequential` | internal/batch/worker.go:115-162 | One batch against one-by-one upserts: same keys, same deleted_at and raw, same whole row if it existed; for a new row the whole row agrees if and only if its first and last record agree on the other columns |
| `UpsertTable.OrderDoesNotMatter` | internal/batch/worker.go:120-123 | The resulting table is the same for every order in which the dedup map is listed |
| `UpsertTable.EnumerationSize` | internal/batch/worker.go:115-123 | The statement has one row per distinct key, never more than the buffer has records |
| `UpsertTable.CommittedForm` | internal/batch/worker.go:158-162 | After any successful batches: deleted_at and raw are the key's last, the other columns those of the stored row or of the key's last record in the first batch containing it |
| `UpsertTable.CutsDoNotMatter` | internal/batch/worker.go:64-123 | deleted_at and raw do not depend on how the stream is cut into batches; rows that existed agree on every column, and a new row does if and only if its founding record agrees with its first on the other columns |
| `UpsertTable.FrozenForEver` | internal/batch/worker.go:158-162 | No batch changes any column but deleted_at and raw of a stored row |
| `UpsertTable.RefreshedUpserts` | internal/batch/worker.go:158-162 | A clause that sets deleted_at and raw from the new row makes the statement the upsert |
| `InsertSyntax.ClauseReads` | internal/batch/worker.go:158-162 | The written clause reads as: on a conflict of global_uid set deleted_at and raw, each from itself |
| `InsertSyntax.HeadReads` | internal/batch/worker.go:126 | The written head reads as an INSERT into krateo_resources |
| `StatementText.ReadsRows` | internal/batch/worker.go:130-143 | The VALUES text reads back as the parameter numbers written, row by row |
| `Statement.BindsFieldByField` | internal/batch/worker.go:129-157 | Parameter (i, j) carries field j of record i and is stored in the j-th column named; the parameters run exactly up to the number of values |
| `Statement.NumberingFitsExactly` | internal/batch/worker.go:137-142 | The server accepts the numbering len(vals)+j+1, for any number of records, if and only if there are 15 columns |
| `Statement.StatementMeans` | internal/batch/worker.go:125-167 | For any list of entries that read as names and any conflict clause: refused unless they name every column once; then the records are upserted with the i-th field in the i-th column named and the columns the clause sets, or refused if two rows have the same key |
| `Statement.RightExactly` | internal/batch/worker.go:127-156 | The statement upserts all records correctly if and only if its list names the table's columns in the order of the fields |
| `Statement.InOrderMeans` | internal/batch/worker.go:125-167 | With the columns in that order the statement upserts exactly these records; the server refuses exactly when two have the same key |
| `Statement.ClauseRightExactly` | internal/batch/worker.go:158-162 | With the columns in order the statement is the upsert, for all tables and records, if and only if its clause sets deleted_at and raw, each from itself, and nothing else |
| `Statement.Collect` | internal/batch/worker.go:115-119 | The dedup loop keeps the last record of each global_uid |
| `Statement.ListValues` | internal/batch/worker.go:120-123 | Listing the dedup map gives each of its records exactly once, in any order |
| `Statement.Dedup` | internal/batch/worker.go:115-123 | The listed records are the buffer's keys, each once with its last record |
| `Statement.Write` | internal/batch/worker.go:125-162 | The builder loops produce the statement text and the value slice |
| `Statement.WriteRow` | internal/batch/worker.go:136-143 | One row's text is its parameter numbers, comma separated in parentheses |
| `Statement.Exchange` | internal/batch/worker.go:111-174 | A non-empty buffer's statement, if answered, yields the table of the whole batch; an empty buffer sends nothing |
| `BatchWorker.Worker.SyncBuffer` | internal/batch/worker.go:111-174 | On success the table becomes the batch table and the row counter grows by the buffer's length before dedup; on failure only the failure counter changes |
| `BatchWorker.Worker.FlushBuffer` | internal/batch/worker.go:94-109 | A flush clears the buffer whether or not the statement succeeded |
| `BatchWorker.Worker.RunLoop` | internal/batch/worker.go:64-92 | The loop does what the step function says for every sequence of receives, ticks and stop |
| `BatchWorker.StepAccounts` | internal/batch/worker.go:70-91 | Each event keeps the accounting; a tick or a stop leaves the buffer empty |
| `BatchWorker.EveryRunAccounted` | internal/batch/worker.go:64-109 | Over every run: flushed records followed by the buffer are the received records in order; the table is what the successful batches make of it; batches have 1..maxBatch records and the buffer stays below maxBatch; after a stop it is empty |
| `BatchWorker.FlushesExactly` | internal/batch/worker.go:70-91 | A receive sends a statement exactly if it fills the buffer to maxBatch, a tick or stop exactly if the buffer is not empty |
| `BatchWorker.BatchesAreFull` | internal/batch/worker.go:70-77 | Without ticks, all statements have exactly maxBatch records and the rest waits |
| `BatchWorker.RecordsConserved` | internal/batch/worker.go:94-174 | Received = counted as inserted + in failed batches + buffered; statements never name more rows than are counted |
| `BatchWorker.BatchingIsTransparent` | internal/batch/worker.go:64-162 | If no statement fails, deleted_at and raw of every row equal those of upserting all flushed records one by one, rows that existed agree entirely, and a new row does if and only if its founding record agrees with its first on the other columns |
| `BatchWorker.RowsExplained` | internal/batch/worker.go:115-162 | With failures allowed, every row of the final table is explained by the initial row or the first successful batch with its key, and the last successful record |
| `BatchWorker.StoredRowsFrozen` | internal/batch/worker.go:158-162 | From any point of any run, a stored row never changes outside deleted_at and raw |
| `BatchWorker.ParametersBounded` | internal/batch/worker.go:72-77 | No statement of a run has more than 15 * maxBatch parameters (15 if maxBatch is 0) |
| `CrdExtract.Extract` | internal/util/kube.go:24-68 | The loop returns one GVR per named version, in order, with the kind and scope, or nothing where the CRD lacks the expected shape |
| `CrdExtract.Listed` | internal/util/kube.go:49-65 | All GVRs of one CRD share group and resource and have a non-empty version |
| `CrdExtract.ListedMeans` | internal/util/kube.go:24-68 | In terms of the JSON alone: the GVRs are those of the named entries of spec.versions, one each, in order and none left out, with spec.group and spec.names.plural |
| `CrdExtract.VersionListedExactly` | internal/util/kube.go:49-65 | A version is listed if and only if some entry of spec.versions has its name |
| `CrdExtract.ListsNothingWithoutShape` | internal/util/kube.go:27-47 | A CRD without a spec, an object of names and a list of versions lists nothing |
| `Manager.ParseGroups` | internal/manager/helpers.go:35-44 | The groups are the trimmed non-blank lines; the empty group is never managed |
| `Manager.Supervisor.StartInformer` | internal/manager/manager.go:140-168 | Adds an entry and a router unless the GVR is empty, "vacuum" or already present |
| `Manager.Supervisor.StopInformer` | internal/manager/helpers.go:10-17 | Cancels and removes the entry if there is one |
| `Manager.Supervisor.OnEvent` | internal/manager/manager.go:82-126 | The handler acts on every GVR the CRD lists, as the event's operation and deletion timestamp say |
| `Manager.RelevantExactly` | internal/manager/manager.go:82-94 | The handler acts exactly on events for the manager about CRDs all of whose GVRs are in managed groups, although it checks only the first |
| `Manager.RoutersFollowEvents` | internal/manager/manager.go:88-124 | After any events, one handler at a time: live routers are exactly the map entries, each under its own key; every router's group is managed although only the first GVR's is checked; a key is present if and only if the latest event concerning it was a start |
| `Manager.CancelsExactly` | internal/manager/helpers.go:10-17 | An event cancels exactly the routers whose keys it stops |
| `Manager.CancelledByEvent` | internal/manager/manager.go:88-124 | Over any events: a router is cancelled if and only if one of them met it live and stopped its key |
| `Manager.KeysAreUnique` | internal/manager/manager.go:145-152 | Different GVRs have different map keys if groups have no '/' and versions no ',' |
| `ManagerRace.EntriesNeverCancelled` | internal/manager/helpers.go:10-17 | In every interleaving of starts, unlocked lookups and locked sections, no map entry's cancel function was already called |
| `ManagerRace.LeaksExactlyWhenStale` | internal/manager/helpers.go:10-17 | A step makes a live router unreachable if and only if it is the locked section of a lookup whose key has since been taken by another router |
| `ManagerRace.NoStaleNoLeak` | internal/manager/manager.go:145-152 | A run without stale lookups keeps every live router in the map |
| `ManagerRace.NoLeakExactlyNeverStale` | internal/manager/helpers.go:10-17 | Over every run: no state has a live router outside the map if and only if no lookup is stale when it is finished |
| `ManagerRace.LeakReachable` | internal/manager/helpers.go:10-17 | A run that leaves two live routers for one key, one of which no map entry can cancel |
| `RouterKeys.RoundTripsExactly` | internal/router/helpers.go:17-62 | splitKey undoes buildKey if and only if no part contains a separator, and then getObjectKey rebuilds the store key |
| `RouterKeys.SplitKeyExactly` | internal/router/helpers.go:17-32 | For any key: an error exactly without a bar, empty parts with two or more slashes after it, a panic exactly with fewer than three before it |
| `RouterKeys.SeparatorLosesParts` | internal/router/helpers.go:17-46 | A namespace with a separator: splitKey returns empty parts and no error |
| `RouterKeys.PartsAreFree` | internal/router/helpers.go:17-32 | Whatever the key, the parts returned contain no separator |
| `RouterKeys.InformerKeysInjective` | internal/router/helpers.go:48-54 | Informer keys tell GVR, kind and namespace apart |
| `WorkerPool.RegisterAllConcat` | internal/router/workpool.go:55-59 | Registering the informers of one router after those of others is registering the whole list |
| `WorkerPool.Pool.AddRouter` | internal/router/router.go:56-80 | Registers one informer per namespace, or one for all namespaces, after everything registered before |
| `WorkerPool.EveryNamespaceWatched` | internal/router/router.go:56-80 | A router covers a namespace if and only if it lists it or watches all; each informer has its own store |
| `WorkerPool.Pool.Find` | internal/router/workpool.go:124-137 | After any calls of AddRouter, an object covered by one of the routers gets an informer of its type that covers its namespace |
| `WorkerPool.LookupFindsCover` | internal/router/workpool.go:124-137 | For an object covered by a registered informer, the lookup finds one of the same GVR and kind that covers its namespace, preferring the exact namespace |
| `WorkerPool.ReconcileReachesStore` | internal/router/workpool.go:109-152 | Reconcile of an add or update item of a registered router never fails on key or informer; it handles the stored object as an update for the right target, or skips it when gone |
| `WorkerPool.ItemNamesSubject` | internal/router/router.go:131-141 | An enqueued item's key splits back into the router's type and the object's name |
| `WorkerPool.ItemCarriesDeletion` | internal/router/router.go:143-179 | An item carries an object if and only if the callback is a delete or an update to an object with a deletion timestamp |
| `WorkerPool.QueuesExactly` | internal/router/router.go:131-179 | A callback queues an item if and only if it is an add of an object, a delete of one (plain or in a tombstone), or an update with a new resource version; the item carries the object itself exactly if the callback reports a deletion |
| `WorkerPool.ManagerSeesOnlyUpdates` | internal/router/workpool.go:114-122 | No callback that reports a deletion causes an event for the manager, which only ever sees updates |
| `CrdPipeline.StopEventExactly` | internal/router/workpool.go:109-152 | The manager gets a stopping event if and only if a CRD router's callback did not itself report a deletion, the lookup succeeded and the object stored at reconcile has a deletion timestamp |
| `CrdPipeline.ManagerActsOnWhatIsSeen` | internal/manager/manager.go:82-124 | The same per GVR key, for stops and for starts |
| `CrdPipeline.RoutersFollowStore` | internal/manager/manager.go:88-124 | Over any sequence of callbacks, registries and stores, with objects as values: a key has a running router if and only if the latest reconcile that saw a CRD listing it saw it without deletion timestamp |
| `CrdPipeline.CancelledExactly` | internal/manager/manager.go:111-114 | Over any such sequence, with objects as values: a router is cancelled if and only if, while it was live, some reconcile saw a CRD listing its key with a deletion timestamp |
| `CrdPipeline.DeletionLeavesRouters` | internal/router/workpool.go:114-117 | A callback that reports a deletion leaves the manager as it is, after any run |
| `CrdPipeline.DeletionMissed` | internal/router/router.go:152-179 | A run in which a CRD is created, marked as deleting and deleted, and its router keeps running |
| `CrdPipeline.DeletionSeen` | internal/router/workpool.go:139-152 | A run in which a queued update finds the deletion timestamp in the store, and the router is stopped |
| `Retry.RetriesBounded` | internal/router/workpool.go:80-107 | Over every interleaving of workers and items, an item is reconciled at most 6 times before it is forgotten, its requeue count stays within 0..5, and it is given up only after exactly 6 |
| `Retry.RetriesFollowResults` | internal/router/workpool.go:91-102 | Over every run, by its labels: an item is requeued only after a failed reconcile, at most its fifth since it was forgotten, and forgotten only after a successful one or the sixth failure |
| `Retry.RunTracks` | internal/router/workpool.go:80-107 | The requeue count is the number of failures since the item was forgotten, but for one still being dealt with |
| `Retry.WorkerFinishes` | internal/router/workpool.go:80-107 | A worker that has an item finishes with it by at most four steps of its own, whatever its reconcile returns |
| `Retry.BoundReached` | internal/router/workpool.go:91-99 | For every item there is a run that reconciles it 6 times, each time failing, and then drops it |
| `Storage.DeletedAtFollowsCallback` | internal/storage/storage.go:63-79 | From any callback to the row, for the object as the handler finds it and left alone until the record is built: nothing for a callback that queues nothing; else a row is written exactly for handled items that report a deletion or are not for the manager and whose object has a UID and a parsable apiVersion; its deleted_at is set if and only if the callback reports a deletion, to the timestamp found or else the clock, and raw holds the object with that timestamp |
| `Storage.DeletionAlwaysRecorded` | internal/storage/storage.go:63-110 | A deletion of an identifiable object gets a row with deleted_at, whatever the registry and the store hold |
| `Storage.GroupVersionExactly` | internal/storage/storage.go:122-126 | An apiVersion is refused exactly when it has two or more slashes |
| `Storage.StoredRowIdentifies` | internal/storage/storage.go:121-161 | The row names its object, group and version rejoin to apiVersion, and created_at, updated_at, composition_id (the label or else the UID) and status_raw are the object's |
| `Storage.RowsAreKeyedByUid` | internal/storage/storage.go:146-147 | In one cluster two objects share a row only if they have the same UID |
| `SharedObjects.StepKeeps` | internal/storage/storage.go:68-79 | Every step of the watch, the callbacks, reconcile and the handlers keeps: each object is what the API server delivered, with the timestamp that the in-place changes made of it; only deletes change CRDs |
| `SharedObjects.SinceClear` | internal/storage/storage.go:68-79 | Where nobody clears it, a timestamp stays; where there was none, the first handler of a delete sets its clock |
| `SharedFlow.GoneIsQueued` | internal/router/router.go:169-179 | Delivering a deletion always queues an item that carries the object |
| `SharedFlow.ChangeIsQueued` | internal/router/router.go:143-168 | Delivering an add or update queues an item exactly if the resource version is new, with the object exactly if an update finds a deletion timestamp |
| `SharedFlow.CacheFollowsWatch` | internal/router/workpool.go:139-151 | Over every run the cache holds under a key what the watch reported last, and nothing after a deletion |
| `SharedFlow.DeletionsConserved` | internal/router/workpool.go:109-152 | Over every run, for every object: deletions brought by the watch or found by a callback are under way or recorded, none lost and none made up |
| `SharedFlow.Drain` | internal/router/workpool.go:80-152 | From every reachable state the callbacks, the pool and the handlers can deal with everything under way, within a bound |
| `SharedFlow.DeletionsReachRecords` | internal/storage/storage.go:63-110 | After every run, every deletion brought so far can still get its record |
| `SharedRecords.FlagRightExactly` | internal/storage/storage.go:68-150 | Over every run: deleted_at (and the timestamp in raw) is set if and only if the handler is of a delete, exactly unless the last change of the object before the reading is the opposite change of another handler |
| `SharedRecords.FlagRightApart` | internal/storage/storage.go:68-150 | Over every run in which handlers of one object do not overlap: the flag is right, raw agrees, and deleted_at is the object's own timestamp if no update of it was handled before, otherwise the clock of the first delete since the last such update |
| `SharedRecords.StoresApart` | internal/storage/storage.go:121-161 | In such runs the record is exactly that of the object as the handler found it |
| `SharedRecords.CallbackMissesExactly` | internal/router/router.go:152-168 | The callback of an update to an object delivered with a timestamp misses it if and only if the last change of the object was made for an update |
| `SharedRecords.ReconcileAgrees` | internal/router/workpool.go:109-152 | The reconcile step over references is the pool's reconcile of the values behind them |
| `SharedRecords.TimestampLost` | internal/storage/storage.go:69-79 | A run without overlapping handlers in which deleted_at is the clock although the object has its own timestamp |
| `SharedRecords.FlagLost` | internal/storage/storage.go:69-79 | A run in which the record of a deletion has no deleted_at |
| `SharedRecords.RecordMixed` | internal/storage/storage.go:129-145 | A run in which raw has the timestamp and deleted_at has not |
| `SharedRecords.CallbackMisses` | internal/router/router.go:163-168 | A run in which the callback of a deletion queues a plain update |
| `SharedCrds.ManageHandles` | internal/manager/manager.go:82-124 | The manager handles an event with the object as it is at that moment |
| `SharedCrds.DeletingExactly` | internal/manager/manager.go:111-114 | The manager reads a deletion timestamp if and only if the object was delivered with one or a storage handler of a delete has set one before |
| `SharedCrds.CancelledExactly` | internal/manager/manager.go:111-114 | Over every run: a router is cancelled if and only if, while it was live, the manager handled the event of a CRD listing its key that was delivered with a timestamp or on which a storage handler had set one |
| `SharedCrds.PresentExactly` | internal/manager/manager.go:88-124 | Over every run: live routers are the map entries, and a key has one if and only if some handled event served it and none handled later stopped it |
| `SharedCrds.StoppedByStorage` | internal/router/router.go:169-179 | A run in which a router is stopped although no CRD was delivered with a timestamp: a tombstone holds the cached object |

## Left out

- ChanQueue.EveryRunIsSafe: after Wait has returned, states safety for clean runs only, because other runs do panic (`ChanQueue.PanicReachable`).
- ListQueue.EveryRunIsSafe: after Wait has returned, states safety for clean runs only, because other runs do panic (`ListQueue.PanicReachable`).
- ListQueue.Drain: starts from states in which a dispatcher that has gone left nothing behind, because otherwise Terminate does hang (`ListQueue.LeavingHangsExactly`).
- CrdPipeline.CancelledExactly: takes the manager to read of an object what reconcile found; `SharedCrds.CancelledExactly` is without that assumption.
- CrdPipeline.RoutersFollowStore: the same; `SharedCrds.PresentExactly` is without it.
- Storage.DeletedAtFollowsCallback: speaks of the object as the handler finds it and of handlers that are not disturbed, because otherwise it is false (`SharedRecords.FlagLost`); `SharedRecords` has the general statements.
- Goroutines and channels of the queues are steps over values, not a heap of objects: a section under a lock is one step, and a receive of a nil channel from a closed pool is not distinguished from blocking.
- The queue models have one call of Run and then one call of Terminate, jobs return, and WaitGroup reuse checks of the Go runtime are not modelled.
- Records still in the input channel when the batch worker stops: the model takes what the select statement received and makes no claim about what was sent.
- Ordering between events published asynchronously on the event bus, and everything that depends on it, such as which of two updates of one object is stored last.
- PostgreSQL itself: the server is the reader, the parameter binding and the upsert in `Statement`, plus a success flag per statement; connection handling, column types and the schema check are not modelled. Its reader knows unquoted names as they are written, upper-case keywords, white space and line comments, and refuses a clause that sets the key; a list that omits a column is refused outright, which the parameter count implies anyway.
- `getRoutersFromStatic`: a simple filter of an embedded asset.
- Kubernetes informers, the dynamic client and the object resolver; a store is a function from informer and key to an object.
- Internals of the client-go work queue: only exclusive processing and the requeue count are assumed; delays and rate limits are not modelled.
- Shutdown of the manager, which cancels the parent context of all routers.
- JSON encoding, clocks, timers, logging, telemetry, configuration, the Helm chart and main wiring.
- Data races on Go maps: each map operation is one step, and so is the storage handler's test and change of a deletion timestamp.
- `Worker.delete`, `internal/storage/job.go`, `syncJob` and the package-level queue wrappers, which are off the modelled paths.
