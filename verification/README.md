# Verified model of llm-usage-metrics

llm-usage-metrics collects token usage from coding agents' logs, on this machine and on others, and
reports it by period, project and 5-hour block. This project models its algorithms and protocols in
Dafny and proves what its comments, documentation and tests promise of them. Each module follows one
part of the program:

| file | module | what it models |
|---|---|---|
| `match_copies.dfy` | `CopyMatching` | which of another machine's events are copies of events already counted: four greedy passes over several keys |
| `match_order.dfy` | `MatchOrder` | the order in which that matching prefers pairs, and that it is the only matching that follows it |
| `merge_machine_events.dfy`, `usage_event_keys.dfy` | `MachineMerge`, `EventKeys` | combining machines session by session, with the keys of usage events and of tool calls and messages |
| `first_server.dfy`, `session_order.dfy` | `FirstServer`, `SessionOrder` | what a merge gives, in terms of the merged lists: who served a session first and what counts as a duplicate, and the order of the results |
| `request_ids.dfy` | `RequestIds` | what the merge does with events that log one request's ids |
| `parse_worker_pool.dfy` | `WorkerPool` | the message-driven pool of parse workers |
| `project_key.dfy` | `ProjectLabels` | distinct display labels for project keys |
| `aggregate_blocks.dfy` | `UsageBlocks` | estimated 5-hour blocks |
| `event_store_append.dfy` | `IncrementalIngest` | reading only the lines appended to a file, with many runs writing |
| `machine_sync.dfy` | `MachineSync` | exporting usage, reading the bundle, and applying it to a cache |
| `statusline_lock.dfy` | `StatuslineLock` | the lock of overlapping statusline ticks |
| `otlp_push.dfy` | `OtlpBatches` | packing and splitting OTLP request bodies |
| `aggregate_usage.dfy` | `UsageAggregation` | rows by period, source, machine and project, with folding and totals |
| `common.dfy` | `Common` | optional values and counting by injection |

Code that updates variables, maps and arrays step by step is modelled as methods and classes, each
proved to compute a specification function or to keep an independent description of its result; the
promises are lemmas about those. Protocols (the pool, the lock, ingest by many runs) are state
machines whose runs are arbitrary sequences of steps.

## Hypotheses

- Event hashes, request keys, session keys, period keys and project keys of events are opaque
  functions. A cost is an exact integer and a time an integer number of milliseconds.
- A key the program builds by joining texts with a NUL character is a tuple here, since ids, paths
  and models hold no NUL.
- Where the program walks a `Map`, the model leaves the order open unless the result depends on it.
- Ingest: `Faithful` states the contract of packages/core/src/stream/cursor.ts:35-63, that a resumed
  read joined to the read it continues is a whole read; the file is append-only, so a read is fixed
  by where it ends, and a cursor by its offset.
- Sync: an exporter lists a file once, with a nonempty revision, and a file's key and revision
  determine its events (`Determined`, `Trusted`).
- Lock: every file-system call is one atomic step, an exited tick never moves again, and a lock whose
  tick still has it is never judged stale from a reading of that lock alone. The two reads of a lock
  are separate steps, so what a tick reads can mix two locks.
- OTLP: a resource's JSON is what comes before its list of spans, the spans joined by commas, and
  what comes after, one character a byte.

## Where a promise does not hold

- src/machines/merge-machine-events.ts:122-123 says that a session never holds one request's ids
  twice. It can: an event also needs an equal loosest key (the content hash, or under skew the
  timestamp) to be a copy. `EventsWithIdsCanRepeat` gives a session that holds request 1 and comes to
  hold it twice, with and without skew. `EventWithHeldIdsIsKeptIff` and `IdsStayDistinctIff` say
  exactly when, for any parser versions: when the event's loosest key is not the held event's and no
  held event without ids and with its loosest key is left for it. With equal recorded versions
  `IdsStayDistinctInOrderIff` says it of the two lists alone. The promise does hold, whatever the
  versions, when equal ids come with equal hashes and timestamps (`RequestIdsStayUnique`), and under
  equal recorded versions of hash and ids together (`RequestsStayDistinct`).
- Events without ids are not kept unique either: `EventsWithoutIdsCanRepeat` gives a session that
  comes to hold two equal events without ids, and `EqualEventWithoutIdsIsKeptIff` says exactly when.
- src/persistence/event-store-append.ts:9-13 says that a write by a build that does not know the
  cursor table leaves the cursor unused. It counts when the write's fingerprint, which is taken
  before the read, is the cursor row's, although the read ended past the cursor:
  `OlderBuildCanRepeatRows` gives a run after which a row is stored twice. `OlderBuildKeepsIff` and `StoredRowsAreAWholeRead` say exactly which of these writes,
  and which runs, are safe.
- src/cli/run-statusline.ts:339-342 concedes that two ticks can both hold the lock when three or more
  reclaim at once. Two that reclaim are enough, with a third that finds the path free.
  `BothHoldFromThreeOn` shows that two ticks can hold the lock at once if and only if three or more
  tick at all.

## Model

| member | source | states |
|---|---|---|
| `CopyMatching.Problem.RunIsExhaustedMatching` | src/machines/merge-machine-events.ts:187-203 | the four passes give a one-to-one matching of events and served events with an equal key whose ids are equal or missing on a side, and no pair a pass tries is left with both sides free |
| `CopyMatching.Problem.ExhaustedIsMaximum` | src/machines/merge-machine-events.ts:117-124 | when earlier keys refine the last one, no matching of the same events and served events is larger than an exhausted one |
| `CopyMatching.Problem.RunIsMaximum` | src/machines/merge-machine-events.ts:177-203 | as many copies as possible are matched |
| `CopyMatching.Problem.PerfectMatchingIsFound` | src/machines/merge-machine-events.ts:187-203 | when some matching covers every event, every event is matched |
| `CopyMatching.MatchCopies` | src/machines/merge-machine-events.ts:125-204 | the candidate maps, the stacks and the `matched` and `taken` arrays compute exactly the specified passes |
| `MatchOrder.RunIsClosestFirst` | src/machines/merge-machine-events.ts:119-124 | the passes give the one matching in which every pair that could be made is made or gives way to an earlier pair of its event or of its served event: equal ids first, then ids on the served side only, on the event side only and on neither; under these a closer key, then the earlier event, then the newer served event |
| `CopyMatching.IndexServed` | src/machines/merge-machine-events.ts:135-164 | each key's entry stacks exactly the served events with that key, by ids, with ids and without |
| `CopyMatching.Take` | src/machines/merge-machine-events.ts:165-176 | pops to the newest free served event, takes it, and passes over none that is free |
| `CopyMatching.TopIsLastFree` | src/machines/merge-machine-events.ts:180-185 | the candidates a pass reads hold the event it may match, and their newest free one is the one the specification picks |
| `MachineMerge.MergeByKeys` | src/machines/merge-machine-events.ts:240-310 | the updated session maps give every machine the events, duplicates and skew drops of the per-session specification |
| `MachineMerge.MergeOneSession` | src/machines/merge-machine-events.ts:269-297 | one session is kept whole, or merged against what was served before this machine |
| `MachineMerge.GroupBySession` | src/machines/merge-machine-events.ts:84-99 | every session in order of its first event, each with its events in order |
| `MachineMerge.KeepUnmatched` | src/machines/merge-machine-events.ts:288-297 | unmatched events are kept and become served, in order; matched ones are counted |
| `MachineMerge.Merge.RepeatKeepsNothing` | src/machines/merge-machine-events.ts:206-217 | a machine listed again, right away or after any others, has nothing counted the second time |
| `MachineMerge.Merge.StaysContained` | src/machines/merge-machine-events.ts:263-298 | once merged, a machine's session stays contained in what is held, whatever is merged after it |
| `MachineMerge.Merge.AsManyCopiesAsPossible` | src/machines/merge-machine-events.ts:177-179 | no other one-to-one pairing of a session's copies leaves fewer events counted twice |
| `MachineMerge.Merge.EveryEventIsCounted` | src/machines/merge-machine-events.ts:263-307 | for every machine, kept events, duplicates and skew drops add up to its events |
| `MachineMerge.Merge.OutcomeCounts` | src/machines/merge-machine-events.ts:288-297 | the same for one session, with duplicates only without skew and skew drops only with it |
| `MachineMerge.Merge.KeptInMachineOrder` | src/machines/merge-machine-events.ts:269-307 | a machine's kept events of a session are that session's unmatched events, in the machine's order |
| `SessionOrder.ResultsFollowSessionStarts` | src/machines/merge-machine-events.ts:84-99 | a result is named after its machine and holds one session after the other, in the order in which the sessions start among the machine's events |
| `FirstServer.HeldByFirstServer` | src/machines/merge-machine-events.ts:263-279 | before any machine a session is held exactly when this machine or an earlier one has events of it, and its server is this machine, or else the first machine that lists it |
| `FirstServer.CopiesAreCountedByFirstServer` | src/machines/merge-machine-events.ts:213-217 | a machine's events that are left out are duplicates exactly when it and the first to serve the session both recorded one equal version of the source, and else skew drops |
| `FirstServer.CopiesAgree` | src/machines/merge-machine-events.ts:281-286 | what an event is matched with has the same content hash when both recorded one equal version, and else an equal turn key |
| `MachineMerge.Merge.HeldRequestIsCopy` | src/machines/merge-machine-events.ts:118-121 | whatever the versions, an event whose ids and loosest key are held is matched |
| `MachineMerge.Merge.RequestsStayDistinct` | src/machines/merge-machine-events.ts:209-211 | with recorded, equal parser versions a session never comes to hold two events with one hash and one request's ids, through all machines |
| `RequestIds.EventWithHeldIdsIsKeptIff` | src/machines/merge-machine-events.ts:120-123 | whatever the versions: an event whose ids are held is kept exactly when its loosest key is not the held event's and every held event without ids and with its loosest key went to another event with ids |
| `RequestIds.EventWithHeldIdsIsKeptInOrderIff` | src/machines/merge-machine-events.ts:187-201 | under one key, exactly when the keys differ and the events with ids before it need every held event without ids |
| `RequestIds.AsManyKeptAsSparesMiss` | src/machines/merge-machine-events.ts:177-201 | of the events of one loosest key with ids not held under it, exactly those are kept that exceed the held events of that key without ids |
| `RequestIds.IdsStayDistinctIff` | src/machines/merge-machine-events.ts:122-123 | a merge keeps a session's ids unique exactly when no event has ids held under another loosest key and finds no held event without ids left |
| `RequestIds.IdsStayDistinctInOrderIff` | src/machines/merge-machine-events.ts:122-123 | with equal recorded versions, the same in terms of the two lists before the merge |
| `RequestIds.RequestIdsStayUnique` | src/machines/merge-machine-events.ts:122-123 | whatever the versions, when equal ids come with equal hashes and turn keys, no session ever comes to hold one request's ids twice |
| `RequestIds.PassServesInOrder` | src/machines/merge-machine-events.ts:187-201 | under one key, no event a pass leaves could have had what a later event took in it |
| `MachineMerge.Merge.EqualEventWithoutIdsIsKeptIff` | src/machines/merge-machine-events.ts:180-185 | exactly when an event without ids is counted although an equal one without ids is held |
| `EventKeys.UsageTurnsRefine` | src/machines/merge-machine-events.ts:68-72 | an equal timestamp and model implies an equal timestamp, so the result on maximum matchings applies to usage |
| `EventKeys.EventsWithIdsCanRepeat` | src/machines/merge-machine-events.ts:122-123 | with and without skew, a concrete merge after which a session holds one request's ids twice |
| `EventKeys.EventsWithoutIdsCanRepeat` | src/machines/merge-machine-events.ts:122-123 | a concrete merge after which a session holds two equal events without ids |
| `WorkerPool.Choose` | src/cli/parse-worker-pool.ts:265-292 | the least loaded worker with room, a busy one only when no more may be spawned; a new one only when none is idle; none only when all are full |
| `WorkerPool.StepKeeps` | src/cli/parse-worker-pool.ts:216-385 | every step (submission, answer, worker failure, failed spawn or post, terminate) keeps the pool's invariant |
| `WorkerPool.RunKeeps` | src/cli/parse-worker-pool.ts:199-385 | after any run: at most `workerCount` workers with at most 2 tasks each, ids ascending, and tasks queued only while every worker exists and is full |
| `WorkerPool.EachTaskInOnePlace` | src/cli/parse-worker-pool.ts:216-242 | after any run each submitted task is in the queue, with one worker, or handed off, exactly once |
| `WorkerPool.DisabledPoolOwesNothing` | src/cli/parse-worker-pool.ts:230-242 | a disabled pool holds nothing and has handed off every task submitted, each once |
| `WorkerPool.ResultsGoToTheirTask` | src/cli/parse-worker-pool.ts:332-354 | a worker's result settles only the oldest task of that worker, when the worker named it; nothing handed off is taken back; a disabled pool stays disabled |
| `WorkerPool.EveryRequestIsATask` | src/cli/parse-worker-pool.ts:357-373 | after any run each request submitted is one task, in order, whether or not the pool was disabled by then |
| `WorkerPool.FailureTurnsPoolOff` | src/cli/parse-worker-pool.ts:230-260 | a failure of a worker, a message that does not name its oldest task, or terminating, disables the pool, which then holds nothing; every task it held is handed off inline, once |
| `WorkerPool.AnswerSettlesOldestTask` | src/cli/parse-worker-pool.ts:332-354 | a message that names a worker's oldest task hands that task off first, with the worker's result, or inline when the worker reports an error; nothing else is handed off while the pool stays on |
| `WorkerPool.FailedAttemptTurnsPoolOff` | src/cli/parse-worker-pool.ts:294-330 | a submission disables the pool exactly when one of the spawns and posts it would make throws, and then every task, the new one too, is handed off inline, once |
| `WorkerPool.DispatchKeeps` | src/cli/parse-worker-pool.ts:294-330 | from any sound state, dispatch ends with no task waiting beside a worker with room, wherever it throws |
| `WorkerPool.ParseWorkerPool.TakePendingTasks` | src/cli/parse-worker-pool.ts:216-224 | all queued tasks, then every worker's, are taken in order and none is left |
| `WorkerPool.ParseWorkerPool.DisablePool` | src/cli/parse-worker-pool.ts:230-242 | hands every held task off inline, once, and only when the pool is not disabled yet |
| `WorkerPool.ParseWorkerPool.Terminate` | src/cli/parse-worker-pool.ts:375-383 | hands every held task off inline and disables the pool |
| `WorkerPool.ParseWorkerPool.TakeIdleSlot` | src/cli/parse-worker-pool.ts:269-292 | the loops over the workers find the chosen worker, spawning at most one |
| `WorkerPool.ParseWorkerPool.Dispatch` | src/cli/parse-worker-pool.ts:294-330 | the loop takes exactly the specified posts, up to the attempt that throws |
| `WorkerPool.ParseWorkerPool.HandleWorkerMessage` | src/cli/parse-worker-pool.ts:332-354 | takes the specified step for a message |
| `WorkerPool.ParseWorkerPool.Parse` | src/cli/parse-worker-pool.ts:357-373 | takes the specified step for a submission, inline when disabled |
| `ProjectLabels.BuildProjectLabels` | src/aggregate/project-key.ts:170-232 | the labels are a function of the set of keys: order, repeats and map order do not matter; it ends |
| `ProjectLabels.EveryKeyHasItsOwnLabel` | src/aggregate/project-key.ts:160-169 | every key gets a label, no two the same, none the reserved one, each a tail of the key's segments, the key, or the key numbered |
| `ProjectLabels.ShortestFreeTailIsTheLabel` | src/aggregate/project-key.ts:160-163 | a key's label is the shortest of its tails that no other pending key tried with it and no label given before equals |
| `ProjectLabels.NoFreeTailIsNumbered` | src/aggregate/project-key.ts:162-164 | a key none of whose tails was free is labelled with the full key, under the first number free by then |
| `ProjectLabels.PendingIff` | src/aggregate/project-key.ts:191-214 | a key is still tried at a depth exactly when it has that many segments and none of its shorter tails was free |
| `ProjectLabels.UniqueLastSegmentIsTheLabel` | src/aggregate/project-key.ts:160-162 | a key whose last segment no other key shares is labelled with it |
| `ProjectLabels.LastNameIsTried` | src/aggregate/project-key.ts:150-161 | of the text: the first label a key tries is its last name, past a drive letter and before any separators at the end |
| `ProjectLabels.LongerLabelAddsTheNameBefore` | src/aggregate/project-key.ts:161-197 | of the text: with one more segment, a label is that of what comes before the last name, a slash, and the name |
| `ProjectLabels.SegmentsAreCounted` | src/aggregate/project-key.ts:150-156 | of the text: a root has no segment, a name alone has one, and a name after a separator is one more than what comes before it |
| `ProjectLabels.UniqueLastNameIsTheLabel` | src/aggregate/project-key.ts:160-162 | of the text: a key whose last name no other key ends in, or is, is labelled with it |
| `ProjectLabels.RoundLeaves` | src/aggregate/project-key.ts:201-229 | a round leaves only losers with a longer tail to try |
| `ProjectLabels.RoundCountsDown` | src/aggregate/project-key.ts:191-229 | every round brings the end closer |
| `ProjectLabels.NameRound` | src/aggregate/project-key.ts:191-229 | the mutable maps of one round compute the specified round |
| `ProjectLabels.SettleGroups` | src/aggregate/project-key.ts:201-214 | groups settled one by one, in any order, serve the round's winners and deepen or exhaust its losers |
| `ProjectLabels.NumberKeys` | src/aggregate/project-key.ts:216-228 | exhausted keys are numbered in code point order, each with the first number free by then |
| `ProjectLabels.NumberLabel` | src/aggregate/project-key.ts:219-227 | the numbering loop ends, at the first free number |
| `ProjectLabels.FirstFreeIsFree` | src/aggregate/project-key.ts:223-225 | the numbered label is not taken and every smaller number is |
| `ProjectLabels.NumberedLabelText` | src/aggregate/project-key.ts:220-225 | the numbered label is the key, after `./` when it is spelled like the reserved label, and with ` #` and the least free number from 2 on when that is taken |
| `ProjectLabels.LeastIsNumberedFirst` | src/aggregate/project-key.ts:216-228 | of the keys numbered in a round the first by code point takes the first number free before it |
| `ProjectLabels.DecimalIsTheNumber` | src/aggregate/project-key.ts:224 | a number's text is its decimal digits, with no leading zero |
| `ProjectLabels.DecimalIsInjective` | src/aggregate/project-key.ts:224 | different numbers make different labels |
| `ProjectLabels.SortKeys` | src/aggregate/project-key.ts:219 | the keys, each once, ascending by code point |
| `ProjectLabels.OneIsBefore` | src/aggregate/project-key.ts:219 | of two different keys exactly one comes first |
| `ProjectLabels.BeforeIff` | src/aggregate/project-key.ts:219 | a key comes before another exactly when it has the smaller character where they first differ, or ends there |
| `ProjectLabels.GroupByLabel` | src/aggregate/project-key.ts:192-199 | every tried label with exactly the keys that try it |
| `UsageBlocks.ChainSourceBlocks` | src/blocks/aggregate-blocks.ts:132-174 | the chain from the shortcut start gives the blocks of the chain from the first event, then filtered |
| `UsageBlocks.FindChainStart` | src/blocks/aggregate-blocks.ts:106-130 | the last event after a gap of 5 h or more at or before `sinceMs`, or the first event with its certainty |
| `UsageBlocks.ShortcutKeepsBlocks` | src/blocks/aggregate-blocks.ts:101-105 | chaining from any such gap gives the same kept blocks, starts and certainty as chaining from the first event |
| `UsageBlocks.KeptBlocksAreDisjoint` | src/blocks/aggregate-blocks.ts:296-300 | kept blocks start on the hour, lie 5 h apart, have not ended by `sinceMs`, and hold the counted events of their hours |
| `UsageBlocks.CertainBlocksAreTrue` | src/blocks/aggregate-blocks.ts:125-148 | a block not marked uncertain is a block of the longer history, with the same start and counted events, whatever usage the range left out |
| `UsageBlocks.UncertainIff` | src/blocks/aggregate-blocks.ts:125-151 | a kept block is marked uncertain exactly when a range start is given, the first event is less than 5 h after it, and no two successive events up to the first one of the block, context events included, are 5 h or more apart |
| `UsageBlocks.WholeHistoryIsCertain` | src/blocks/aggregate-blocks.ts:125-127 | without a range start, or with the first event 5 h or more after it, no block is uncertain |
| `UsageBlocks.KeptIff` | src/blocks/aggregate-blocks.ts:153-173 | a block of the chain is kept exactly when a counted event lies in its 5 hours and these end after `sinceMs` |
| `UsageBlocks.OnlyOwnBlockHolds` | src/blocks/aggregate-blocks.ts:297-300 | a kept block holds an event's time exactly when it is the block the chain put the event in |
| `UsageBlocks.FindEventBlock` | src/blocks/aggregate-blocks.ts:302-317 | stepping back 5 hours finds a block that holds the time, or shows that none does |
| `UsageBlocks.FindOwnBlock` | src/blocks/aggregate-blocks.ts:297-317 | the lookup returns an event's own block exactly when that block is kept |
| `UsageBlocks.EventCountsAddUp` | src/blocks/aggregate-blocks.ts:163-173 | the kept blocks' event counts add up to the counted events whose own block is kept |
| `UsageBlocks.TimesFixPlacement` | src/blocks/aggregate-blocks.ts:142-161 | where blocks lie, and their certainty, depends only on the set of times |
| `UsageBlocks.NarrowingKeepsPlaces` | src/blocks/aggregate-blocks.ts:46-52 | narrowed events with the whole stream as context fill the whole stream's places |
| `UsageBlocks.NarrowedBlocksAreWholeBlocks` | src/blocks/aggregate-blocks.ts:46-52 | a narrowed block with a start and certainty exists if and only if the whole stream has it and a narrowed event lies in it |
| `UsageBlocks.OwnContextChangesNothing` | src/blocks/aggregate-blocks.ts:49-50 | events passed as their own context change nothing |
| `UsageBlocks.ToTimedEvents` | src/blocks/aggregate-blocks.ts:69-99 | exactly the sources with counted events get a stream, of their counted and context events by time |
| `UsageBlocks.SortCounted` | src/blocks/aggregate-blocks.ts:94-96 | sorting with context events keeps counted events in the order sorting them alone gives |
| `UsageBlocks.SortIsStable` | src/blocks/aggregate-blocks.ts:94-96 | a stream is sorted by time and keeps the events of each time as they came, none added or lost |
| `IncrementalIngest.StoredRowsAreAWholeRead` | src/persistence/event-store-append.ts:9-13 | under any interleaving of whole and resumed reads and their writes by any number of runs, deletions and writes by older builds: the stored rows are always those of a whole read that ends at the stored cursor when that counts, if and only if each older build's write fits the cursor row it finds |
| `IncrementalIngest.OlderBuildKeepsIff` | src/persistence/event-store-append.ts:9-13 | an older build's write is safe exactly when no cursor row is stored, or it is of another fingerprint, or the read it ends at is the read that was written |
| `IncrementalIngest.OlderBuildCanRepeatRows` | src/persistence/event-store-append.ts:9-13 | a concrete run with an older build's write after which a row is stored twice |
| `IncrementalIngest.WriteStoresWholeRead` | src/persistence/event-store-administration.ts:1165-1242 | a write that is not stale leaves the rows of the whole read it ends at |
| `IncrementalIngest.WriteRecordsVersion` | src/persistence/event-store-append.ts:64-77 | a write that is not stale leaves its own version, and a cursor that counts exactly when it has one |
| `IncrementalIngest.NextRunResumesIff` | src/cli/parse/event-store-parse-cache.ts:260-303 | the next run reads on from the cursor a write left, when it left one and the read can resume there, and else reads the whole file |
| `IncrementalIngest.AppendStoresReportOrNothing` | src/persistence/event-store-append.ts:125-144 | whatever was stored between a run's resumed read and its append, the append leaves exactly the usage the run reports when the version and cursor it resumed are stored, and else changes nothing |
| `IncrementalIngest.MergedDrop` | src/persistence/event-store-append.ts:88-94 | deleting the last rows of each table drops the last events of each kind from the order the tables share |
| `IncrementalIngest.SessionAppended` | src/persistence/event-store-append.ts:113-120 | rows from the next shared index on come after every stored row, in read order |
| `IncrementalIngest.OrderedMeansDistinct` | src/persistence/event-store-append.ts:113-120 | no index is used twice, within a table or across tool calls and messages |
| `IncrementalIngest.UsageAppended` | src/persistence/event-store-append.ts:110-112 | usage rows stay numbered from 0 without a gap |
| `IncrementalIngest.ResumedRunReadsWhole` | src/cli/build-usage-data-parsing.ts:288-333 | a run that resumes reports the whole read's usage and skipped rows, and writes an append that continues it |
| `IncrementalIngest.EventStore.PrepareFileAppend` | src/persistence/event-store-append.ts:130-157 | deletes the replaced rows and gives the next indexes if and only if version and cursor are still stored |
| `IncrementalIngest.EventStore.ReplaceFilesEvents` | src/persistence/event-store-administration.ts:1103-1243 | applies a batch of writes to the tables, in order |
| `IncrementalIngest.EventStore.ApplyWrite` | src/persistence/event-store-administration.ts:1166-1241 | deletes, inserts by index and writes or drops the cursor as the specification says, for its file only |
| `MachineSync.BuildMachineExportLines` | src/machines/machine-export-bundle.ts:134-175 | lists every file with events, and sends those not known at their revision |
| `MachineSync.NextSnapshotIsExported` | src/machines/machine-export-bundle.ts:134-175 | one more snapshot with events is listed at its revision and its events are counted, and it is sent unless the reader holds that very revision; one without events changes nothing |
| `MachineSync.BuiltBundleIsReadBack` | src/machines/machine-export-bundle.ts:483-560 | a bundle is read back as it was built, with shell noise before it and noise that is not JSON after it |
| `MachineSync.CutOffBundleIsRejected` | src/machines/machine-export-bundle.ts:18-22 | a bundle cut off after any number of its lines but all is rejected |
| `MachineSync.AcceptedExportIsValid` | src/machines/machine-export-bundle.ts:479-482 | whatever is read, an accepted export lists each file once and sends only listed files, once, at the listed revision |
| `MachineSync.AcceptedIffWellFormed` | src/machines/machine-export-bundle.ts:479-560 | of the lines: the reader accepts exactly noise, a header, valid file lines, a valid end line and then nothing but text, with no file listed or sent twice and every sent file listed at its revision, and gives what those lines hold |
| `MachineSync.ReadMachineExport` | src/machines/machine-export-bundle.ts:483-560 | the loop and the two checks accept exactly the exports the specification accepts |
| `MachineSync.CheckFiles` | src/machines/machine-export-bundle.ts:535-557 | the maps of listed and sent files decide consistency |
| `MachineSync.AcceptedCacheIsTheList` | src/machines/machine-cache.ts:144-148 | a validated export that is accepted leaves exactly the listed files at their revisions; a rejected one changes nothing |
| `MachineSync.AppliedIff` | src/machines/machine-cache.ts:179-199 | an export the reader accepted is applied exactly when every listed file is sent or cached at the listed revision and together they have as many events as it counts |
| `MachineSync.AcceptedCacheByKey` | src/machines/machine-cache.ts:155-177 | an accepted export leaves a sent file as it was sent and any other file as it was cached, gone only if it had a revision and is not listed |
| `MachineSync.DeltaSyncMirrors` | src/machines/machine-cache.ts:138-221 | an export against the cache's known files is accepted, and makes the cache the exporter's mirror |
| `MachineSync.DeltaSyncEqualsFullSync` | src/machines/machine-cache.ts:138-221 | a delta sync leaves what a full export applied to an empty cache leaves |
| `MachineSync.OnlyChangesAreSent` | src/machines/machine-cache.ts:138-142 | after a sync the next export sends exactly the files with events whose revision the last snapshot did not have, or had without events |
| `MachineSync.EverySyncMirrors` | src/machines/machine-cache.ts:42-49 | after any history of syncs the cache mirrors the last snapshot, also from a cache an older version filled |
| `MachineSync.ExportSurvivesTheShell` | src/machines/machine-export-bundle.ts:130-175 | any exportable snapshots give a bundle the reader accepts through a shell |
| `MachineSync.MachineCache.ApplyMachineExport` | src/machines/machine-cache.ts:149-221 | one transaction: the specified cache when accepted, the old one when not |
| `StatuslineLock.ExclusiveWithoutStaleLocks` | src/cli/run-statusline.ts:365-414 | with no lock judged stale, at most one of any number of ticks has the lock, and none removes another's |
| `StatuslineLock.ExclusiveForTwo` | src/cli/run-statusline.ts:334-363 | two ticks that start from any stale lock never both have the lock, and neither removes the other's, whatever they judge stale |
| `StatuslineLock.StepOfTwo` | src/cli/run-statusline.ts:343-414 | every step of either tick keeps the invariant of two ticks |
| `StatuslineLock.BothHoldFromThreeOn` | src/cli/run-statusline.ts:334-342 | for every number of ticks: some start and run let two hold the lock at once if and only if it is 3 or more |
| `StatuslineLock.ThreeTicksCanBothHold` | src/cli/run-statusline.ts:339-342 | with 3 ticks or more, two that reclaim and one that finds the path free are enough |
| `StatuslineLock.ReleaseFreesOwnLockOnly` | src/cli/run-statusline.ts:376-383 | undisturbed, a tick that releases frees the path exactly when the lock there is its own, and leaves any other as it is |
| `StatuslineLock.StaleLockIsTakenOver` | src/cli/run-statusline.ts:343-410 | a lock whose tick is gone is taken over by a single tick that judges it stale |
| `StatuslineLock.ReclaimFreesJudgedLockOnly` | src/cli/run-statusline.ts:335-363 | undisturbed, a tick that reclaims frees the path exactly when the content and time of the lock there are those it judged stale, and leaves any other lock there |
| `OtlpBatches.BuildBatches` | src/otel-export/otlp-push.ts:242-274 | the running byte count cuts the batches where a count of the real body would |
| `OtlpBatches.BatchesFit` | src/otel-export/otlp-push.ts:241 | every body is within `maxBytes`, or holds one unit |
| `OtlpBatches.BatchesAreCompleteAndFewest` | src/otel-export/otlp-push.ts:241-274 | the bodies hold every unit once, in order, and no grouping in that order that fits has fewer |
| `OtlpBatches.EveryItemIsSentOnce` | src/otel-export/otlp-push.ts:182-274 | over all lines and bodies, every span and every metrics line is sent once, in export order, each unit's text and count being those of its spans |
| `OtlpBatches.TextBytes` | src/otel-export/otlp-push.ts:176-180 | the counted bytes are the length of the text with its commas |
| `OtlpBatches.JoinInOrder` | src/otel-export/otlp-push.ts:176-180 | the text of two lists is that of the first, a comma, and that of the second |
| `OtlpBatches.GreedyFits` | src/otel-export/otlp-push.ts:259-270 | groups that take as much as fits hold every element once, in order, within the bound |
| `OtlpBatches.GreedyIsFewest` | src/otel-export/otlp-push.ts:259-270 | no grouping that keeps the order and fits has fewer groups |
| `OtlpBatches.SplitTracesLine` | src/otel-export/otlp-push.ts:187-218 | the running count cuts a line's pieces where a count of the real body would |
| `OtlpBatches.PiecesAreTheLine` | src/otel-export/otlp-push.ts:182-186 | the pieces hold the line's spans once, in order |
| `OtlpBatches.PiecesAreFewest` | src/otel-export/otlp-push.ts:187-218 | no cut of a line's spans in order into pieces that fit has fewer pieces |
| `OtlpBatches.OversizedPieceIsOneSpan` | src/otel-export/otlp-push.ts:182-186 | a piece whose body alone is too large is a single span |
| `OtlpBatches.ToBatchUnits` | src/otel-export/otlp-push.ts:224-239 | one unit a line, or its pieces when its body alone is too large |
| `OtlpBatches.SplitsOnlyWhatIsTooLarge` | src/otel-export/otlp-push.ts:224-239 | a line is one unit exactly as it is when it is no traces line or its body alone fits; one that does not fit is cut unless it has a single span |
| `OtlpBatches.BatchCountsItems` | src/otel-export/otlp-push.ts:242-274 | a body's item count is that of its units |
| `OtlpBatches.BodiesCountEveryItem` | src/otel-export/otlp-push.ts:224-274 | the bodies' item counts add up to the spans and metrics the lines hold |
| `UsageAggregation.AggregateUsage` | src/aggregate/aggregate-usage.ts:445-563 | the grand total counts every event once, each period's rows and combined row count its events once, one row a period and row key before folding; it fails only for a project without a label |
| `UsageAggregation.Accumulate` | src/aggregate/aggregate-usage.ts:460-483 | every row has the totals, by model too, of exactly the events of its period and key |
| `UsageAggregation.ReportPeriod` | src/aggregate/aggregate-usage.ts:490-541 | rows, folded or not, and the combined row count the period's events once each |
| `UsageAggregation.RowsAddUp` | src/aggregate/aggregate-usage.ts:508-524 | rows that count events once add up to the direct sum of the events |
| `UsageAggregation.RowsRegroup` | src/aggregate/aggregate-usage.ts:228-238 | rows of a source, or of a source's machine, add up to the events of that source and machine |
| `UsageAggregation.RegroupedRowsAgree` | src/aggregate/aggregate-usage.ts:289-380 | split and unsplit, folded and unfolded rows agree on every source and machine and on the whole |
| `UsageAggregation.FoldOtherProjects` | src/aggregate/aggregate-usage.ts:290-380 | folding keeps the counted events and the best projects' rows, and gives each source and machine one row with the count of the projects it folds; with at most one project past the limit it changes nothing |
| `UsageAggregation.KeepProjects` | src/aggregate/aggregate-usage.ts:295-329 | as many projects as the limit are kept, and no other one is ranked before a kept one; by tokens when any project's cost is incomplete |
| `UsageAggregation.CollectProjects` | src/aggregate/aggregate-usage.ts:297-310 | every project's totals are its rows' |
| `UsageAggregation.ProjectTotalsAreItsEvents` | src/aggregate/aggregate-usage.ts:297-310 | a project is ranked by the totals of exactly its events in the period |
| `UsageAggregation.FoldKeepsTheBest` | src/aggregate/aggregate-usage.ts:295-329 | of the rows alone: with at most one project past the limit nothing changes; else as many as the limit are kept, each listed no later than any folded one, by cost unless a row's cost is incomplete, then tokens, then name |
| `UsageAggregation.RankingIsAnOrder` | src/aggregate/aggregate-usage.ts:278-287 | the ranking is a consistent order |
| `UsageAggregation.AddingAnEvent` | src/aggregate/aggregate-usage.ts:89-103 | adding an event is adding its totals, a missing cost making the cost incomplete |
| `UsageAggregation.TotalsAreSums` | src/aggregate/aggregate-usage.ts:89-103 | totals are the sums of the events' figures, the cost that of those that have one, and incomplete exactly when one has none |
| `UsageAggregation.ShareARowIff` | src/aggregate/aggregate-usage.ts:228-262 | two events share a row exactly when they agree on the period and on all that rows are split by |
| `UsageAggregation.RowsShowTheirEvents` | src/aggregate/aggregate-usage.ts:228-262 | before folding every row shows the source, machine and project its events are of |
| `UsageAggregation.ModelsOfUnion` | src/aggregate/aggregate-usage.ts:162-171 | merged totals by model are those of both rows' events |
| `UsageAggregation.MergeModelTotals` | src/aggregate/aggregate-usage.ts:162-171 | the loop adds every model's totals once |

## Left out

- `MachineMerge.MergeByKeys`: the `skews` report, which only names versions that differ, and the cache
  of hashes, which changes no decision.
- `MachineMerge.Merge.RequestsStayDistinct`: speaks of hash and ids together, because of ids alone the
  property is false (see above); `RequestIds.RequestIdsStayUnique` speaks of ids alone.
- `WorkerPool.ParseWorkerPool.constructor`: a worker count below 1 or not finite makes another pool
  that parses every task inline. Reading messages and validating them is a parameter: a message is
  readable or not.
- `WorkerPool.ParseWorkerPool.Dispatch`: which spawn or post throws is a parameter, the number of
  attempts that succeed first. What a caller's promise does after a hand-off is not modelled, and a
  slot is an index rather than an object shared with callbacks.
- `ProjectLabels.BuildProjectLabels`: the order in which labels are inserted into the returned map.
  Cleaning a repository root into a key (src/aggregate/project-key.ts:9-108) and comparing keys
  across operating systems (src/aggregate/project-key.ts:118-148) are string handling without
  deep invariants.
- `UsageBlocks.ChainSourceBlocks`: merging the blocks of several sources into one order, and the
  token totals and model ranking of a block. Burn rate and ranking of blocks are short formulas.
- `IncrementalIngest.EventStore.ReplaceFilesEvents`: SQL text, the columns of a row besides its index
  and content, the table of override-only files, and a transaction that fails halfway. Totals objects
  and rows are values, so sharing them between structures is not captured.
- Ingest: how files are looked up, skipped and scheduled (src/cli/build-usage-data-parsing.ts:352-640),
  and when a file counts as only grown (src/cli/parse/event-store-parse-cache.ts:225-253): a run may
  read any stored file whole, or from its cursor.
- `MachineSync.ReadMachineExport`: JSON parsing and the fields of events and headers; a line is
  blank, not JSON, other JSON, or a bundle line. Which of several errors is reported is not
  modelled.
- `MachineSync.MachineCache.ApplyMachineExport`: the meta values besides the one that says whether
  tool calls, messages and ids were kept, and the counts of files it reports.
- `StatuslineLock.ExclusiveForTwo`: waiting, deadlines and whether a tick ever gets the lock; ticks
  that run unlocked because the lock cannot be created are ticks that exit.
- OTLP: endpoints, headers, retries and sending.
- `UsageAggregation.AggregateUsage`: the order of rows within a period, the ranking of models, the
  wording of a folded row's label, and rounding of costs, which are exact here. Totals, accumulators
  and their maps are values in local variables rather than objects updated in place.
- Configuration, rendering, pricing, diagnostics, pruning, history and the command line: branching
  without deep invariants, or code outside the modelled files.
