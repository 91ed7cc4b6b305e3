# Verified model of the Slurm job-polling core

This project models the part of the crate that submits jobs to Slurm, polls their state
and records how they end, and proves what that part promises.

- **The shared query cache** (`cache_protocol.dfy`, `cache_guarantees.dfy`,
  `cache_refinement.dfy`, `query_cache.dfy`, `cache_stack.dfy`, `query_shapes.dfy`,
  `job_key.dfy`). Any number of concurrent requests share one slot behind a lock. The
  protocol is a transition system with requests that queue, hold, replay, fetch, complete
  or are cancelled at their two await points; its history part records every stamp and
  every completed query. The class `QueryCachingDispatcher` is the code of one call, and
  its contract says that the call is a run of the protocol. A model of the Slurm
  controller over time then shows that asking through the cache is asking directly.
- **The status queries** (`listings.dfy`, `rows.dfy`, `runner.dfy`, `job_status.dfy`).
- **The sbatch handle** (`sbatch_snapshot.dfy`, `sbatch_handle.dfy`, `wait_terminal.dfy`,
  `handle_overlap.dfy`, `tail_reader.dfy`): `refresh`, `refresh_with_sacct` and
  `wait_terminal` as methods over snapshot, store and dispatcher, any sequence of calls,
  and any interleaving of calls on clones.
- **The tssrun handle** (`salloc.dfy`, `tssrun_handle.dfy`, `tssrun_guarantees.dfy`,
  `tssrun_store.dfy`): two tee tasks, the wait task and a caller of `wait` as interleaved
  steps.
- **The manager and the store** (`manager.dfy`, `submission.dfy`, `store.dfy`).
- **The option grammars** (`array_spec.dfy`, `dependency.dfy`, `resource_spec.dfy`,
  `time_limit.dfy`, `log_path.dfy`) on the string operations of `text.dfy`.

Subprocesses, clocks, uuids and the store's failures are parameters: a dispatcher's answer
is an arbitrary function of the call number and the argument vector, a save succeeds or
changes nothing, and a clock never runs backwards.

## Assumptions about the environment

- `CacheRefinement.World`: at one moment a listing for a set of keys holds exactly the
  rows those keys cover, in the controller's order; a plain master job id covers the rows
  of its array tasks; a single key without rows may instead get squeue's
  `Invalid job id specified` exit; any other failure depends on the moment and not on the
  keys (`src/sbatch/squeue_cache.rs:15-25`, `src/runner.rs:514-524`).
- `Submissions.Fresh`: uuids are not minted twice and are not yet in the store.

## Where the code differs from what one might expect

- `refresh_with_sacct` that fails may still have changed the snapshot: its refresh half is
  saved and published before its sacct half can fail. `SbatchSnapshots.FailedCallChanges`
  says exactly when.
- Overlapping `refresh_with_sacct` calls may erase or rewrite a finish, because the sacct
  half goes on with the snapshot its own refresh half returned
  (`HandleOverlap.OverlapMayEraseAFinish`). `HandleOverlap.FinishCanChangeExactlyWhenStale`
  says exactly in which states that can still happen.
- The six log-path passes are not one simultaneous substitution for every template. Doubled
  percent signs are only one way to get a stray percent sign before a token;
  `LogPaths.PassesAreSimultaneousExactlyWhen` gives the exact class of templates.
- Every tssrun change is written through, but not in order: an older clone can be saved
  last (`TssrunGuarantees.StoreMayEndBehind`, and exactly when:
  `TssrunStore.StoreCanEndBehindExactly`).
- A step of zero, possible only in a hand-made array entry, makes the expansion loop run
  forever exactly when the range is not empty
  (`ArraySpecs.LoopsForeverExactlyWhenStepIsZero`).
- The documentation of the resource list asks for all of `p`, `t`, `c` and `m`
  (`src/entities/slurm/sbatch_options/resource_spec.rs:136-151`); the code accepts any
  nonempty subset, and so does the model.
- Rust's unsigned `parse` accepts one leading `+`, so `after:200++5` is a delay of five
  minutes and `+3-+4` an array range. The model accepts them too.
- `128 + signal` in `parse_sacct_exit_code` can overflow `i32`. The model wraps, as a build
  without overflow checks does; a build with them panics there
  (`JobStatuses.ExitCodeMeans`).

## Model

| member | source | states |
|---|---|---|
| `CacheProtocol.StepPreserves` | src/sbatch/query_cache.rs:216-271 | every step of the protocol, under any clock readings, answers and cancellations, keeps the invariant: one lock holder, stamps and registry agree, the entry is the last completed query, every batch is exact, every answer has its query |
| `CacheProtocol.ReachableSatisfiesInv` | src/sbatch/query_cache.rs:216-271 | the invariant holds after every run |
| `CacheGuarantees.AtMostOneQueryInFlight` | src/sbatch/query_cache.rs:220-231 | in every reachable state at most one request is asking the inner dispatcher |
| `CacheGuarantees.StoredResultAnswersStoredKeys` | src/sbatch/query_cache.rs:259-269 | the stored result is an inner answer to the query built from exactly the stored key set, which has only one sorted batch |
| `CacheGuarantees.EveryAnswerWasAskedFor` | src/sbatch/query_cache.rs:237-242 | every answer comes from a completed query that asked about all the requested keys: the caller's own, or one completed less than ttl before |
| `CacheGuarantees.BatchIsExact` | src/sbatch/query_cache.rs:233-258 | a fetched batch is strictly sorted and is the requested keys and the keys stamped less than 2 x ttl ago; a key is judged at some moment between the entry check and the end of pruning |
| `CacheGuarantees.ZeroTtlDisablesCaching` | src/sbatch/query_cache.rs:250-256 | with ttl zero every query asks for just its own keys and every answer is the caller's own |
| `CacheGuarantees.CancellationLeavesTheCache` | src/sbatch/query_cache.rs:224-232 | a dropped request leaves entry and registry as they were, frees the lock and touches no other request |
| `CacheGuarantees.SomeStepIsEnabled` | src/sbatch/query_cache.rs:224-232 | while a request is pending, some step that is no arrival and no cancellation is enabled |
| `CacheGuarantees.RunsAreBounded` | src/sbatch/query_cache.rs:216-271 | without new arrivals every run ends within a bound |
| `CacheGuarantees.PendingRequestsCanBeAnswered` | src/sbatch/query_cache.rs:224-232 | from every such state all pending requests can be answered without a cancellation: no deadlock |
| `CacheGuarantees.LoadBound` | src/sbatch/query_cache.rs:243-249 | when all requests from some point on are for known keys and each key is requested again and again at gaps below 2 x ttl, a query starts at least ttl after the previous completed one |
| `CacheGuarantees.CompletionsPerWindow` | src/sbatch/query_cache.rs:243-249 | so at most 1 + T / ttl queries complete within time T of such requests |
| `CacheRefinement.BatchedLooksDirect` | src/sbatch/squeue_cache.rs:8-25 | a handle's lookup makes the same of a batched answer and of a direct answer about the same moment: same failure, same vanish, same row |
| `CacheRefinement.ControllerAnswersEverything` | src/sbatch/squeue_cache.rs:15-25 | the assumed controller has an answer to every query, so the progress theorems apply to it |
| `CacheRefinement.CachedAnswerIsDirect` | src/sbatch/query_cache.rs:216-271 | in every run, what a handle makes of a cached answer is what it makes of any direct answer about the moment of the query behind it: its own, or one completed less than ttl before |
| `QueryCache.QueryCachingDispatcher.Capture` | src/sbatch/query_cache.rs:216-271 | other argument vectors pass through unchanged; a query of the shape is a run of the protocol, between the clock readings before and after the call, that ends with the caller answered by a replay without any spawn or by one query for the prescribed batch; the answer comes from a query for all the requested keys, the own one or one younger than ttl when the call began |
| `QueryCache.QueryCachingDispatcher.RetainRecent` | src/sbatch/query_cache.rs:248-249 | pruning keeps exactly the keys younger than 2 x ttl, each at its own clock reading |
| `QueryShapes.ParseOfBuild` | src/sbatch/squeue_cache.rs:58-82 | each shape recognises what it builds and reads back the same batch |
| `QueryShapes.ShapesAreDisjoint` | src/sbatch/sacct_cache.rs:66-90 | no argument vector is recognised by two shapes |
| `CacheStack.StackActsAsOneLayer` | src/sbatch/manager.rs:73-86 | a stack of layers in any order acts like the one layer that recognises the request |
| `CacheStack.DecisionIsARun` | src/sbatch/query_cache.rs:233-258 | what a layer decides is what the protocol does for a request that finds the slot free: the same slot, the same replay or the same batch |
| `CacheStack.SessionsAgree` | src/sbatch/manager.rs:73-86 | over every request sequence, any two orders of the three layers spawn the same commands, give the same answers and leave the same slots |
| `CacheStack.CacheIsCoherent` | src/sbatch/qgroup_cache.rs:37-43 | the three cache layers meet the condition: none recognises another's requests or built queries |
| `CacheStack.ManagerOrderIsImmaterial` | src/sbatch/manager.rs:73-86 | in particular the order in which the manager stacks the caches does not matter |
| `JobKeys.KeyRoundTrip` | src/sbatch/query_cache.rs:66-108 | a printed key parses to itself and holds no comma |
| `JobKeys.PrintKeyIsInjective` | src/sbatch/query_cache.rs:101-108 | different keys print differently |
| `JobKeys.CsvRoundTrip` | src/sbatch/query_cache.rs:82-98 | every nonempty batch is read back from its list |
| `JobKeys.BuildCsv` | src/sbatch/query_cache.rs:87-98 | the loop that joins a batch builds a list that is read back as that batch |
| `JobKeys.BatchOf` | src/sbatch/query_cache.rs:250-258 | sorting and deduplicating gives a strictly sorted batch of exactly the kept and the requested keys |
| `JobKeys.SortedBatchIsUnique` | src/sbatch/query_cache.rs:257-258 | a key set has one sorted batch |
| `Listings.ReadListing` | src/runner.rs:234-263 | a parsed listing maps exactly the ids with a row, each to its last row |
| `Listings.OtherRowsDoNotInterfere` | src/runner.rs:265-298 | rows of other jobs, steps and garbage can be added anywhere without changing what is said of an id |
| `Listings.FindTask` | src/runner.rs:565-584 | a task lookup gives the first row of the task, and nothing exactly when there is none |
| `Listings.OtherTasksDoNotInterfere` | src/runner.rs:598-630 | rows of other tasks can be added anywhere |
| `Runner.QueryStates` | src/runner.rs:130-209 | the bulk query: keys are exactly the input ids; id by id the outcome is that of the last row of squeue's answer, else of the last row of sacct's answer, else Unknown without a code; squeue is asked once for the distinct ids and sacct once for exactly the missing ones, or not at all; a failed query is the result |
| `Runner.DedupeKeepsFirstOccurrences` | src/runner.rs:211-214 | distinct ids stay in the order of their first occurrence |
| `Runner.Merge` | src/runner.rs:634-650 | each input id has its active outcome, else its historical one, else Unknown without a code |
| `Rows.SameStatusesInBothForms` | src/runner.rs:313-367 | the sacct forms with and without exit codes read the same statuses from the same records |
| `Rows.ExitCodesDoNotChangeStatuses` | src/runner.rs:61-209 | so both bulk queries resolve every id to the same status |
| `Rows.RecordIsRead` | src/runner.rs:265-345 | an accounting record is read with its own columns as job id, state, reason and exit code; records of steps and of array tasks are rows of no job |
| `Rows.TaskRecordIsRead` | src/runner.rs:598-630 | the record with the key of an array task is read the same way, and no other |
| `Rows.SqueueLineIsRead` | src/runner.rs:234-263 | a squeue row is read with its words as id, state and reason, for jobs and for array tasks |
| `Rows.QgroupLineIsRead` | src/runner.rs:369-399 | a qgroup row names the job in its third column and the state in its fourth, and a zero there names none |
| `JobStatuses.ExitCodeMeans` | src/sbatch/parse.rs:115-124 | the column gives the exit code without a signal, and 128 + signal exactly as long as that fits in `i32` |
| `JobStatuses.LiveStates` | src/entities/slurm/status.rs:100-117 | which states are not terminal |
| `SbatchHandle.SbatchJobHandle.Refresh` | src/sbatch/handle.rs:344-406 | a successful refresh records the status of the row that decides (squeue's first task row; for other jobs qgroup's last row, or squeue's when there is none), or the vanish without a row; which queries are asked in which order, how many saves are made, and exactly what is stored |
| `SbatchHandle.SbatchJobHandle.RefreshWithSacct` | src/sbatch/handle.rs:434-526 | after a successful refresh of a job that looks done without a finish, the outcome accounting gives is recorded: terminal, or Unknown with a code, as the finish with its own state, reason, code and moment; live as the status with the vanish taken back; none changes nothing; with the exact queries and saves, and every failure |
| `SbatchHandle.SbatchJobHandle.AskAccounting` | src/sbatch/handle.rs:453-490 | exactly what is asked for a task and for a single job, and the accounting outcome of the answers |
| `SbatchHandle.SbatchJobHandle.AccountingTells` | src/sbatch/handle.rs:453-490 | that outcome is the one of sacct's first row of a task, and for other jobs of squeue's last row, else of sacct's last row, else Unknown without a code |
| `SbatchHandle.VanishNeedsCleanSqueue` | src/sbatch/handle.rs:354-390 | a job is seen to vanish exactly when squeue answered cleanly or with the vanish exit and has no row of it, and qgroup had none |
| `SbatchHandle.RefreshNeverAsksSacct` | src/sbatch/handle.rs:344-406 | no query of a refresh is for sacct |
| `SbatchHandle.SbatchJobHandle.WaitTerminal` | src/sbatch/handle.rs:537-571 | the verdict is that of the refreshes that follow one another from where the handle stands: the first that shows a terminal state or the vanish, or the fifth of five failures in a row; the handle ends exactly after that refresh, with the queries of those refreshes and no others, none of them for sacct |
| `WaitTerminals.WaitEndsAtFirstEnd` | src/sbatch/handle.rs:537-571 | the loop returns at the first ending poll with its outcome, and any number of failures is tolerated otherwise |
| `WaitTerminals.WaitIsFirstEnd` | src/sbatch/handle.rs:537-571 | an ending poll is one that shows a terminal last state or the vanish, or five failures in a row up to it; the rule determines the verdict |
| `WaitTerminals.LaterPollsDoNotMatter` | src/sbatch/handle.rs:537-571 | the verdict does not depend on later polls |
| `SbatchSnapshots.CallsKeepTheFinish` | src/sbatch/handle.rs:436-526 | over any sequence of calls the identity stays, a finish is never a live state, and once set it never changes |
| `SbatchSnapshots.NoSacctAfterFinish` | src/sbatch/handle.rs:436-446 | after a finish no call asks sacct |
| `SbatchSnapshots.VanishFlagHistory` | src/sbatch/handle.rs:354-405 | the vanish flag is set exactly when some call saw a clean vanish and no call since took it back |
| `SbatchSnapshots.FailedCallChanges` | src/sbatch/handle.rs:434-526 | a failed call changes the snapshot exactly when its refresh half was saved and the snapshot did not already show that status or vanish at that moment; and to what |
| `SbatchSnapshots.FailedCallMayChangeTheSnapshot` | src/sbatch/handle.rs:434-526 | a failing call that does change it |
| `HandleOverlap.OverlappingCallsAreSafe` | src/sbatch/handle.rs:344-526 | however calls on clones overlap: store and watch agree whenever the lock is free, identity stays, and no finish is a live state |
| `HandleOverlap.OneSectionAtATime` | src/sbatch/handle.rs:344-453 | at most one call is inside a locked section |
| `HandleOverlap.OnlyStaleSettlementsTouchAFinish` | src/sbatch/handle.rs:435-526 | one step changes a finish exactly when it publishes a settlement with another finish, and that settlement began from a snapshot without one |
| `HandleOverlap.FinishCanChangeExactlyWhenStale` | src/sbatch/handle.rs:434-526 | from a state with a finish, some continuation changes it if and only if some call waits to settle, is settling, or has saved a settlement with another finish |
| `HandleOverlap.OverlapMayEraseAFinish` | src/sbatch/handle.rs:435-453 | two overlapping calls that erase a finish |
| `HandleOverlap.WithoutOverlapTheFinishIsWrittenOnce` | src/sbatch/handle.rs:434-526 | calls that do not overlap write it once |
| `TailReader.ReadLastLines` | src/sbatch/handle.rs:638-670 | for every content, n and chunk size: exactly the last n lines of the file, with a buffer of at most (n + 1) x (L + 1) + chunk bytes |
| `TailReader.EnoughIsShown` | src/sbatch/handle.rs:617-637 | a suffix with more than n newlines shows the last n lines of the whole |
| `LogPaths.ResolveLogPath` | src/sbatch/parse.rs:80-102 | the six passes; simultaneous substitution for safe templates |
| `LogPaths.PassesAreSimultaneousExactlyWhen` | src/sbatch/parse.rs:80-102 | for which templates the passes are the simultaneous substitution for all values without percent signs: those without a stray percent sign before `%u`, nor before `%x` when there is a name |
| `LogPaths.TokensStandFor` | src/sbatch/parse.rs:80-102 | what each of the six tokens stands for, and that a token without a value stays |
| `LogPaths.StrayBreaksAgreement` | src/sbatch/parse.rs:80-102 | values that break every other template |
| `LogPaths.PercentInAValueIsSubstitutedAgain` | src/sbatch/parse.rs:80-102 | a value with a percent sign is substituted a second time |
| `TssrunHandle.StepPreserves` | src/tssrun/handle.rs:132-211 | every step of every task keeps the invariant |
| `TssrunHandle.RunPreserves` | src/tssrun/handle.rs:132-211 | so does every interleaving, and the watch's past is never rewritten |
| `TssrunGuarantees.FieldsAreWrittenOnce` | src/tssrun/handle.rs:440-460 | job id, node and finish are written once: every later value of the watch extends every earlier one |
| `TssrunGuarantees.AtMostThreeChanges` | src/tssrun/handle.rs:178-186 | the watch changes at most three times |
| `TssrunGuarantees.WaitReturnsTheWholeStory` | src/tssrun/handle.rs:277-292 | when `wait` returns a code, the finish holds that code, both streams are consumed, and job id and node are the first that parse in the interleaving of the two streams |
| `TssrunGuarantees.ExitIsRecorded` | src/tssrun/handle.rs:171-187 | the exit is recorded with its code and moment, and nothing else changes |
| `TssrunGuarantees.JobidIsKnownExactlyWhenRead` | src/tssrun/handle.rs:277-292 | the job id is then known exactly when some consumed line names one |
| `TssrunGuarantees.NodeIsKnownExactlyWhenRead` | src/tssrun/handle.rs:277-292 | and likewise the node |
| `TssrunGuarantees.SavedValuesWereHeld` | src/tssrun/handle.rs:459-466 | every saved value is one the watch held |
| `TssrunGuarantees.FinalValueIsSaved` | src/tssrun/handle.rs:126-131 | with a store and no failed save, the final value has been saved when the tasks have ended |
| `TssrunGuarantees.StoreMayEndBehind` | src/tssrun/handle.rs:186-196 | a run without a failed save after which the store's last value lacks the finish |
| `TssrunStore.StoreCanEndBehindExactly` | src/tssrun/handle.rs:186-196 | once the exit is recorded, some completion without a failed save leaves the finish out of the store if and only if a tee task is about to save a clone from before it |
| `TssrunGuarantees.LaterWaitsFail` | src/tssrun/handle.rs:277-278 | after one call of `wait`, whatever became of it, every later one fails with NotOwner and changes nothing |
| `TssrunGuarantees.TasksAreNeverStuck` | src/tssrun/handle.rs:277-292 | while a task or a `wait` is under way some step is enabled that is no failure, no new call and no dropped call |
| `TssrunGuarantees.PendingWaitCanReturn` | src/tssrun/handle.rs:277-292 | a pending `wait` whose child has not been lost returns an exit code at the end of a run of such steps |
| `TssrunGuarantees.StepsShortenTheWork` | src/tssrun/handle.rs:437-474 | every step but a failing `wait` brings the end nearer |
| `Sallocs.JobidOfBanner` | src/tssrun/parse.rs:13-17 | every job id is read back from its banner |
| `Sallocs.NodeOfBanner` | src/tssrun/parse.rs:22-26 | the node is the text before the first marker |
| `Submissions.SubmittedJobidIsRead` | src/sbatch/parse.rs:30-44 | the job id is found behind any lines that name none, whatever follows its digits |
| `SbatchManagers.SbatchManager.SpawnArray` | src/sbatch/manager.rs:203-275 | one submission; one new snapshot per expanded index, in declaration order, with that index as task id, the printed job id, fresh uuid and time, the command's own settings and nothing observed; on a failing save exactly the tasks before it are stored; each error path |
| `SbatchManagers.SbatchManager.Spawn` | src/sbatch/manager.rs:141-187 | one submission and one stored snapshot without a task id, with the printed job id and the command's own settings, or the error and nothing stored |
| `SbatchManagers.SubmitGoesOnExactly` | src/sbatch/manager.rs:141-163 | when a submission goes on, and which failure is reported otherwise |
| `SbatchManagers.SbatchManager.AttachJobid` | src/sbatch/manager.rs:277-321 | attaching by job id on whatever listing the store gives |
| `SbatchManagers.SbatchManager.AttachArrayJobid` | src/sbatch/manager.rs:342-360 | attaching to an array on whatever listing the store gives |
| `Submissions.SpawnThenAttach` | src/sbatch/manager.rs:342-360 | on any listing: exactly the new tasks, sorted by task id; by job id alone the task, nothing, or a multiple match with their number |
| `Submissions.SpawnedTasksAreFoundByUuid` | src/sbatch/manager.rs:277-316 | after a spawn each task is found by its uuid if it was saved and is not found otherwise, and older snapshots are found as they were |
| `Submissions.SpawnedArrayCanBeAttached` | src/sbatch/manager.rs:203-360 | the same of the store that a spawn leaves, after any failing save; a multiple match exactly when the specification stands for more than one index |
| `Submissions.SpawnedIdsComeBack` | src/sbatch/manager.rs:203-360 | spawn then attach gives exactly the task ids within the bounds and on the steps of the declared entries, each as often as declared |
| `Submissions.AscendingSpawnComesBackInOrder` | src/sbatch/manager.rs:354-356 | tasks declared in ascending order come back as they were spawned |
| `Stores.SnapshotStore.List` | src/store.rs:100-106 | every stored snapshot once, in no promised order |
| `Stores.FindAllFinds` | src/store.rs:47-54 | finding by job id gives exactly the snapshots of that job |
| `ArraySpecs.RoundTripExactly` | src/entities/slurm/sbatch_options/array_spec.rs:62-171 | printing and parsing gives a specification back exactly when it is well formed |
| `ArraySpecs.PrintOfAcceptedMeansTheSame` | src/entities/slurm/sbatch_options/array_spec.rs:82-171 | every accepted text prints to one that means the same |
| `ArraySpecs.Display` | src/entities/slurm/sbatch_options/array_spec.rs:62-79 | the printing loop makes the joined text |
| `ArraySpecs.ExpandArrayIndices` | src/sbatch/parse.rs:131-155 | the loops give the expansion and end, without overflow in `u32`, on every specification but those on which the source loops forever |
| `ArraySpecs.ParsedSpecExpands` | src/sbatch/parse.rs:131-155 | each entry of a parsed specification adds, in declaration order, exactly start + k x step for 0 <= k <= (end - start) / step |
| `ArraySpecs.InExpansion` | src/sbatch/parse.rs:131-155 | an index is in the expansion exactly when it lies within an entry, on its step |
| `ArraySpecs.LoopsForeverExactlyWhenStepIsZero` | src/sbatch/parse.rs:142-151 | the stepped loop does not end exactly on a nonempty range with step zero |
| `Dependencies.RoundTripExactly` | src/entities/slurm/sbatch_options/dependency.rs:188-307 | exactly the well-formed dependencies survive print and parse, and exactly those are ever parsed |
| `Dependencies.PrintOfParseIsCanonical` | src/entities/slurm/sbatch_options/dependency.rs:188-307 | printing what was parsed is idempotent and keeps the meaning |
| `Dependencies.KeywordsMean` | src/entities/slurm/sbatch_options/dependency.rs:60-76 | what each keyword of the grammar means |
| `Dependencies.Display` | src/entities/slurm/sbatch_options/dependency.rs:188-200 | the printing loop makes the joined text |
| `Dependencies.DisplayClause` | src/entities/slurm/sbatch_options/dependency.rs:125-133 | so does the loop over job references |
| `ResourceSpecs.FromStr` | src/entities/slurm/sbatch_options/resource_spec.rs:283-347 | the token loop with its early exits computes the specified result |
| `ResourceSpecs.AgreesWithFromParts` | src/entities/slurm/sbatch_options/resource_spec.rs:210-347 | a text is accepted exactly when its tokens are known keys, none repeated, and the typed constructor accepts their values; both give the same specification |
| `ResourceSpecs.FromPartsFailsExactly` | src/entities/slurm/sbatch_options/resource_spec.rs:210-237 | when the typed constructor fails, and with which error |
| `ResourceSpecs.TokenOrderIsImmaterial` | src/entities/slurm/sbatch_options/resource_spec.rs:283-347 | permuting the tokens changes neither acceptance nor result |
| `ResourceSpecs.CollectMeansSays` | src/entities/slurm/sbatch_options/resource_spec.rs:283-325 | the five variables hold exactly what the tokens say, without regard to order |
| `ResourceSpecs.RoundTripExactly` | src/entities/slurm/sbatch_options/resource_spec.rs:239-347 | every specification comes back except the one that asks for nothing, and that one is never parsed |
| `ResourceSpecs.MemoryRoundTrip` | src/entities/slurm/sbatch_options/resource_spec.rs:84-125 | every memory size is read back from its text |
| `ResourceSpecs.BareNumberIsMega` | src/entities/slurm/sbatch_options/resource_spec.rs:107-111 | a number without a unit counts mebibytes |
| `TimeLimits.AcceptedExactly` | src/entities/slurm/sbatch_options/time_limit.rs:103-154 | a text is accepted with a limit exactly when it is one of the six forms with numeric components and that duration |
| `TimeLimits.RejectedExactly` | src/entities/slurm/sbatch_options/time_limit.rs:150-153 | well-formed components are rejected exactly when they add up to zero or to 2^32 or more |
| `TimeLimits.FormsAreRead` | src/entities/slurm/sbatch_options/time_limit.rs:115-148 | each of the six forms is read as its duration, without overflow in `u64` |
| `TimeLimits.RoundTrip` | src/entities/slurm/sbatch_options/time_limit.rs:62-91 | every limit is read back from its zero-padded form with unbounded hours |
| `TimeLimits.PrintedWidths` | src/entities/slurm/sbatch_options/time_limit.rs:82-91 | minutes and seconds are printed with two digits, hours with two or more |
| `TimeLimits.PrintIsCanonical` | src/entities/slurm/sbatch_options/time_limit.rs:82-91 | two accepted texts print alike exactly when they have the same duration |

## Left out

- Python bindings, stubs and scripts: calls into the code modelled here.
- Subprocess spawning, log sinks, `/proc`, environment lookup and file reading: an arbitrary answer, a byte sequence, or a parameter stands for them.
- The JSON files and schema checks of the file store, and attaching by a snapshot file: the store is a map from uuid to snapshot.
- Error texts, tracing, `Drop` warnings, trait facades and adapters: errors are datatypes.
- The tables of state and reason tokens: `StateTable` is an arbitrary function from tokens to states, and a reason is its text.
- `--signal`, mail types, `build_argv` and the path of the script: smaller relatives of the grammars here; the argument vector and the absolute path are parameters of `Command`.
- UTF-8 decoding and carriage returns in the tail reader: they act on each line by itself.
- `JobHandleCommon`, `run`, `run_with` and `cancel` of the manager: sequences of the operations modelled.
- `refresh` and `wait_terminal` of the tssrun handle: the first copies the store back into the watch, so the write-once results are about a handle without it.
- A panic or abort of a tssrun task: `wait` would report it as another error.
- Dropping a call in the middle of a save: a save is one step that succeeds or changes nothing.
- SbatchHandle.SbatchJobHandle.WaitTerminal: seen up to an arbitrary number of polls, because the loop need not end; sleeping is not modelled.
- QueryCache.QueryCachingDispatcher.Capture: one call at a time; what concurrent calls do is the subject of `CacheProtocol`.
- CacheGuarantees.BatchIsExact: the exactness is between two clock readings, because pruning reads the clock once per key.
- CacheStack.DecisionIsARun: prunes the whole registry at one clock reading, one of the cases the protocol allows.
- SbatchManagers.SbatchManager.SpawnArray: handles are represented by their first snapshots, and a specification on which the expansion would loop forever is excluded.
- ArraySpecs.ExpandArrayIndices: excludes exactly the entries with a nonempty range and a step of zero, on which the source does not end.
- LogPaths.PassesAreSimultaneousExactlyWhen: is about job names and users without percent signs; with them the passes may or may not agree, as the values happen to combine.
