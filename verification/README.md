# Closing and rerunning syncs: a verified model

A sync holds files, a file holds entities, and map changesets touch entities. When a changeset is uploaded
its entities become completed; three queues of closure jobs then close the files whose entities are all
closed and the syncs whose files are all completed. A failed sync can be rerun: one transaction records every
entity in a history table, reopens what was not done and inserts a rerun with the next run number.

The project models these operations as one state machine and proves what they keep in every reachable state,
for every interleaving of client requests, reruns and jobs.

## How it is built

- **Tables and requests.** `Types` has the rows. `Statements` gives each SQL statement, and the rerun
  transaction, as a function on four tables (maps from primary key to row); `Requests` gives the client
  operations of the sync, file and entity managers. A `NULL` total is `None`, which equals no count.
- **The same operations, as the program runs them.** `Database` is a class whose fields are the tables.
  `Repositories`, `Managers`, `BullQueue` and `Workers` are methods with loops over rows, jobs and ids that
  update those fields, the queues and the batch array in place. Each method's contract equates the new state
  with the function of the old one, error paths included, so the theorems about the functions hold of them.
- **The machine.** `Protocol` has the state (tables and three queues), the events, the step function, runs,
  and the hypotheses on clients as predicates on events.
- **Proofs.** `Invariant`, `ClientSteps`, `EntityWrites`, `ClosureSteps`, `RerunSteps` and `Reachable` prove one
  invariant of the tables over all runs. `Safety`, `BaseClosure`, `FullSyncs`, `NoLoss`, `Drain`, `Dangling`,
  `Hashing`, `Batching`, `Merging` and `Retry` derive the promises; `Promises` states the main ones over whole
  runs from the empty state. `Effects` says what each operation does with its rows, statuses and conditions
  written out, apart from the functions that compute them. `CounterRuns` has runs that meet the hypotheses on clients and break what one may
  expect all the same; `Counterexamples` has a state outside them.

## Hypotheses

The code enforces none of these; each is a predicate or a parameter of the model, never built into an operation.

- H1 New syncs have no base, run number 0 and are not completed; new files are in progress (`Protocol.Admitted`).
- H2 A total that is set stays, and no request gives a file more entities, or a sync more files, than its total
  (`Protocol.KeepsTotals`). A total that is missing may be set at any time, on a base and on a rerun. Draining
  needs none of this: `Drain.Steady` is the exact condition, and H2 implies it.
- H3 A sync patch leaves the status or takes it from in progress to failed; an entity patch reopens no closed
  entity (`Protocol.KeepsClosed`). Two lemmas need patches that also keep completed entities completed
  (`NoLoss.CompletedKept`), and say so.
- H4 Bulk file creation is not aimed at a rerun.
- H5 The file and sync queues are not batched (`Workers.Tracker.Valid`), because their workers read the job's id only.
- H6 Each request, and each transaction with the push after it, is one step.

## What the proofs found

- A rerun's history query leaves out every entity whose *entity id* has a completed history row, in whichever
  file. Everything the reset wipes is recorded if and only if no entity up for the reset shares its id with one
  recorded as completed (`NoLoss.WipedIsRecordedExactly`). It fails when two files of a base share an entity id
  (`CounterRuns.SharedIdLosesOutcome`), and when a patch takes a completed entity back to not synced, which
  H3 in its plain form allows (`CounterRuns.DemotedEntityLosesOutcome`).
- "All reruns but the last have failed" holds for totals other than zero: a closure attempt on an earlier failed
  rerun's own id completes it exactly when its total is 0 (`Safety.ZeroTotalReopensNumbering`).
- When an attempt leaves a base completed, its rerun in progress stays open if and only if it has another total
  (`Safety.OtherTotalStaysOpen`). Clients can get there: a rerun copies a missing total, and then base and rerun
  are patched to different totals (`CounterRuns.PatchedRerunStaysOpen`). A rerun created after its base got a
  total never stays in progress under the completed base (`Promises.RerunEndsWithBaseAlways`).
- The order of the jobs matters exactly when a row that stays open at the end can be closed midway: its total lies
  between the present and the final number of completed files of the sync attempted
  (`Drain.DrainsAgreeExactly`, for every state). `Counterexamples.OvershootDependsOnOrder` has such a state.
- A patch of layer or geometry is not checked against full syncs, so two of them can meet; they stay unique if and
  only if the patch moves none to the place of another (`FullSyncs.PatchKeepsFullExactly`).
- On a sync with reruns a single creation refuses every entity that exists, also one the rerun has reset; a bulk
  creation of that one entity accepts it (`EntityWrites.CreateIsBulkOfOne`). Otherwise the two agree.
- The set-at-a-time update of dangling files agrees with one closure attempt a file except on files with a total
  of 0 and no closed entity (`Dangling.UpdateIsAllAttemptsExactly`); after the sweep of a rerun there are none left.
- The comment on the reset says "not completed or inrerun already"; the code leaves not synced entities alone as
  well, unless the rerun asks for them. The model follows the code.
- The `previouslyCompleted` answer of a bulk creation lists every requested entity that exists and is not in
  rerun, whatever its status (`EntityWrites.AnswerSplits`).
- The text under the batch digest is the same for all permutations of a batch of ids of one length if and only
  if the locale order tells all of them apart (`Hashing.CanonicalExactly`).

The batch text joins ids without a separator. On an empty queue a request loses nothing if and only if the texts of
its batches differ (`Merging.RequestIsCoveredExactly`). The service accepts uuids only, which have one length, and
then they always differ (`Merging.OneLengthKeepsApart`).

## Model

| member | source | states |
|---|---|---|
| Promises.CompletedIsClosedAlways | src/sync/DAL/syncRepository.ts:247-383 | in every reachable state a completed sync or rerun has as its total the completed files of its base, all of that base's files are completed, and no open entity sits under a completed file, sync or rerun |
| Promises.DrainsAgreeAlways | src/queueProvider/workers/changesetsWorker.ts:41-69 | from every reachable state, any order of the waiting jobs that empties the queues ends in the tables of the one-pass specification, within the measure's number of jobs |
| Promises.RerunNeverRepeatsKey | src/sync/models/syncManager.ts:94-152 | in every reachable state a rerun request succeeds if and only if its id is new and the base and its last rerun have failed; the history insert and the sync insert never hit a primary key |
| Promises.RerunLosesNothingAlways | src/sync/DAL/syncRepository.ts:338-359 | when patches keep completed entities and ids are unique in the base, every entity row a rerun changes was recorded exactly, in the same transaction, under the run that ends |
| Promises.HistoryStaysAlways | src/sync/DAL/syncRepository.ts:61-97 | a history row of a reachable state is there unchanged after any later run |
| Promises.HistoryIsSoundAlways | src/sync/DAL/syncRepository.ts:68-97 | in every reachable state each history row belongs to a live entity, none is in rerun, and an entity of a file has at most one completed row over the base and all reruns |
| Promises.RerunsAreOrderedAlways | src/sync/models/syncManager.ts:109-149 | in every reachable state the reruns of a base carry exactly the numbers 1 to n, and a created rerun is number n+1, copies the base's total and details, and starts while no other rerun is in progress |
| Promises.RerunEndsWithBaseAlways | src/sync/DAL/syncRepository.ts:262-271 | a rerun created after its base got a total is never in progress under the completed base, in any later state |
| Effects.RerunResets | src/sync/DAL/syncRepository.ts:118-137 | a created rerun makes exactly the base's entities in progress or failed, and the not synced ones on request, in rerun without changeset, action or reason, and changes no other row |
| Effects.RerunRecords | src/sync/DAL/syncRepository.ts:61-97 | the history after a created rerun has the rows there were and, under the ending run, the snapshot of each base entity not in rerun whose id no run of the base recorded as completed |
| Effects.RerunFiles | src/sync/DAL/syncRepository.ts:20-156 | a created rerun deletes exactly the base's files without entities, reopens on request exactly those with a not synced entity, and otherwise completes exactly the open ones whose positive closed count is their total |
| Effects.SweepClosesBaseExactly | src/sync/DAL/syncRepository.ts:289-322 | in any tables, the transaction closes the base instead of rerunning it if and only if a file of the base has no entity and the total is the number of completed files that have one |
| Effects.TransactionFailsExactly | src/sync/DAL/syncRepository.ts:324-383 | in any tables, the transaction fails if and only if the rerun's id or the key of a row to be recorded exists |
| Effects.GuardsRefuse | src/sync/models/syncManager.ts:97-149 | which error each failed guard gives, in their order, and what the request holds when all pass |
| Effects.CompletionIsExact | src/changeset/DAL/changesetRepository.ts:20-26 | completing a changeset gives exactly its entities the status completed and changes nothing else |
| Effects.CompletedChangesetCloses | README.md:23-26 | when a file's entities are all there and each is closed or belongs to a changeset with a waiting job, completing the changeset and draining completes the file |
| Effects.FoundExactly | src/entity/DAL/entityRepository.ts:55-66 | a file is found if and only if it is in progress and holds an entity whose changeset is among the given ones |
| Effects.JobSendsExactly | src/queueProvider/workers/changesetsWorker.ts:41-69 | a changeset job leaves a file job for exactly the files that had one or hold, in progress, an entity of its changesets, and the jobs of other files as they were |
| Effects.DrainClosesExactly | src/file/DAL/fileRepository.ts:55-78 | a drain of a steady state completes a file if and only if its total is its closed count and a job waits for it or for a changeset that touches it in progress |
| Effects.DrainClosesSyncsExactly | src/sync/DAL/syncRepository.ts:247-277 | a drain of a steady state completes a sync row if and only if its total is the final count of a sync that had a job or a file completed, the row being that sync or its rerun in progress |
| Effects.FileClosesExactly | src/file/DAL/fileRepository.ts:55-78 | an attempt completes its file if and only if it is not completed and its total is the number of its completed and not synced entities, and changes nothing else |
| Effects.SyncClosesExactly | src/sync/DAL/syncRepository.ts:247-277 | an attempt completes exactly its sync, unless completed, and the reruns in progress, whose total is the number of completed files |
| Effects.SyncCreatedExactly | src/sync/models/syncManager.ts:43-70 | a sync is stored as posted, or refused for an existing id, or when full for a full sync of its layer and geometry |
| Effects.SyncPatchStores | src/sync/models/syncManager.ts:72-82 | each given property of a patch is stored, each missing one stays, and base, run number, full flag and other syncs stay too |
| Effects.FileCreatedExactly | src/file/models/fileManager.ts:24-46 | a new file is stored on the sync or, for a rerun, on its base; an existing one is left if it is the same on the base of a rerun, and else refused |
| Effects.FilesCreatedExactly | src/file/models/fileManager.ts:48-83 | bulk creation stores every requested file with its own row on the named sync and nothing else, or is refused for a repeated id, a missing sync or an existing id, in this order |
| Effects.FilePatchStores | src/file/models/fileManager.ts:85-103 | a file patch stores a given total and changes nothing else |
| Effects.EntityStored | src/entity/models/entityManager.ts:27-45 | a single creation or update is accepted exactly with its file and without or with its row, and stores each given property over the old row or the column defaults |
| Effects.BulkAcceptedExactly | src/entity/models/entityManager.ts:47-92 | a bulk creation is accepted exactly for an existing file, distinct ids, and a sync with a rerun or ids that are all new; and which error it gives otherwise |
| Effects.RerunAcceptsBulk | src/entity/models/entityManager.ts:73-115 | once a rerun of a base was created, every bulk creation of distinct ids on a file of the base is accepted in every later state |
| Effects.UpdateAcceptedExactly | src/entity/models/entityManager.ts:140-168 | a non-empty bulk update is accepted exactly for distinct ids of rows that all exist; and which error it gives otherwise |
| Effects.DuplicatesAreCounted | src/queueProvider/queues/bullQueueProvider.ts:102-138 | a waiting job keeps its data and its duplicate counter grows by the number of pushes of its id |
| Effects.FirstIsStored | src/queueProvider/queues/bullQueueProvider.ts:140-164 | of pushed jobs with one new id the first is stored and the later ones are counted |
| Effects.BatchesCarry | src/queueProvider/queues/bullQueueProvider.ts:89-97 | each batch has the first job's data, its slice's ids in order, and the digest of these joined as its id |
| Reachable.StepKeepsInv | src/sync/DAL/syncRepository.ts:247-383 | every admitted client request, rerun and job keeps the whole invariant of the four tables |
| Reachable.ReachableInv | src/sync/DAL/syncRepository.ts:247-383 | every run of admitted events from the empty state ends in the invariant |
| Reachable.BulkCreationIsSound | src/entity/models/entityManager.ts:47-120 | a bulk creation within the file's total only adds rows or changes open ones, under existing files |
| Reachable.PatchIsSound | src/entity/models/entityManager.ts:140-168 | a bulk update within the totals that reopens nothing keeps every row and every link to a file |
| Reachable.InsertFilesEffect | src/file/models/fileManager.ts:81-82 | bulk file creation leaves existing files as they are, adds every requested file with its row on the named sync, and no other |
| ClosureSteps.FileClosureKeepsInv | src/file/DAL/fileRepository.ts:55-78 | closing a file by its count keeps the invariant; in particular no completed sync loses its exact file count |
| ClosureSteps.SyncClosureKeepsInv | src/sync/DAL/syncRepository.ts:247-277 | closing a sync and its reruns by the file count keeps counts, numbering and history sound |
| Safety.InvIsSafe | src/file/DAL/fileRepository.ts:66-72 | the invariant implies hierarchical safety: completed syncs have completed files only, completed files closed entities only |
| Safety.RerunsAreNumbered | src/sync/models/syncManager.ts:120-138 | the reruns of a base carry exactly the numbers 1 to n, and the last-rerun query returns number n |
| Safety.OnlyTheLastRuns | src/sync/models/syncManager.ts:109-138 | reruns hang directly on base syncs, no rerun but the last is in progress, and all but the last have failed unless their total is 0 |
| Safety.ZeroTotalReopensNumbering | src/sync/DAL/syncRepository.ts:261-271 | an attempt on a failed rerun's own id completes it if and only if its total is 0 |
| Safety.AttemptClosesAtMostTwo | src/sync/DAL/syncRepository.ts:262-271 | an attempt on a base changes no sync row but the base's and its last rerun's |
| Safety.OtherTotalStaysOpen | src/sync/DAL/syncRepository.ts:262-271 | when an attempt leaves the base completed, its rerun in progress stays open if and only if its total differs from the base's |
| BaseClosure.RunKeepsEnd | src/sync/DAL/syncRepository.ts:262-271 | once base and rerun share a set total, and the rerun is not in progress under a completed base, that stays so over every run |
| FullSyncs.PatchKeepsFullExactly | src/sync/models/syncManager.ts:72-82 | a patch keeps full base syncs unique by layer and geometry if and only if it moves none to the place of another |
| FullSyncs.FullStaysUnique | src/sync/models/syncManager.ts:52-68 | over every run whose patches pass that test, no two full base syncs share layer and geometry |
| FullSyncs.PatchMerges | src/sync/models/syncManager.ts:81-81 | a patch sets its own metadata properties, keeps the others and the full flag, and changes nothing when repeated |
| RerunSteps.RerunKeepsInv | src/sync/DAL/syncRepository.ts:279-383 | the whole rerun operation, whichever branch it takes, keeps the invariant and never fails on a repeated key |
| RerunSteps.RefusedByGuardsOnly | src/sync/models/syncManager.ts:97-138 | under the invariant a rerun is refused exactly when a guard refuses it |
| RerunSteps.LastRerunIsUnique | src/sync/DAL/syncRepository.ts:216-223 | the guard's and the transaction's read of the last rerun agree, although the query leaves ties open |
| RerunSteps.EmptyFilesTakeNothingAlong | src/sync/DAL/syncRepository.ts:20-41 | deleting the empty files removes no entity and no history row, despite the cascades |
| RerunSteps.HistoryKeyIsFree | src/sync/DAL/syncRepository.ts:324-344 | no history row carries the id of the run about to be recorded, so the insert succeeds |
| RerunSteps.ResetChangesExactly | src/sync/DAL/syncRepository.ts:348-359 | the reset changes the closed entities of exactly the base's files holding a not synced entity, on request only, and each such file was reopened |
| RerunSteps.PreparedKeepsCounts | src/sync/DAL/syncRepository.ts:348-359 | every file that is completed after the settling and the reset has the closed entities it had before |
| RerunSteps.PreparedKeepsFileTotals | src/sync/DAL/syncRepository.ts:100-156 | for both kinds of rerun, after reopening, dangling closure and reset a completed file's total is its closed count |
| RerunSteps.NewRerunKeepsForest | src/sync/models/syncManager.ts:120-149 | the new rerun keeps the depth-one forest and the consecutive, distinct run numbers |
| RerunSteps.NewRerunKeepsHistory | src/sync/DAL/syncRepository.ts:324-363 | with the new rerun every history row, old or new, belongs to a run that is no longer the latest, and completed rows stay unique |
| RerunSteps.RecordedOnce | src/sync/DAL/syncRepository.ts:70-89 | an entity with a completed history row is never recorded again |
| RerunSteps.BaseClosureKeepsInv | src/sync/DAL/syncRepository.ts:300-322 | closing the base instead of rerunning it keeps the invariant |
| NoLoss.NoOutcomeIsLost | src/sync/DAL/syncRepository.ts:68-97 | when a rerun is created, each base entity that was not in rerun has its exact snapshot under the ending run if and only if its id had no completed history row |
| NoLoss.WipedIsRecorded | src/sync/DAL/syncRepository.ts:124-136 | with ids unique in the base and recorded entities still completed, every row the reset changes has its snapshot from the same transaction |
| NoLoss.WipedIsRecordedExactly | src/sync/DAL/syncRepository.ts:68-136 | all wiped rows are recorded if and only if no entity up for the reset shares its id with one recorded as completed |
| NoLoss.LateChangesetsMissReset | src/sync/DAL/syncRepository.ts:118-137 | in the tables a rerun leaves, no changeset that comes late completes an entity that was reset, or leads a closure job to a file through it |
| NoLoss.CompletedStays | src/sync/DAL/syncRepository.ts:118-137 | over any run that does not patch it, a completed entity stays present and completed |
| NoLoss.CompletedStaysOneStep | src/changeset/DAL/changesetRepository.ts:20-26 | no single request, rerun, changeset completion or job takes a completed entity away, patches aside |
| NoLoss.HistoryIsAppendOnly | src/entity/DAL/entityHistory.ts:30-32 | over any run no history row changes or disappears, and no entity disappears |
| NoLoss.RunKeepsRecorded | src/sync/DAL/syncRepository.ts:70-89 | when patches keep completed entities, an entity recorded as completed is completed in every later state |
| Drain.ChangesetStepKeepsOnePass | src/queueProvider/workers/changesetsWorker.ts:41-69 | a changeset job leaves the one-pass result as it is: the file jobs it sends stand in for it |
| Drain.FileStepKeepsOnePass | src/queueProvider/workers/filesWorker.ts:40-66 | a file job leaves the one-pass result as it is: the sync job it sends stands in for the closed file |
| Drain.SyncStepKeepsOnePass | src/queueProvider/workers/syncsWorker.ts:38-57 | in a steady state a sync job leaves the one-pass result as it is |
| Drain.InvHasNoOvershoot | src/sync/DAL/syncRepository.ts:271-271 | in a state with the invariant no sync has more files than its total or a rerun's |
| Drain.NoOvershootIsSteady | src/sync/DAL/syncRepository.ts:271-271 | without overshoot nothing can be closed midway |
| Drain.DrainsAgreeExactly | src/queueProvider/workers/syncsWorker.ts:38-57 | from any state, all drains that empty the queues agree if and only if every row that can be closed midway is closed at the end anyway |
| Drain.DrainIsOnePass | src/queueProvider/workers/filesWorker.ts:40-66 | from a steady state every drain, in whatever order, ends in the one-pass tables |
| Drain.FilesFirstDrain | src/queueProvider/workers/changesetsWorker.ts:41-69 | from any state the drain that leaves the sync jobs to the end ends in the one-pass tables |
| Drain.EarlyDrain | src/queueProvider/workers/syncsWorker.ts:38-57 | a row that can be closed midway is completed by some drain |
| Drain.DrainOrderIsIrrelevant | src/queueProvider/workers/syncsWorker.ts:38-57 | two drains of one state with the invariant end in equal tables |
| Drain.ReadySyncIsCompleted | README.md:23-26 | when waiting changeset jobs touch every open file of a sync and each such file's entities are all closed, every drain completes those files, the sync, and a running rerun, where their total is the number of files |
| Drain.JobLowersMeasure | src/queueProvider/workers/changesetsWorker.ts:60-68 | each job lowers (2F+1) times the changeset jobs plus twice the file jobs plus the sync jobs, F being the number of files |
| Drain.DrainIsBounded | src/queueProvider/workers/filesWorker.ts:56-65 | no drain runs more jobs than the measure of its first state |
| Drain.DrainExists | src/queueProvider/workers/syncsWorker.ts:54-56 | every state has a drain that empties the queues |
| Dangling.AttemptsAreIndependent | src/file/DAL/fileRepository.ts:55-78 | attempts on a list of files, in any order, close exactly the files that could be closed at the start |
| Dangling.UpdateIsAttempts | src/sync/DAL/syncRepository.ts:139-156 | the dangling update equals one attempt, in any order, on each open file of the sync with a non-zero total |
| Dangling.UpdateIsAllAttemptsExactly | src/sync/DAL/syncRepository.ts:139-156 | it equals the attempts on all open files if and only if none of them has a total of 0 and no closed entity |
| Dangling.SweptUpdateIsAllAttempts | src/sync/DAL/syncRepository.ts:289-353 | inside a rerun, after the empty files are gone, it equals the attempts on all open files |
| EntityWrites.AnswerSplits | src/entity/models/entityManager.ts:94-114 | on a rerun the two answers are disjoint, in request order, together the request, and an id is created if and only if its row was absent or in rerun |
| EntityWrites.RerunCreationRows | src/entity/models/entityManager.ts:94-115 | a bulk creation on a rerun succeeds, writes each requested absent or in-rerun row property by property, and leaves every other row untouched |
| EntityWrites.RerunCreationRepeats | src/entity/models/entityManager.ts:94-115 | repeating the request on a rerun changes nothing |
| EntityWrites.RepeatCreatesNothing | src/entity/models/entityManager.ts:94-119 | when every entity of the request sets a status other than in rerun, the repeat reports all of them as previously completed |
| EntityWrites.FirstCreationAdds | src/entity/models/entityManager.ts:76-92 | without reruns a bulk creation only adds rows, and repeating a non-empty one is refused |
| EntityWrites.CountGuardIsExact | src/entity/models/entityManager.ts:143-165 | for distinct ids the row count guard passes if and only if every addressed row exists |
| EntityWrites.UpdateNeverInserts | src/entity/models/entityManager.ts:140-168 | an accepted bulk update keeps the set of rows and changes the addressed ones only, in which each given property is stored and each missing one stays |
| EntityWrites.CreateIsBulkOfOne | src/entity/models/entityManager.ts:27-45 | a single creation has the tables, answer and errors of a bulk creation of one, except that it refuses an existing entity where the bulk creation on a rerun accepts it |
| EntityWrites.UpdateIsBulkOfOne | src/entity/models/entityManager.ts:122-138 | an accepted single update is the bulk update of one, and both accept the same rows, but for a row without its file |
| EntityWrites.SaveAllEffect | src/entity/DAL/entityRepository.ts:24-26 | saving a list adds exactly its missing keys and leaves the rows it does not address |
| EntityWrites.SaveAllRows | src/entity/DAL/entityRepository.ts:24-26 | with distinct keys each saved row has status, changeset, action and reason as given, and where missing as in the old row or the column default |
| Hashing.SortedSorts | src/common/utils/index.ts:24-24 | the stored batch is an ordered permutation of its slice |
| Hashing.TextDeterminesBatch | src/common/utils/index.ts:23-27 | for ids of one length, equal texts come from equal multisets |
| Hashing.TextIsCanonical | src/common/utils/index.ts:23-27 | for ids of one length that the order tells apart, texts are equal if and only if the multisets are |
| Hashing.CanonicalExactly | src/common/utils/index.ts:23-27 | all permutations of a batch of ids of one length have one text if and only if no two of its ids tie |
| Hashing.TiedKeepOrder | src/common/utils/index.ts:24-24 | two different ids that tie stay in the order in which they came |
| Hashing.JoinIsInjective | src/common/utils/index.ts:24-24 | joining ids of one length without a separator loses nothing |
| Batching.DedupeKeepsFirsts | src/changeset/models/changesetManager.ts:71-71 | deduplication keeps every id once, in the order of first occurrences |
| Batching.ChunksCut | src/queueProvider/queues/bullQueueProvider.ts:89-97 | the slices are non-empty, within the limit, make up the list in order, and are as many as the rounded-up quotient |
| Merging.ChunkIsSlice | src/queueProvider/queues/bullQueueProvider.ts:89-90 | the n-th batch holds the ids from n times the limit up to the next multiple or the end |
| Merging.RequestMakesJobs | src/changeset/models/changesetManager.ts:68-76 | on an empty queue a request of ids of one length leaves one job each, unmerged, or with batching and more than one distinct id as many batches as they fill |
| Batching.JobsDecodeToRequest | src/queueProvider/workers/changesetsWorker.ts:42-45 | from the jobs of a request the worker reads each distinct requested changeset exactly once |
| Batching.BatchesReachSameFiles | src/entity/DAL/entityRepository.ts:55-66 | the jobs of a request, queried one by one, find the files of one query over all requested changesets |
| Batching.BatchCount | src/queueProvider/queues/bullQueueProvider.ts:84-99 | more than one id with batching on gives ceil(n/max) jobs |
| Batching.RequestIsCovered | src/queueProvider/queues/bullQueueProvider.ts:71-164 | whatever waits already, merged or not, the queue afterwards stands for what it stood for and the requested ids, when the digest tells the texts of the waiting and the new batches apart |
| Batching.BatchingIsTransparent | src/queueProvider/queues/bullQueueProvider.ts:71-100 | two batching configurations of the same request drain to equal tables |
| Merging.RequestIsCoveredExactly | src/queueProvider/queues/bullQueueProvider.ts:84-99 | for ids of any length, an empty queue and a digest that tells the request's texts apart, the request is covered if and only if its batch texts differ |
| Merging.OneLengthKeepsApart | src/common/utils/index.ts:23-27 | the batches of ids of one length have different texts |
| Merging.MixedLengthsLoseChangesets | src/common/utils/index.ts:23-27 | ids of mixed lengths can make one text for two batches, and the second is then merged away |
| Retry.DelayIsWithinBounds | src/common/utils/index.ts:29-31 | the delay lies between minimum and maximum if and only if these are in order |
| Retry.EveryDelayIsDrawn | src/common/utils/index.ts:29-31 | every delay between the bounds, both included, comes from some draw |
| Retry.AbortsStutter | src/common/db/transactions.ts:53-71 | any run of client requests, reruns and jobs, with aborted or failed attempts among them, ends in the tables and waiting jobs of the run without these |
| Retry.AbortsReachNothingNew | src/sync/DAL/syncRepository.ts:369-383 | so every state reached with aborted jobs, requests and rerun transactions has the tables of an admitted run without any |
| Retry.DrainDespiteAborts | src/queueProvider/workers/bullWorkerProvider.ts:87-131 | a drain with aborts and other errors ends in the one-pass tables |
| Retry.FailuresAreCounted | src/queueProvider/helpers.ts:23-35 | until it is processed a job stays pending through all requests, pushes and other jobs, its failure counter grows by exactly its aborts, and its other data is unchanged |
| Counterexamples.OvershootDependsOnOrder | src/sync/DAL/syncRepository.ts:271-271 | with two files under a total of one, one drain completes the sync and another does not |
| CounterRuns.SharedIdLosesOutcome | src/sync/DAL/syncRepository.ts:76-89 | an admitted run leads to one entity id in two files of a base, and the next rerun wipes a failure that no history row records |
| CounterRuns.DemotionReopensNothing | src/entity/models/entityManager.ts:122-138 | an admitted run, with unique ids, leads to a recorded entity that is not synced |
| CounterRuns.DemotedEntityLosesOutcome | src/sync/DAL/syncRepository.ts:76-136 | from there a rerun of not synced entities wipes an outcome that no history row records |
| CounterRuns.PatchedRerunStaysOpen | src/sync/DAL/syncRepository.ts:262-271 | an admitted run leads to a completed base of total 1, empty queues, and its rerun of total 2 in progress |
| Repositories.CountCompletedFiles | src/sync/DAL/syncRepository.ts:253-258 | counts the completed files of a sync |
| Repositories.CountClosedEntities | src/file/DAL/fileRepository.ts:62-66 | counts the completed and not synced entities of a file |
| Repositories.AttemptFileClosure | src/file/DAL/fileRepository.ts:55-78 | closes the file exactly when it is not completed and its total is its closed count, and answers its sync then |
| Repositories.FindLastRerun | src/sync/DAL/syncRepository.ts:216-223 | finds a rerun that no rerun of the base exceeds in run number, or none if there is none |
| Repositories.AttemptSyncClosure | src/sync/DAL/syncRepository.ts:247-277 | closes exactly the sync, unless completed, and its reruns in progress, where the total is the file count, and answers which |
| Repositories.DeleteEmptyFiles | src/sync/DAL/syncRepository.ts:20-41 | deletes the base's files without entities, with the cascades, and answers how many |
| Repositories.TryClosingSync | src/sync/DAL/syncRepository.ts:44-58 | closes the base exactly when its total is its number of completed files |
| Repositories.CompletedHistoryIds | src/sync/DAL/syncRepository.ts:76-89 | finds the entity ids that some run of the base recorded as completed |
| Repositories.CreateEntityHistory | src/sync/DAL/syncRepository.ts:61-97 | inserts the snapshots of the base's entities that are not in rerun and not recorded as completed, or fails and inserts none when a key repeats |
| Repositories.PrepareIncompleteFiles | src/sync/DAL/syncRepository.ts:100-115 | reopens exactly the base's files holding a not synced entity |
| Repositories.PrepareIncompleteEntities | src/sync/DAL/syncRepository.ts:118-137 | resets exactly the base's entities with one of the requested statuses, clearing changeset, action and reason |
| Repositories.GroupClosed | src/sync/DAL/syncRepository.ts:147-151 | counts closed entities by file, with no entry for a file that has none |
| Repositories.UpdateDanglingFiles | src/sync/DAL/syncRepository.ts:139-156 | completes exactly the sync's open files whose grouped count is their total |
| Repositories.CreateRerun | src/sync/DAL/syncRepository.ts:279-383 | runs the steps in order, stops after closing the base, and rolls everything back when an insert fails |
| Repositories.UpdateEntitiesOfChangesetAsCompleted | src/changeset/DAL/changesetRepository.ts:20-26 | completes exactly the entities of the changeset |
| Managers.RerunSyncIfNeeded | src/sync/models/syncManager.ts:94-152 | applies the guards in order, numbers the rerun, runs the transaction, and leaves the tables unchanged on every error |
| Managers.FindFullSyncs | src/sync/models/syncManager.ts:53-54 | finds exactly the full syncs of the layer and geometry, reruns among them |
| Managers.CreateSync | src/sync/models/syncManager.ts:43-70 | inserts the sync unless its id exists or, for a full one, a full sync of its layer and geometry does |
| Managers.UpdateSync | src/sync/models/syncManager.ts:72-82 | replaces the given properties of an existing sync only, and merges its metadata |
| Managers.CreateFile | src/file/models/fileManager.ts:24-46 | puts a file of a rerun on its base; refuses an existing file, on a rerun only a conflicting one |
| Managers.CreateRerunFile | src/file/models/fileManager.ts:115-152 | accepts an existing file exactly when base and total agree and then writes nothing |
| Managers.CreateFiles | src/file/models/fileManager.ts:48-83 | inserts all files on the named sync or, with a repeated or existing id or no such sync, none |
| Managers.UpdateFile | src/file/models/fileManager.ts:85-103 | replaces the total of an existing file if one is given; the named sync need not be the file's |
| Managers.FindManyByIds | src/entity/DAL/entityRepository.ts:36-43 | finds exactly the stored rows among the requested ids of the file |
| Managers.CreateEntities | src/entity/models/entityManager.ts:47-120 | the map, filter and difference of the code compute the rows saved and the two answers of the specification |
| Managers.UpdateEntities | src/entity/models/entityManager.ts:140-168 | saves all rows or, when an id repeats or the counts differ, none |
| BullQueue.HashBatch | src/common/utils/index.ts:23-27 | leaves the batch sorted in its array and answers the digest of the joined sorted ids |
| BullQueue.BullQueue.Push | src/queueProvider/queues/bullQueueProvider.ts:71-100 | one job is added as it is; without batching all are; otherwise one job for each slice |
| BullQueue.BullQueue.MakeBatches | src/queueProvider/queues/bullQueueProvider.ts:84-97 | the index loop makes one batch job for each chunk, with the data of the first job |
| BullQueue.BullQueue.AddJob | src/queueProvider/queues/bullQueueProvider.ts:140-147 | an id that waits keeps its job, with one more duplicate counted and the deduplication delay; a new one is added with the queue's delay |
| BullQueue.BullQueue.AddBulk | src/queueProvider/queues/bullQueueProvider.ts:149-164 | adds the jobs one after another |
| BullQueue.BullQueue.ChangeJobDelay | src/queueProvider/queues/bullQueueProvider.ts:102-138 | a delayed job gets the new delay and a duplicate counted, one that has left the delayed state is added again as it was, and for an unknown id nothing happens |
| BullQueue.BullQueue.CreateClosures | src/changeset/models/changesetManager.ts:68-76 | pushes one closure job for each distinct id |
| Workers.Tracker.FindFilesByChangesets | src/entity/DAL/entityRepository.ts:55-66 | finds, each once, exactly the in-progress files with an entity of one of the changesets |
| Workers.Tracker.ProcessChangesetJob | src/queueProvider/workers/changesetsWorker.ts:41-69 | decodes the batch, sends a file job for each file found, and removes the job |
| Workers.Tracker.ProcessFileJob | src/queueProvider/workers/filesWorker.ts:40-66 | attempts the file, sends one sync job if it was closed, and removes the job |
| Workers.Tracker.ProcessSyncJob | src/queueProvider/workers/syncsWorker.ts:38-57 | attempts the sync, answers the closed rows, and removes the job |
| Workers.Tracker.ProcessJobWrapper | src/queueProvider/workers/bullWorkerProvider.ts:87-131 | an aborted job stays, counted and delayed within the bounds; another error is rethrown and changes nothing; otherwise the job's step is taken |
| Workers.EnqueueDistinct | src/queueProvider/workers/changesetsWorker.ts:64-66 | pushing distinct single jobs one by one, in any order, is adding them as a set |

## Left out

- Dates (`startDate`, `dumpDate`, `endDate`): closing stamps them, no guard reads them, and reopening a file does not clear them.
- Managers.CreateSync: does not model the dates of a sync.
- Managers.UpdateSync: does not model the dates of a sync.
- `getLatestSync` and `filterSyncs`.
- That a completed base has no rerun in progress, and that a rerun's total equals its base's: false when totals are patched after the copy; `Safety.OtherTotalStaysOpen` has the exact condition.
- The changesets table: creating, reading and updating changesets, the check that a changeset exists before its entities are completed, and the foreign key from entities to changesets.
- The digest: an arbitrary function on strings; `Batching.RequestIsCovered` and `BatchingIsTransparent` ask that it does not collide on the texts of the waiting and the new batches, and that these digests are not as long as an id.
- `localeCompare`: an arbitrary total preorder on ids.
- `Math.random`: a real number at least 0 and below 1, without floating-point rounding.
- Workers.Tracker.ProcessJobWrapper: does not model what the queue does with a rethrown error, which is to try again up to its limit.
- BullQueue.BullQueue.ChangeJobDelay: does not tell a job that is due but not started from a delayed one.
- Deduplication by time (`ttl`), delays, attempt limits, backoff, rate limits and stalled jobs of BullMQ; a queue is the map of its waiting jobs.
- Managers.UpdateEntities: does not fix what the count query returns for an empty list; it is the parameter `emptyCount`.
- Reads of the last rerun when run numbers tie: any rerun with the greatest number may be returned; under the invariant there is one.
- The answer order of queries: rows are visited in an arbitrary order.
- Conflicts between transactions: an abort may happen to any attempt, and its transaction then changes nothing.
- Crashes between a committed transaction and the push after it.
- HTTP, request validation, configuration, dependency injection, logging, metrics, migrations, and more than one database schema.
