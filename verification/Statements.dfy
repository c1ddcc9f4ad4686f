/**
 Each SQL statement of the sync, file and changeset repositories as a function on the tables,
 and the rerun transaction built from them.
 */
module Statements {
  import opened Types

  /******* Queries *******/

  /** An entity is closed for its file's count when it is completed or not synced. */
  predicate IsClosed(status: EntityStatus) {
    status.Completed? || status.NotSynced?
  }

  function EntitiesOf(entities: map<EntityKey, Entity>, fileId: Id): set<EntityKey> {
    set k | k in entities && k.fileId == fileId
  }

  function ClosedOf(entities: map<EntityKey, Entity>, fileId: Id): set<EntityKey> {
    set k | k in entities && k.fileId == fileId && IsClosed(entities[k].status)
  }

  function FilesOf(files: map<Id, File>, syncId: Id): set<Id> {
    set f | f in files && files[f].syncId == syncId
  }

  function CompletedOf(files: map<Id, File>, syncId: Id): set<Id> {
    set f | f in files && files[f].syncId == syncId && files[f].status == Status.Completed
  }

  /** `e.file_id = f.file_id AND f.sync_id = syncId`: the row joins a file of the sync. */
  predicate Under(t: Tables, syncId: Id, k: EntityKey) {
    k in t.entities && k.fileId in t.files && t.files[k.fileId].syncId == syncId
  }

  /** The files holding an entity of one of the changesets and being in progress. */
  function FindFilesByChangesets(t: Tables, changesets: set<Id>): set<Id> {
    set k | k in t.entities && k.fileId in t.files && t.files[k.fileId].status == Status.InProgress
            && t.entities[k].changesetId.Some? && t.entities[k].changesetId.value in changesets
      :: k.fileId
  }

  /** The outcome of the left join ordered by run number: a rerun no other rerun of the base exceeds. */
  ghost predicate IsLastRerun(syncs: map<Id, Sync>, base: Id, last: Option<Id>) {
    match last
    case None => base !in syncs || forall x | x in syncs :: syncs[x].baseSyncId != Some(base)
    case Some(r) =>
      && base in syncs && r in syncs && syncs[r].baseSyncId == Some(base)
      && forall x | x in syncs && syncs[x].baseSyncId == Some(base) :: syncs[x].runNumber <= syncs[r].runNumber
  }

  /******* Closures *******/

  predicate FileClosable(t: Tables, fileId: Id) {
    && fileId in t.files
    && t.files[fileId].status != Status.Completed
    && t.files[fileId].totalEntities == Some(|ClosedOf(t.entities, fileId)|)
  }

  function AttemptFileClosure(t: Tables, fileId: Id): Tables {
    if FileClosable(t, fileId) then
      t.(files := t.files[fileId := t.files[fileId].(status := Status.Completed)])
    else t
  }

  /** Row `x` is one an attempt on `syncId` closes: the sync itself, or one of its reruns in progress. */
  predicate SyncClosable(t: Tables, syncId: Id, x: Id) {
    && x in t.syncs
    && ((x == syncId && t.syncs[x].status != Status.Completed)
        || (t.syncs[x].baseSyncId == Some(syncId) && t.syncs[x].status == Status.InProgress))
    && t.syncs[x].totalFiles == Some(|CompletedOf(t.files, syncId)|)
  }

  function AttemptSyncClosure(t: Tables, syncId: Id): Tables {
    t.(syncs := map x | x in t.syncs ::
         if SyncClosable(t, syncId, x) then t.syncs[x].(status := Status.Completed) else t.syncs[x])
  }

  /******* The steps of the rerun transaction *******/

  function EmptyFiles(t: Tables, base: Id): set<Id> {
    set f | f in t.files && t.files[f].syncId == base && EntitiesOf(t.entities, f) == {}
  }

  /** Deletes files; the foreign keys of entities and of history rows cascade. */
  function DeleteFiles(t: Tables, doomed: set<Id>): Tables {
    t.(files := t.files - doomed,
       entities := map k | k in t.entities && k.fileId !in doomed :: t.entities[k],
       history := map h | h in t.history && h.fileId !in doomed :: t.history[h])
  }

  function DeleteEmptyFiles(t: Tables, base: Id): Tables {
    DeleteFiles(t, EmptyFiles(t, base))
  }

  predicate BaseClosable(t: Tables, base: Id) {
    base in t.syncs && t.syncs[base].totalFiles == Some(|CompletedOf(t.files, base)|)
  }

  function CloseSync(t: Tables, base: Id): Tables
    requires base in t.syncs
  {
    t.(syncs := t.syncs[base := t.syncs[base].(status := Status.Completed)])
  }

  /** The base sync and its reruns. */
  predicate InFamily(syncs: map<Id, Sync>, base: Id, x: Id) {
    x == base || (x in syncs && syncs[x].baseSyncId == Some(base))
  }

  /** Some run of the base already recorded a completed entity of this id, in whichever file. */
  predicate CompletedBefore(t: Tables, base: Id, entityId: Id) {
    exists h ::
      && h in t.history && h.entityId == entityId && InFamily(t.syncs, base, h.syncId)
      && t.history[h].row.status == EntityStatus.Completed
  }

  predicate ForHistory(t: Tables, base: Id, k: EntityKey) {
    && Under(t, base, k)
    && t.entities[k].status != EntityStatus.InRerun
    && !CompletedBefore(t, base, k.entityId)
  }

  function HistoryRows(t: Tables, base: Id, run: Id): map<HistoryKey, Snapshot> {
    var keys := set k | k in t.entities && ForHistory(t, base, k) :: HistoryKey(run, k.entityId, k.fileId);
    map h | h in keys ::
      Snapshot(if run == base then None else Some(base), t.entities[EntityKey(h.entityId, h.fileId)])
  }

  /** The insert fails as a whole when a new row repeats a primary key. */
  function CreateEntityHistory(t: Tables, base: Id, run: Id): Result<Tables> {
    var rows := HistoryRows(t, base, run);
    if rows.Keys !! t.history.Keys then Ok(t.(history := t.history + rows)) else Err(UniqueViolation)
  }

  predicate HoldsNotSynced(t: Tables, fileId: Id) {
    exists k :: k in t.entities && k.fileId == fileId && t.entities[k].status == EntityStatus.NotSynced
  }

  function PrepareIncompleteFiles(t: Tables, base: Id): Tables {
    t.(files := map f | f in t.files ::
         if t.files[f].syncId == base && HoldsNotSynced(t, f) then t.files[f].(status := Status.InProgress)
         else t.files[f])
  }

  /** GROUP BY yields no row for a file without closed entities, so a zero total never matches. */
  predicate Dangling(t: Tables, base: Id, f: Id) {
    && f in t.files && t.files[f].syncId == base && t.files[f].status == Status.InProgress
    && ClosedOf(t.entities, f) != {}
    && t.files[f].totalEntities == Some(|ClosedOf(t.entities, f)|)
  }

  function UpdateDanglingFiles(t: Tables, base: Id): Tables {
    t.(files := map f | f in t.files ::
         if Dangling(t, base, f) then t.files[f].(status := Status.Completed) else t.files[f])
  }

  /** The statuses a rerun resets; not synced entities only on request. */
  predicate Resettable(status: EntityStatus, notSynced: bool) {
    status.InProgress? || status.Failed? || (notSynced && status.NotSynced?)
  }

  const RESET_ROW := Entity(EntityStatus.InRerun, None, None, None)

  function PrepareIncompleteEntities(t: Tables, base: Id, notSynced: bool): Tables {
    t.(entities := map k | k in t.entities ::
         if Under(t, base, k) && Resettable(t.entities[k].status, notSynced) then RESET_ROW
         else t.entities[k])
  }

  /******* The rerun transaction *******/

  datatype RerunRequest = RerunRequest(
    id: Id, baseSyncId: Id, totalFiles: Option<int>, runNumber: int, details: Details, notSynced: bool)

  datatype RerunOutcome = RerunOutcome(tables: Tables, created: bool)

  function LatestRun(base: Id, latest: Option<Id>): Id {
    match latest case None => base case Some(r) => r
  }

  /** History, reopening or dangling closure, reset, in the order of the transaction. */
  function PrepareRerun(t: Tables, base: Id, run: Id, notSynced: bool): Result<Tables> {
    match CreateEntityHistory(t, base, run)
    case Err(e) => Err(e)
    case Ok(logged) =>
      var settled := if notSynced then PrepareIncompleteFiles(logged, base) else UpdateDanglingFiles(logged, base);
      Ok(PrepareIncompleteEntities(settled, base, notSynced))
  }

  function InsertRerun(t: Tables, r: RerunRequest): Result<RerunOutcome> {
    if r.id in t.syncs then Err(UniqueViolation)
    else
      var row := Sync(Status.InProgress, r.totalFiles, Some(r.baseSyncId), r.runNumber, r.details);
      Ok(RerunOutcome(t.(syncs := t.syncs[r.id := row]), true))
  }

  /** An error rolls the whole transaction back; `latest` is the rerun the latest-run query returns. */
  function CreateRerun(t: Tables, r: RerunRequest, latest: Option<Id>): Result<RerunOutcome> {
    var swept := DeleteEmptyFiles(t, r.baseSyncId);
    if EmptyFiles(t, r.baseSyncId) != {} && BaseClosable(swept, r.baseSyncId) then
      Ok(RerunOutcome(CloseSync(swept, r.baseSyncId), false))
    else
      match PrepareRerun(swept, r.baseSyncId, LatestRun(r.baseSyncId, latest), r.notSynced)
      case Err(e) => Err(e)
      case Ok(ready) => InsertRerun(ready, r)
  }

  /** The guards and the run number; `last` is the last rerun the guard read. */
  function CheckRerun(syncs: map<Id, Sync>, base: Id, rerunId: Id, notSynced: bool, last: Option<Id>)
    : Result<RerunRequest>
    requires last.Some? ==> last.value in syncs
  {
    if rerunId in syncs then Err(RerunAlreadyExists)
    else if base !in syncs then Err(SyncNotFound)
    else if syncs[base].runNumber != 0 || syncs[base].status != Status.Failed then Err(InvalidSyncForRerun)
    else
      match last
      case None => Ok(RerunRequest(rerunId, base, syncs[base].totalFiles, 1, syncs[base].details, notSynced))
      case Some(r) =>
        if syncs[r].status != Status.Failed then Err(InvalidSyncForRerun)
        else
          Ok(RerunRequest(
            rerunId, base, syncs[base].totalFiles, syncs[r].runNumber + 1, syncs[base].details, notSynced))
  }

  /** The last rerun is read twice: by the guard as `last`, inside the transaction as `latest`. */
  function RerunSyncIfNeeded(
    t: Tables, base: Id, rerunId: Id, notSynced: bool, last: Option<Id>, latest: Option<Id>): Result<RerunOutcome>
    requires last.Some? ==> last.value in t.syncs
  {
    match CheckRerun(t.syncs, base, rerunId, notSynced, last)
    case Err(e) => Err(e)
    case Ok(request) => CreateRerun(t, request, latest)
  }

  /******* Changesets *******/

  function CompleteChangeset(t: Tables, changesetId: Id): Tables {
    t.(entities := map k | k in t.entities ::
         if t.entities[k].changesetId == Some(changesetId)
         then t.entities[k].(status := EntityStatus.Completed) else t.entities[k])
  }
}
