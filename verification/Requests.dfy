/** The client operations of the sync, file and entity managers as functions on the tables. */
module Requests {
  import opened Types
  import opened Statements

  /** A request property that may be missing. */
  datatype Field<+T> = Absent | Given(value: T)

  function Choose<T>(field: Field<T>, otherwise: T): T {
    match field case Absent => otherwise case Given(v) => v
  }

  predicate NoDuplicates<T(==)>(xs: seq<T>) {
    forall i, j :: 0 <= i < j < |xs| ==> xs[i] != xs[j]
  }

  /******* Syncs *******/

  datatype SyncPatch = SyncPatch(
    status: Field<Status>, totalFiles: Field<Option<int>>,
    layerId: Field<int>, geometry: Field<Geometry>, metadata: Option<Metadata>)

  predicate SameLayer(a: Details, b: Details) {
    a.layerId == b.layerId && a.geometry == b.geometry
  }

  /** A full sync, rerun or not, of the layer and geometry exists. */
  predicate HasFullSync(syncs: map<Id, Sync>, details: Details) {
    exists x :: x in syncs && syncs[x].details.isFull && SameLayer(syncs[x].details, details)
  }

  function CreateSync(t: Tables, id: Id, row: Sync): Result<Tables> {
    if id in t.syncs then Err(SyncAlreadyExists)
    else if row.details.isFull && HasFullSync(t.syncs, row.details) then Err(FullSyncAlreadyExists)
    else Ok(t.(syncs := t.syncs[id := row]))
  }

  /** Spreading a missing object adds no property. */
  function Properties(metadata: Option<Metadata>): Metadata {
    match metadata case None => map[] case Some(m) => m
  }

  function PatchDetails(details: Details, patch: SyncPatch): Details {
    Details(Choose(patch.layerId, details.layerId), Choose(patch.geometry, details.geometry), details.isFull,
            Some(Properties(details.metadata) + Properties(patch.metadata)))
  }

  function UpdateSync(t: Tables, id: Id, patch: SyncPatch): Result<Tables> {
    if id !in t.syncs then Err(SyncNotFound)
    else
      var row := t.syncs[id];
      var updated := row.(status := Choose(patch.status, row.status),
                          totalFiles := Choose(patch.totalFiles, row.totalFiles),
                          details := PatchDetails(row.details, patch));
      Ok(t.(syncs := t.syncs[id := updated]))
  }

  /******* Files *******/

  datatype NewFile = NewFile(fileId: Id, status: Status, totalEntities: Option<int>)

  function InsertFile(files: map<Id, File>, syncId: Id, file: NewFile): map<Id, File> {
    files[file.fileId := File(syncId, file.status, file.totalEntities)]
  }

  /** On a rerun the file belongs to the base sync, and an equal file already there is no conflict. */
  function CreateFile(t: Tables, syncId: Id, file: NewFile): Result<Tables> {
    if syncId !in t.syncs then Err(SyncNotFound)
    else
      match t.syncs[syncId].baseSyncId
      case None =>
        if file.fileId in t.files then Err(FileAlreadyExists)
        else Ok(t.(files := InsertFile(t.files, syncId, file)))
      case Some(base) =>
        if file.fileId !in t.files then Ok(t.(files := InsertFile(t.files, base, file)))
        else if t.files[file.fileId].syncId != base then Err(ConflictingRerunFile)
        else if t.files[file.fileId].totalEntities != file.totalEntities then Err(ConflictingRerunFile)
        else Ok(t)
  }

  function InsertFiles(files: map<Id, File>, syncId: Id, added: seq<NewFile>): map<Id, File>
    decreases |added|
  {
    if added == [] then files else InsertFiles(InsertFile(files, syncId, added[0]), syncId, added[1..])
  }

  function FileIds(files: seq<NewFile>): seq<Id> {
    seq(|files|, i requires 0 <= i < |files| => files[i].fileId)
  }

  /** Bulk creation never redirects to a base sync. */
  function CreateFiles(t: Tables, syncId: Id, added: seq<NewFile>): Result<Tables> {
    if !NoDuplicates(FileIds(added)) then Err(DuplicateFiles)
    else if syncId !in t.syncs then Err(SyncNotFound)
    else if exists i :: 0 <= i < |added| && added[i].fileId in t.files then Err(FileAlreadyExists)
    else Ok(t.(files := InsertFiles(t.files, syncId, added)))
  }

  function UpdateFile(t: Tables, syncId: Id, fileId: Id, totalEntities: Field<Option<int>>): Result<Tables> {
    if syncId !in t.syncs then Err(SyncNotFound)
    else if fileId !in t.files then Err(FileNotFound)
    else
      var row := t.files[fileId];
      Ok(t.(files := t.files[fileId := row.(totalEntities := Choose(totalEntities, row.totalEntities))]))
  }

  /******* Entities *******/

  datatype EntityFields = EntityFields(
    status: Field<EntityStatus>, changesetId: Field<Option<Id>>,
    action: Field<Option<Action>>, failReason: Field<Option<string>>)

  datatype EntityWrite = EntityWrite(key: EntityKey, fields: EntityFields)

  /** A new row takes the column defaults for missing properties, an existing one keeps its own. */
  function SavedRow(entities: map<EntityKey, Entity>, w: EntityWrite): Entity {
    var row := if w.key in entities then entities[w.key] else Entity(EntityStatus.InProgress, None, None, None);
    Entity(Choose(w.fields.status, row.status), Choose(w.fields.changesetId, row.changesetId),
           Choose(w.fields.action, row.action), Choose(w.fields.failReason, row.failReason))
  }

  function Save(entities: map<EntityKey, Entity>, w: EntityWrite): map<EntityKey, Entity> {
    entities[w.key := SavedRow(entities, w)]
  }

  function SaveAll(entities: map<EntityKey, Entity>, writes: seq<EntityWrite>): map<EntityKey, Entity>
    decreases |writes|
  {
    if writes == [] then entities else SaveAll(Save(entities, writes[0]), writes[1..])
  }

  function CreateEntity(t: Tables, w: EntityWrite): Result<Tables> {
    if w.key.fileId !in t.files then Err(FileNotFound)
    else if w.key in t.entities then Err(EntityAlreadyExists)
    else Ok(t.(entities := Save(t.entities, w)))
  }

  function UpdateEntity(t: Tables, w: EntityWrite): Result<Tables> {
    if w.key.fileId !in t.files then Err(FileNotFound)
    else if w.key !in t.entities then Err(EntityNotFound)
    else Ok(t.(entities := Save(t.entities, w)))
  }

  datatype NewEntity = NewEntity(entityId: Id, fields: EntityFields)

  datatype BulkOutcome = BulkOutcome(tables: Tables, created: seq<Id>, previouslyCompleted: seq<Id>)

  function EntityIds(requests: seq<NewEntity>): seq<Id> {
    seq(|requests|, i requires 0 <= i < |requests| => requests[i].entityId)
  }

  function WithFile(requests: seq<NewEntity>, fileId: Id): seq<EntityWrite> {
    seq(|requests|, i requires 0 <= i < |requests| =>
      EntityWrite(EntityKey(requests[i].entityId, fileId), requests[i].fields))
  }

  /** A rerun may write an entity only when it is new or was reset by the rerun. */
  predicate Writable(entities: map<EntityKey, Entity>, k: EntityKey) {
    k in entities ==> entities[k].status == EntityStatus.InRerun
  }

  function WritableOnly(entities: map<EntityKey, Entity>, writes: seq<EntityWrite>): seq<EntityWrite> {
    if writes == [] then []
    else if Writable(entities, writes[0].key) then [writes[0]] + WritableOnly(entities, writes[1..])
    else WritableOnly(entities, writes[1..])
  }

  function WritableIds(entities: map<EntityKey, Entity>, fileId: Id, ids: seq<Id>, writable: bool): seq<Id> {
    if ids == [] then []
    else
      var rest := WritableIds(entities, fileId, ids[1..], writable);
      if Writable(entities, EntityKey(ids[0], fileId)) == writable then [ids[0]] + rest else rest
  }

  predicate HasReruns(syncs: map<Id, Sync>, syncId: Id) {
    exists x :: x in syncs && syncs[x].baseSyncId == Some(syncId)
  }

  function CreateEntities(t: Tables, fileId: Id, requests: seq<NewEntity>): Result<BulkOutcome> {
    var ids := EntityIds(requests);
    var writes := WithFile(requests, fileId);
    if fileId !in t.files then Err(FileNotFound)
    else if !NoDuplicates(ids) then Err(DuplicateEntity)
    else if !HasReruns(t.syncs, t.files[fileId].syncId) then
      if exists i :: 0 <= i < |ids| && EntityKey(ids[i], fileId) in t.entities then Err(EntityAlreadyExists)
      else Ok(BulkOutcome(t.(entities := SaveAll(t.entities, writes)), ids, []))
    else
      Ok(BulkOutcome(t.(entities := SaveAll(t.entities, WritableOnly(t.entities, writes))),
                     WritableIds(t.entities, fileId, ids, true),
                     WritableIds(t.entities, fileId, ids, false)))
  }

  function WriteKeys(writes: seq<EntityWrite>): set<EntityKey> {
    set i | 0 <= i < |writes| :: writes[i].key
  }

  function KeyedIds(writes: seq<EntityWrite>): seq<Id> {
    seq(|writes|, i requires 0 <= i < |writes| => writes[i].key.entityId)
  }

  /** The guard compares counts; what the query counts for an empty list is left open as `emptyCount`. */
  function CountByIds(entities: map<EntityKey, Entity>, writes: seq<EntityWrite>, emptyCount: nat): nat {
    if writes == [] then emptyCount else |WriteKeys(writes) * entities.Keys|
  }

  function UpdateEntities(t: Tables, writes: seq<EntityWrite>, emptyCount: nat): Result<Tables> {
    if !NoDuplicates(KeyedIds(writes)) then Err(DuplicateEntity)
    else if CountByIds(t.entities, writes, emptyCount) != |writes| then Err(EntityNotFound)
    else Ok(t.(entities := SaveAll(t.entities, writes)))
  }
}
