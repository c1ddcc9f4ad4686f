/** The rows, tables, statuses and errors of the tracker. */
module Types {

  /** Identifiers are the strings the API carries: uuids, and braced uuids for entity ids. */
  type Id = string

  datatype Option<+T> = None | Some(value: T)

  datatype Error =
    | SyncNotFound
    | SyncAlreadyExists
    | FullSyncAlreadyExists
    | RerunAlreadyExists
    | InvalidSyncForRerun
    | FileNotFound
    | FileAlreadyExists
    | DuplicateFiles
    | ConflictingRerunFile
    | EntityNotFound
    | EntityAlreadyExists
    | DuplicateEntity
    | UniqueViolation  // the database refuses an insert that repeats a primary key

  datatype Result<+T> = Ok(value: T) | Err(error: Error)

  /** Statuses of syncs and files. */
  datatype Status = InProgress | Completed | Failed

  datatype EntityStatus = InProgress | Completed | NotSynced | Failed | InRerun

  datatype Action = Create | Modify | Delete

  datatype Geometry = Point | LineString | Polygon

  type Metadata = map<string, string>

  /** The properties of a sync that no closure reads; a rerun copies them. */
  datatype Details = Details(layerId: int, geometry: Geometry, isFull: bool, metadata: Option<Metadata>)

  /** `totalFiles == None` is SQL's NULL, which equals no count. */
  datatype Sync = Sync(
    status: Status, totalFiles: Option<int>, baseSyncId: Option<Id>, runNumber: int, details: Details)

  datatype File = File(syncId: Id, status: Status, totalEntities: Option<int>)

  datatype EntityKey = EntityKey(entityId: Id, fileId: Id)

  datatype Entity = Entity(
    status: EntityStatus, changesetId: Option<Id>, action: Option<Action>, failReason: Option<string>)

  datatype HistoryKey = HistoryKey(syncId: Id, entityId: Id, fileId: Id)

  /** A history row: the entity row as it was when its run ended. */
  datatype Snapshot = Snapshot(baseSyncId: Option<Id>, row: Entity)

  /** The four tables, each a map from primary key to row. */
  datatype Tables = Tables(
    syncs: map<Id, Sync>,
    files: map<Id, File>,
    entities: map<EntityKey, Entity>,
    history: map<HistoryKey, Snapshot>)
}
