/** The invariant of the tables, one predicate a concern. */
module Invariant {
  import opened Types
  import opened Statements
  import opened Protocol

  /** Runs of one base. */
  predicate Siblings(syncs: map<Id, Sync>, x: Id, y: Id)
    requires x in syncs && y in syncs
  {
    syncs[x].baseSyncId.Some? && syncs[x].baseSyncId == syncs[y].baseSyncId
  }

  ghost predicate HasPredecessor(syncs: map<Id, Sync>, x: Id)
    requires x in syncs
  {
    exists y | y in syncs :: syncs[y].baseSyncId == syncs[x].baseSyncId && syncs[y].runNumber == syncs[x].runNumber - 1
  }

  /** A rerun hangs on a base sync, directly. */
  ghost predicate RerunSound(syncs: map<Id, Sync>, x: Id)
    requires x in syncs && syncs[x].baseSyncId.Some?
  {
    var base := syncs[x].baseSyncId.value;
    && base in syncs && syncs[base].baseSyncId == None
    && 1 <= syncs[x].runNumber
  }

  /** A rerun that is not the last: failed, or closed by an attempt on its own id when its total is zero. */
  predicate Superseded(row: Sync) {
    row.status == Status.Failed || (row.status == Status.Completed && row.totalFiles == Some(0))
  }

  ghost predicate Forest(syncs: map<Id, Sync>) {
    && (forall x | x in syncs && syncs[x].baseSyncId.None? :: syncs[x].runNumber == 0)
    && (forall x {:trigger RerunSound(syncs, x)} | x in syncs && syncs[x].baseSyncId.Some? :: RerunSound(syncs, x))
    && (forall x {:trigger HasPredecessor(syncs, x)} |
          x in syncs && syncs[x].baseSyncId.Some? && 1 < syncs[x].runNumber ::
          HasPredecessor(syncs, x))
    && (forall x, y {:trigger Siblings(syncs, x, y)} | x in syncs && y in syncs && x != y && Siblings(syncs, x, y) ::
          syncs[x].runNumber != syncs[y].runNumber)
    && (forall x, y {:trigger Siblings(syncs, x, y)} | x in syncs && y in syncs && Siblings(syncs, x, y)
                                                  && syncs[x].runNumber < syncs[y].runNumber ::
          Superseded(syncs[x]))
  }

  ghost predicate FilesHang(t: Tables) {
    forall f | f in t.files :: t.files[f].syncId in t.syncs && t.syncs[t.files[f].syncId].baseSyncId == None
  }

  ghost predicate EntitiesHang(t: Tables) {
    forall k | k in t.entities :: k.fileId in t.files
  }

  /** A completed file's total is its number of closed entities. */
  ghost predicate FilesSafe(t: Tables) {
    forall f | f in t.files && t.files[f].status == Status.Completed ::
      t.files[f].totalEntities == Some(|ClosedOf(t.entities, f)|)
  }

  /** A completed sync's or rerun's total is its base's number of completed files. */
  ghost predicate SyncsSafe(t: Tables) {
    forall x | x in t.syncs && t.syncs[x].status == Status.Completed ::
      t.syncs[x].totalFiles == Some(|CompletedOf(t.files, Root(t.syncs, x))|)
  }

  ghost predicate Superseding(syncs: map<Id, Sync>, x: Id, r: Id)
    requires x in syncs
  {
    r in syncs && syncs[r].baseSyncId == Some(Root(syncs, x)) && syncs[x].runNumber < syncs[r].runNumber
  }

  /** A history row belongs to a run that is no longer the latest, and to a live entity of its base. */
  ghost predicate RowSound(t: Tables, h: HistoryKey)
    requires h in t.history
  {
    && h.syncId in t.syncs
    && EntityKey(h.entityId, h.fileId) in t.entities
    && h.fileId in t.files && t.files[h.fileId].syncId == Root(t.syncs, h.syncId)
    && t.history[h].baseSyncId == t.syncs[h.syncId].baseSyncId
    && t.history[h].row.status != EntityStatus.InRerun
    && (exists r :: Superseding(t.syncs, h.syncId, r))
  }

  /** An entity of a file is recorded as completed at most once. */
  ghost predicate CompletedOnce(history: map<HistoryKey, Snapshot>) {
    forall h, g | h in history && g in history && h.entityId == g.entityId && h.fileId == g.fileId
                  && history[h].row.status == EntityStatus.Completed
                  && history[g].row.status == EntityStatus.Completed :: h == g
  }

  ghost predicate HistorySound(t: Tables) {
    && (forall h | h in t.history :: RowSound(t, h))
    && CompletedOnce(t.history)
  }

  /** An entity recorded as completed is still completed; kept as long as patches keep completed entities. */
  ghost predicate RecordedStays(t: Tables) {
    forall h | h in t.history && t.history[h].row.status == EntityStatus.Completed ::
      var k := EntityKey(h.entityId, h.fileId); k in t.entities && t.entities[k].status == EntityStatus.Completed
  }

  ghost predicate Inv(t: Tables) {
    && Forest(t.syncs)
    && FilesHang(t) && EntitiesHang(t)
    && FileCapacity(t) && SyncCapacity(t)
    && FilesSafe(t) && SyncsSafe(t)
    && HistorySound(t)
  }
}
