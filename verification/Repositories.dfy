/**
 The repositories' statements executed row by row on the database, each proved against its function
 on the tables.
 */
module Repositories {
  import opened Types
  import opened Database
  import S = Statements

  /******* Counts *******/

  function SeenCompleted(files: map<Id, File>, todo: set<Id>, syncId: Id): set<Id> {
    set f | f in files && f !in todo && files[f].syncId == syncId && files[f].status == Status.Completed
  }

  method CountCompletedFiles(db: Database, syncId: Id) returns (n: nat)
    ensures n == |S.CompletedOf(db.files, syncId)|
  {
    n := 0;
    var todo := db.files.Keys;
    assert SeenCompleted(db.files, todo, syncId) == {};
    while todo != {}
      invariant todo <= db.files.Keys && n == |SeenCompleted(db.files, todo, syncId)|
      decreases todo
    {
      var f :| f in todo;
      ghost var seen := SeenCompleted(db.files, todo, syncId);
      todo := todo - {f};
      if db.files[f].syncId == syncId && db.files[f].status == Status.Completed {
        n := n + 1;
        assert SeenCompleted(db.files, todo, syncId) == seen + {f};
      } else {
        assert SeenCompleted(db.files, todo, syncId) == seen;
      }
    }
    assert SeenCompleted(db.files, {}, syncId) == S.CompletedOf(db.files, syncId);
  }

  function SeenClosed(entities: map<EntityKey, Entity>, todo: set<EntityKey>, fileId: Id): set<EntityKey> {
    set k | k in entities && k !in todo && k.fileId == fileId && S.IsClosed(entities[k].status)
  }

  method CountClosedEntities(db: Database, fileId: Id) returns (n: nat)
    ensures n == |S.ClosedOf(db.entities, fileId)|
  {
    n := 0;
    var todo := db.entities.Keys;
    assert SeenClosed(db.entities, todo, fileId) == {};
    while todo != {}
      invariant todo <= db.entities.Keys && n == |SeenClosed(db.entities, todo, fileId)|
      decreases todo
    {
      var k :| k in todo;
      ghost var seen := SeenClosed(db.entities, todo, fileId);
      todo := todo - {k};
      if k.fileId == fileId && S.IsClosed(db.entities[k].status) {
        n := n + 1;
        assert SeenClosed(db.entities, todo, fileId) == seen + {k};
      } else {
        assert SeenClosed(db.entities, todo, fileId) == seen;
      }
    }
    assert SeenClosed(db.entities, {}, fileId) == S.ClosedOf(db.entities, fileId);
  }

  /******* File repository *******/

  /** Returns the closed file's sync, if the file was closed. */
  method AttemptFileClosure(db: Database, fileId: Id) returns (closed: Option<Id>)
    modifies db`files
    ensures db.Rows() == S.AttemptFileClosure(old(db.Rows()), fileId)
    ensures closed == if S.FileClosable(old(db.Rows()), fileId) then Some(old(db.files)[fileId].syncId) else None
  {
    closed := None;
    var n := CountClosedEntities(db, fileId);
    if fileId in db.files {
      var row := db.files[fileId];
      if row.status != Status.Completed && row.totalEntities == Some(n) {
        db.files := db.files[fileId := row.(status := Status.Completed)];
        closed := Some(row.syncId);
      }
    }
  }

  /******* Sync repository *******/

  method FindLastRerun(db: Database, syncId: Id) returns (last: Option<Id>)
    ensures S.IsLastRerun(db.syncs, syncId, last)
  {
    last := None;
    if syncId !in db.syncs { return; }
    var todo := db.syncs.Keys;
    while todo != {}
      invariant todo <= db.syncs.Keys
      invariant match last
                case None => forall x | x in db.syncs && x !in todo :: db.syncs[x].baseSyncId != Some(syncId)
                case Some(r) =>
                  && r in db.syncs && db.syncs[r].baseSyncId == Some(syncId)
                  && forall x | x in db.syncs && x !in todo && db.syncs[x].baseSyncId == Some(syncId) ::
                       db.syncs[x].runNumber <= db.syncs[r].runNumber
      decreases todo
    {
      var x :| x in todo;
      todo := todo - {x};
      if db.syncs[x].baseSyncId == Some(syncId)
         && (last == None || db.syncs[last.value].runNumber < db.syncs[x].runNumber) {
        last := Some(x);
      }
    }
  }

  method AttemptSyncClosure(db: Database, syncId: Id) returns (closed: set<Id>)
    modifies db`syncs
    ensures db.Rows() == S.AttemptSyncClosure(old(db.Rows()), syncId)
    ensures closed == set x | x in old(db.syncs) && S.SyncClosable(old(db.Rows()), syncId, x)
  {
    var n := CountCompletedFiles(db, syncId);
    var todo := db.syncs.Keys;
    ghost var before := db.Rows();
    closed := {};
    while todo != {}
      invariant todo <= db.syncs.Keys == before.syncs.Keys
      invariant db.files == before.files && db.entities == before.entities && db.history == before.history
      invariant forall x | x in db.syncs ::
                  db.syncs[x] == if x in todo then before.syncs[x] else S.AttemptSyncClosure(before, syncId).syncs[x]
      invariant closed == set x | x in before.syncs && x !in todo && S.SyncClosable(before, syncId, x)
      decreases todo
    {
      var x :| x in todo;
      var row := db.syncs[x];
      if (x == syncId && row.status != Status.Completed)
         || (row.baseSyncId == Some(syncId) && row.status == Status.InProgress) {
        if row.totalFiles == Some(n) {
          db.syncs := db.syncs[x := row.(status := Status.Completed)];
          closed := closed + {x};
        }
      }
      todo := todo - {x};
    }
  }

  function SeenFiles(entities: map<EntityKey, Entity>, todo: set<EntityKey>): set<Id> {
    set k | k in entities && k !in todo :: k.fileId
  }

  method DeleteEmptyFiles(db: Database, base: Id) returns (deleted: nat)
    modifies db`files, db`entities, db`history
    ensures db.Rows() == S.DeleteEmptyFiles(old(db.Rows()), base)
    ensures deleted == |S.EmptyFiles(old(db.Rows()), base)|
  {
    var holding: set<Id> := {};
    var todo := db.entities.Keys;
    while todo != {}
      invariant todo <= db.entities.Keys && holding == SeenFiles(db.entities, todo)
      decreases todo
    {
      var k :| k in todo;
      todo := todo - {k};
      holding := holding + {k.fileId};
    }
    var doomed := set f | f in db.files && db.files[f].syncId == base && f !in holding;
    EmptyMeansUnseen(db.Rows(), base, doomed);
    deleted := |doomed|;
    db.files := db.files - doomed;
    db.entities := map k | k in db.entities && k.fileId !in doomed :: db.entities[k];
    db.history := map h | h in db.history && h.fileId !in doomed :: db.history[h];
  }

  lemma EmptyMeansUnseen(t: Tables, base: Id, doomed: set<Id>)
    requires doomed == set f | f in t.files && t.files[f].syncId == base && f !in SeenFiles(t.entities, {})
    ensures doomed == S.EmptyFiles(t, base)
  {
    forall f
      ensures f in SeenFiles(t.entities, {}) <==> S.EntitiesOf(t.entities, f) != {}
    {
      if f in SeenFiles(t.entities, {}) {
        var k :| k in t.entities && k.fileId == f;
        assert k in S.EntitiesOf(t.entities, f);
      }
      if S.EntitiesOf(t.entities, f) != {} {
        var k :| k in S.EntitiesOf(t.entities, f);
        assert k in t.entities && k.fileId == f;
      }
    }
  }

  method TryClosingSync(db: Database, base: Id) returns (closed: bool)
    modifies db`syncs
    ensures closed <==> S.BaseClosable(old(db.Rows()), base)
    ensures db.Rows() == if closed then S.CloseSync(old(db.Rows()), base) else old(db.Rows())
  {
    var n := CountCompletedFiles(db, base);
    closed := base in db.syncs && db.syncs[base].totalFiles == Some(n);
    if closed {
      db.syncs := db.syncs[base := db.syncs[base].(status := Status.Completed)];
    }
  }

  function SeenCompletedIds(t: Tables, base: Id, todo: set<HistoryKey>): set<Id> {
    set h | h in t.history && h !in todo && S.InFamily(t.syncs, base, h.syncId)
            && t.history[h].row.status == EntityStatus.Completed :: h.entityId
  }

  /** The ids that the EXCEPT of the history query takes out. */
  method CompletedHistoryIds(db: Database, base: Id) returns (ids: set<Id>)
    ensures forall e :: e in ids <==> S.CompletedBefore(db.Rows(), base, e)
  {
    ids := {};
    var todo := db.history.Keys;
    while todo != {}
      invariant todo <= db.history.Keys && ids == SeenCompletedIds(db.Rows(), base, todo)
      decreases todo
    {
      var h :| h in todo;
      ghost var seen := SeenCompletedIds(db.Rows(), base, todo);
      todo := todo - {h};
      if S.InFamily(db.syncs, base, h.syncId) && db.history[h].row.status == EntityStatus.Completed {
        ids := ids + {h.entityId};
        assert SeenCompletedIds(db.Rows(), base, todo) == seen + {h.entityId};
      } else {
        assert SeenCompletedIds(db.Rows(), base, todo) == seen;
      }
    }
    assert ids == SeenCompletedIds(db.Rows(), base, {});
  }

  /** Fails, changing nothing, when a new row repeats a primary key. */
  method CreateEntityHistory(db: Database, base: Id, run: Id) returns (ok: bool)
    modifies db`history
    ensures ok <==> S.CreateEntityHistory(old(db.Rows()), base, run).Ok?
    ensures db.Rows() == if ok then S.CreateEntityHistory(old(db.Rows()), base, run).value else old(db.Rows())
  {
    ghost var before := db.Rows();
    var recorded := CompletedHistoryIds(db, base);
    var rows: map<HistoryKey, Snapshot> := map[];
    var todo := db.entities.Keys;
    while todo != {}
      invariant todo <= db.entities.Keys
      invariant forall h :: h in rows <==>
                  var k := EntityKey(h.entityId, h.fileId);
                  h.syncId == run && k in db.entities && k !in todo && S.ForHistory(before, base, k)
      invariant forall h | h in rows ::
                  rows[h] == Snapshot(
                    if run == base then None else Some(base), db.entities[EntityKey(h.entityId, h.fileId)])
      decreases todo
    {
      var k :| k in todo;
      todo := todo - {k};
      if k.fileId in db.files && db.files[k.fileId].syncId == base
         && db.entities[k].status != EntityStatus.InRerun && k.entityId !in recorded {
        assert S.ForHistory(before, base, k);
        rows := rows[HistoryKey(run, k.entityId, k.fileId) :=
          Snapshot(if run == base then None else Some(base), db.entities[k])];
      }
    }
    RowsAreHistoryRows(before, base, run, rows);
    ok := rows.Keys !! db.history.Keys;
    if ok {
      db.history := db.history + rows;
    }
  }

  lemma RowsAreHistoryRows(t: Tables, base: Id, run: Id, rows: map<HistoryKey, Snapshot>)
    requires forall h :: h in rows <==>
               var k := EntityKey(h.entityId, h.fileId); h.syncId == run && k in t.entities && S.ForHistory(t, base, k)
    requires forall h | h in rows ::
               rows[h] == Snapshot(
                 if run == base then None else Some(base), t.entities[EntityKey(h.entityId, h.fileId)])
    ensures rows == S.HistoryRows(t, base, run)
  {
    var expected := S.HistoryRows(t, base, run);
    forall h
      ensures h in rows <==> h in expected
    {
      if h in rows {
        var k := EntityKey(h.entityId, h.fileId);
        assert S.ForHistory(t, base, k) && h == HistoryKey(run, k.entityId, k.fileId);
      }
      if h in expected {
        var k :| k in t.entities && S.ForHistory(t, base, k) && h == HistoryKey(run, k.entityId, k.fileId);
        assert k == EntityKey(h.entityId, h.fileId);
      }
    }
  }

  function SeenNotSynced(entities: map<EntityKey, Entity>, todo: set<EntityKey>): set<Id> {
    set k | k in entities && k !in todo && entities[k].status == EntityStatus.NotSynced :: k.fileId
  }

  method PrepareIncompleteFiles(db: Database, base: Id)
    modifies db`files
    ensures db.Rows() == S.PrepareIncompleteFiles(old(db.Rows()), base)
  {
    ghost var before := db.Rows();
    var reopen: set<Id> := {};
    var todo := db.entities.Keys;
    while todo != {}
      invariant todo <= db.entities.Keys && reopen == SeenNotSynced(db.entities, todo)
      decreases todo
    {
      var k :| k in todo;
      ghost var seen := SeenNotSynced(db.entities, todo);
      todo := todo - {k};
      if db.entities[k].status == EntityStatus.NotSynced {
        reopen := reopen + {k.fileId};
        assert SeenNotSynced(db.entities, todo) == seen + {k.fileId};
      } else {
        assert SeenNotSynced(db.entities, todo) == seen;
      }
    }
    var rows := db.files.Keys;
    while rows != {}
      invariant rows <= db.files.Keys == before.files.Keys
      invariant db.syncs == before.syncs && db.entities == before.entities && db.history == before.history
      invariant forall f | f in db.files ::
                  db.files[f] == if f in rows then before.files[f] else S.PrepareIncompleteFiles(before, base).files[f]
      decreases rows
    {
      var f :| f in rows;
      rows := rows - {f};
      assert f in reopen <==> S.HoldsNotSynced(before, f);
      if db.files[f].syncId == base && f in reopen {
        db.files := db.files[f := db.files[f].(status := Status.InProgress)];
      }
    }
  }

  method PrepareIncompleteEntities(db: Database, base: Id, notSynced: bool)
    modifies db`entities
    ensures db.Rows() == S.PrepareIncompleteEntities(old(db.Rows()), base, notSynced)
  {
    ghost var before := db.Rows();
    var todo := db.entities.Keys;
    while todo != {}
      invariant todo <= db.entities.Keys == before.entities.Keys
      invariant db.syncs == before.syncs && db.files == before.files && db.history == before.history
      invariant forall k | k in db.entities ::
                  db.entities[k] == if k in todo then before.entities[k]
                                    else S.PrepareIncompleteEntities(before, base, notSynced).entities[k]
      decreases todo
    {
      var k :| k in todo;
      todo := todo - {k};
      if k.fileId in db.files && db.files[k.fileId].syncId == base && S.Resettable(db.entities[k].status, notSynced) {
        db.entities := db.entities[k := S.RESET_ROW];
      }
    }
  }

  /** One pass groups the closed entities by open file, a second compares the counts with the totals. */
  method UpdateDanglingFiles(db: Database, base: Id)
    modifies db`files
    ensures db.Rows() == S.UpdateDanglingFiles(old(db.Rows()), base)
  {
    ghost var before := db.Rows();
    var open := set f | f in db.files && db.files[f].syncId == base && db.files[f].status == Status.InProgress;
    var counts := GroupClosed(db, open);
    GroupedIsDangling(before, base, open, counts);
    CloseCounted(db, counts);
  }

  method CloseCounted(db: Database, counts: map<Id, nat>)
    requires counts.Keys <= db.files.Keys
    modifies db`files
    ensures db.files.Keys == old(db.files.Keys)
    ensures forall f | f in db.files ::
              db.files[f] == if f in counts && old(db.files)[f].totalEntities == Some(counts[f])
                             then old(db.files)[f].(status := Status.Completed) else old(db.files)[f]
  {
    var todo := counts.Keys;
    while todo != {}
      invariant todo <= counts.Keys <= db.files.Keys == old(db.files.Keys)
      invariant forall f | f in db.files ::
                  db.files[f] == if f !in todo && f in counts && old(db.files)[f].totalEntities == Some(counts[f])
                                 then old(db.files)[f].(status := Status.Completed) else old(db.files)[f]
      decreases todo
    {
      var f :| f in todo;
      todo := todo - {f};
      if db.files[f].totalEntities == Some(counts[f]) && db.files[f].status != Status.Completed {
        db.files := db.files[f := db.files[f].(status := Status.Completed)];
      }
    }
  }

  /** The files whose grouped count is their total are the dangling ones. */
  lemma GroupedIsDangling(t: Tables, base: Id, open: set<Id>, counts: map<Id, nat>)
    requires forall f :: f in open <==>
               f in t.files && t.files[f].syncId == base && t.files[f].status == Status.InProgress
    requires forall f :: f in counts <==> f in open && S.ClosedOf(t.entities, f) != {}
    requires forall f | f in counts :: counts[f] == |S.ClosedOf(t.entities, f)|
    ensures forall f :: S.Dangling(t, base, f) <==> f in counts && t.files[f].totalEntities == Some(counts[f])
  {
  }

  lemma SeeOneMore(entities: map<EntityKey, Entity>, todo: set<EntityKey>, k: EntityKey)
    requires k in todo && k in entities
    ensures forall f | f != k.fileId || !S.IsClosed(entities[k].status) ::
              SeenClosed(entities, todo - {k}, f) == SeenClosed(entities, todo, f)
    ensures S.IsClosed(entities[k].status) ==>
              && SeenClosed(entities, todo - {k}, k.fileId) == SeenClosed(entities, todo, k.fileId) + {k}
              && k !in SeenClosed(entities, todo, k.fileId)
  {
  }

  /** SELECT file_id, COUNT(*) ... GROUP BY file_id: no row for a file without closed entities. */
  method GroupClosed(db: Database, open: set<Id>) returns (counts: map<Id, nat>)
    ensures forall f :: f in counts <==> f in open && S.ClosedOf(db.entities, f) != {}
    ensures forall f | f in counts :: counts[f] == |S.ClosedOf(db.entities, f)|
  {
    counts := map[];
    var todo := db.entities.Keys;
    assert forall f :: SeenClosed(db.entities, todo, f) == {};
    while todo != {}
      invariant todo <= db.entities.Keys
      invariant forall f :: f in counts <==> f in open && SeenClosed(db.entities, todo, f) != {}
      invariant forall f | f in counts :: counts[f] == |SeenClosed(db.entities, todo, f)|
      decreases todo
    {
      var k :| k in todo;
      ghost var unseen := todo;
      todo := todo - {k};
      SeeOneMore(db.entities, unseen, k);
      if k.fileId in open && S.IsClosed(db.entities[k].status) {
        counts := counts[k.fileId := (if k.fileId in counts then counts[k.fileId] else 0) + 1];
      }
    }
    assert forall f :: SeenClosed(db.entities, {}, f) == S.ClosedOf(db.entities, f);
  }

  /******* The rerun transaction *******/

  method Restore(db: Database, rows: Tables)
    modifies db
    ensures db.Rows() == rows
  {
    db.syncs, db.files, db.entities, db.history := rows.syncs, rows.files, rows.entities, rows.history;
  }

  /** The statements between the latest-run query and the insert; a failure leaves the tables alone. */
  method PrepareRerun(db: Database, base: Id, run: Id, notSynced: bool) returns (ok: bool)
    modifies db
    ensures ok <==> S.PrepareRerun(old(db.Rows()), base, run, notSynced).Ok?
    ensures db.Rows() == if ok then S.PrepareRerun(old(db.Rows()), base, run, notSynced).value else old(db.Rows())
  {
    ok := CreateEntityHistory(db, base, run);
    if !ok { return; }
    if notSynced {
      PrepareIncompleteFiles(db, base);
    } else {
      UpdateDanglingFiles(db, base);
    }
    PrepareIncompleteEntities(db, base, notSynced);
  }

  /** A failed statement rolls everything back. `latest` is the last rerun, read unless the base was closed. */
  method CreateRerun(db: Database, request: S.RerunRequest) returns (result: Result<bool>, ghost latest: Option<Id>)
    modifies db
    ensures result == Ok(false) || S.IsLastRerun(old(db.syncs), request.baseSyncId, latest)
    ensures match S.CreateRerun(old(db.Rows()), request, latest)
            case Ok(outcome) => result == Ok(outcome.created) && db.Rows() == outcome.tables
            case Err(e) => result == Err(e) && db.Rows() == old(db.Rows())
  {
    var base := request.baseSyncId;
    var saved := db.Rows();
    var deleted := DeleteEmptyFiles(db, base);
    if deleted != 0 {
      var closed := TryClosingSync(db, base);
      if closed { return Ok(false), None; }
    }
    var last := FindLastRerun(db, base);
    latest := last;
    var prepared := PrepareRerun(db, base, S.LatestRun(base, last), request.notSynced);
    if !prepared {
      Restore(db, saved);
      return Err(UniqueViolation), latest;
    }
    if request.id in db.syncs {
      Restore(db, saved);
      return Err(UniqueViolation), latest;
    }
    db.syncs := db.syncs[request.id := Sync(
      Status.InProgress, request.totalFiles, Some(base), request.runNumber, request.details)];
    result := Ok(true);
  }

  /******* Changeset repository *******/

  method UpdateEntitiesOfChangesetAsCompleted(db: Database, changesetId: Id)
    modifies db`entities
    ensures db.Rows() == S.CompleteChangeset(old(db.Rows()), changesetId)
  {
    ghost var before := db.Rows();
    var todo := db.entities.Keys;
    while todo != {}
      invariant todo <= db.entities.Keys == before.entities.Keys
      invariant db.syncs == before.syncs && db.files == before.files && db.history == before.history
      invariant forall k | k in db.entities ::
                  db.entities[k] == if k in todo then before.entities[k]
                                    else S.CompleteChangeset(before, changesetId).entities[k]
      decreases todo
    {
      var k :| k in todo;
      todo := todo - {k};
      if db.entities[k].changesetId == Some(changesetId) {
        db.entities := db.entities[k := db.entities[k].(status := EntityStatus.Completed)];
      }
    }
  }
}
