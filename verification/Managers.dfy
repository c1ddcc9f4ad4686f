/** The sync, file and entity managers on the database, each proved against its function on the tables. */
module Managers {
  import opened Types
  import opened Database
  import opened Requests
  import S = Statements
  import Repositories

  /******* Sync manager *******/

  /** The guards, in order, and the request with the next run number; `last` is the rerun that was read. */
  method CheckRerun(db: Database, base: Id, rerunId: Id, notSynced: bool)
    returns (result: Result<S.RerunRequest>, ghost last: Option<Id>)
    ensures S.IsLastRerun(db.syncs, base, last)
    ensures result == S.CheckRerun(db.syncs, base, rerunId, notSynced, last)
  {
    var found := Repositories.FindLastRerun(db, base);
    last := found;
    if rerunId in db.syncs { return Err(RerunAlreadyExists), last; }
    if base !in db.syncs { return Err(SyncNotFound), last; }
    var sync := db.syncs[base];
    if sync.runNumber != 0 || sync.status != Status.Failed { return Err(InvalidSyncForRerun), last; }
    var runNumber := 1;
    if found.Some? {
      var rerun := db.syncs[found.value];
      if rerun.status != Status.Failed { return Err(InvalidSyncForRerun), last; }
      runNumber := rerun.runNumber + 1;
    }
    result := Ok(S.RerunRequest(rerunId, base, sync.totalFiles, runNumber, sync.details, notSynced));
  }

  /** Answers whether a rerun was created; `last` and `latest` are the two reads of the last rerun. */
  method RerunSyncIfNeeded(db: Database, base: Id, rerunId: Id, notSynced: bool)
    returns (result: Result<bool>, ghost last: Option<Id>, ghost latest: Option<Id>)
    modifies db
    ensures S.IsLastRerun(old(db.syncs), base, last) && S.IsLastRerun(old(db.syncs), base, latest)
    ensures match S.RerunSyncIfNeeded(old(db.Rows()), base, rerunId, notSynced, last, latest)
            case Ok(outcome) => result == Ok(outcome.created) && db.Rows() == outcome.tables
            case Err(e) => result == Err(e) && db.Rows() == old(db.Rows())
  {
    var checked, read := CheckRerun(db, base, rerunId, notSynced);
    last, latest := read, read;
    match checked
    case Err(e) => result := Err(e);
    case Ok(request) =>
      ghost var reread;
      result, reread := Repositories.CreateRerun(db, request);
      latest := if result == Ok(false) then last else reread;
  }

  method CreateSync(db: Database, id: Id, row: Sync) returns (error: Option<Error>)
    modifies db`syncs
    ensures match Requests.CreateSync(old(db.Rows()), id, row)
            case Ok(t) => error == None && db.Rows() == t
            case Err(e) => error == Some(e) && db.Rows() == old(db.Rows())
  {
    if id in db.syncs { return Some(SyncAlreadyExists); }
    if row.details.isFull {
      var existing := FindFullSyncs(db, row.details.layerId, row.details.geometry);
      if existing != {} {
        assert exists x :: x in existing;
        return Some(FullSyncAlreadyExists);
      }
    }
    db.syncs := db.syncs[id := row];
    error := None;
  }

  /** The full syncs, reruns among them, of a layer and geometry. */
  method FindFullSyncs(db: Database, layerId: int, geometry: Geometry) returns (found: set<Id>)
    ensures forall x :: x in found <==>
              x in db.syncs && db.syncs[x].details.isFull
              && db.syncs[x].details.layerId == layerId && db.syncs[x].details.geometry == geometry
  {
    found := {};
    var todo := db.syncs.Keys;
    while todo != {}
      invariant todo <= db.syncs.Keys
      invariant forall x :: x in found <==>
                  x in db.syncs && x !in todo && db.syncs[x].details.isFull
                  && db.syncs[x].details.layerId == layerId && db.syncs[x].details.geometry == geometry
      decreases todo
    {
      var x :| x in todo;
      todo := todo - {x};
      var details := db.syncs[x].details;
      if details.isFull && details.layerId == layerId && details.geometry == geometry {
        found := found + {x};
      }
    }
  }

  method UpdateSync(db: Database, id: Id, patch: SyncPatch) returns (error: Option<Error>)
    modifies db`syncs
    ensures match Requests.UpdateSync(old(db.Rows()), id, patch)
            case Ok(t) => error == None && db.Rows() == t
            case Err(e) => error == Some(e) && db.Rows() == old(db.Rows())
  {
    if id !in db.syncs { return Some(SyncNotFound); }
    var row := db.syncs[id];
    var details := row.details.(metadata := Some(Properties(row.details.metadata) + Properties(patch.metadata)));
    if patch.layerId.Given? { details := details.(layerId := patch.layerId.value); }
    if patch.geometry.Given? { details := details.(geometry := patch.geometry.value); }
    if patch.status.Given? { row := row.(status := patch.status.value); }
    if patch.totalFiles.Given? { row := row.(totalFiles := patch.totalFiles.value); }
    db.syncs := db.syncs[id := row.(details := details)];
    error := None;
  }

  /******* File manager *******/

  method CreateFile(db: Database, syncId: Id, file: NewFile) returns (error: Option<Error>)
    modifies db`files
    ensures match Requests.CreateFile(old(db.Rows()), syncId, file)
            case Ok(t) => error == None && db.Rows() == t
            case Err(e) => error == Some(e) && db.Rows() == old(db.Rows())
  {
    error := None;
    if syncId !in db.syncs { return Some(SyncNotFound); }
    var sync := db.syncs[syncId];
    if sync.baseSyncId != None {
      error := CreateRerunFile(db, sync.baseSyncId.value, file);
      return;
    }
    if file.fileId in db.files { return Some(FileAlreadyExists); }
    db.files := InsertFile(db.files, syncId, file);
  }

  method CreateRerunFile(db: Database, base: Id, file: NewFile) returns (error: Option<Error>)
    modifies db`files
    ensures db.Rows() == old(db.Rows()).(files := db.files)
    ensures error == None <==> file.fileId in old(db.files) ==>
              && old(db.files)[file.fileId].syncId == base
              && old(db.files)[file.fileId].totalEntities == file.totalEntities
    ensures error == None || error == Some(ConflictingRerunFile)
    ensures db.files == if file.fileId in old(db.files) then old(db.files) else InsertFile(old(db.files), base, file)
  {
    error := None;
    if file.fileId !in db.files {
      db.files := InsertFile(db.files, base, file);
      return;
    }
    var existing := db.files[file.fileId];
    if existing.syncId != base { return Some(ConflictingRerunFile); }
    if existing.totalEntities != file.totalEntities { return Some(ConflictingRerunFile); }
  }

  /** Inserts all files on the named sync, rerun or not, or none. */
  method CreateFiles(db: Database, syncId: Id, added: seq<NewFile>) returns (error: Option<Error>)
    modifies db`files
    ensures match Requests.CreateFiles(old(db.Rows()), syncId, added)
            case Ok(t) => error == None && db.Rows() == t
            case Err(e) => error == Some(e) && db.Rows() == old(db.Rows())
  {
    if !NoDuplicates(FileIds(added)) { return Some(DuplicateFiles); }
    if syncId !in db.syncs { return Some(SyncNotFound); }
    if exists i :: 0 <= i < |added| && added[i].fileId in db.files { return Some(FileAlreadyExists); }
    ghost var goal := InsertFiles(db.files, syncId, added);
    for i := 0 to |added|
      invariant InsertFiles(db.files, syncId, added[i..]) == goal
    {
      assert added[i..][1..] == added[i + 1..];
      db.files := InsertFile(db.files, syncId, added[i]);
    }
    error := None;
  }

  method UpdateFile(db: Database, syncId: Id, fileId: Id, totalEntities: Field<Option<int>>)
    returns (error: Option<Error>)
    modifies db`files
    ensures match Requests.UpdateFile(old(db.Rows()), syncId, fileId, totalEntities)
            case Ok(t) => error == None && db.Rows() == t
            case Err(e) => error == Some(e) && db.Rows() == old(db.Rows())
  {
    if syncId !in db.syncs { return Some(SyncNotFound); }
    if fileId !in db.files { return Some(FileNotFound); }
    if totalEntities.Given? {
      db.files := db.files[fileId := db.files[fileId].(totalEntities := totalEntities.value)];
    }
    error := None;
    assert totalEntities.Absent? ==> old(db.files)[fileId := old(db.files)[fileId]] == old(db.files);
  }

  /******* Entity manager *******/

  method CreateEntity(db: Database, w: EntityWrite) returns (error: Option<Error>)
    modifies db`entities
    ensures match Requests.CreateEntity(old(db.Rows()), w)
            case Ok(t) => error == None && db.Rows() == t
            case Err(e) => error == Some(e) && db.Rows() == old(db.Rows())
  {
    if w.key.fileId !in db.files { return Some(FileNotFound); }
    if w.key in db.entities { return Some(EntityAlreadyExists); }
    db.entities := Save(db.entities, w);
    error := None;
  }

  method UpdateEntity(db: Database, w: EntityWrite) returns (error: Option<Error>)
    modifies db`entities
    ensures match Requests.UpdateEntity(old(db.Rows()), w)
            case Ok(t) => error == None && db.Rows() == t
            case Err(e) => error == Some(e) && db.Rows() == old(db.Rows())
  {
    if w.key.fileId !in db.files { return Some(FileNotFound); }
    if w.key !in db.entities { return Some(EntityNotFound); }
    db.entities := Save(db.entities, w);
    error := None;
  }

  /** Saves the rows one after another. */
  method SaveRows(db: Database, writes: seq<EntityWrite>)
    modifies db`entities
    ensures db.Rows() == old(db.Rows()).(entities := SaveAll(old(db.entities), writes))
  {
    ghost var goal := SaveAll(db.entities, writes);
    for i := 0 to |writes|
      invariant SaveAll(db.entities, writes[i..]) == goal
      invariant db.syncs == old(db.syncs) && db.files == old(db.files) && db.history == old(db.history)
    {
      assert writes[i..][1..] == writes[i + 1..];
      db.entities := Save(db.entities, writes[i]);
    }
  }

  datatype BulkAnswer = BulkAnswer(created: seq<Id>, previouslyCompleted: seq<Id>)

  /** The stored rows among the requested ones. */
  method FindManyByIds(db: Database, fileId: Id, ids: seq<Id>) returns (existing: map<Id, Entity>)
    ensures forall id :: id in existing <==> id in ids && EntityKey(id, fileId) in db.entities
    ensures forall id | id in existing :: existing[id] == db.entities[EntityKey(id, fileId)]
  {
    existing := map[];
    for i := 0 to |ids|
      invariant forall id :: id in existing <==> id in ids[..i] && EntityKey(id, fileId) in db.entities
      invariant forall id | id in existing :: existing[id] == db.entities[EntityKey(id, fileId)]
    {
      assert ids[..i + 1] == ids[..i] + [ids[i]];
      if EntityKey(ids[i], fileId) in db.entities {
        existing := existing[ids[i] := db.entities[EntityKey(ids[i], fileId)]];
      }
    }
    assert ids[..|ids|] == ids;
  }

  method CreateEntities(db: Database, fileId: Id, requests: seq<NewEntity>) returns (result: Result<BulkAnswer>)
    modifies db`entities
    ensures match Requests.CreateEntities(old(db.Rows()), fileId, requests)
            case Ok(outcome) =>
              && result == Ok(BulkAnswer(outcome.created, outcome.previouslyCompleted))
              && db.Rows() == outcome.tables
            case Err(e) => result == Err(e) && db.Rows() == old(db.Rows())
  {
    if fileId !in db.files { return Err(FileNotFound); }
    var ids := EntityIds(requests);
    var writes := WithFile(requests, fileId);
    if !NoDuplicates(ids) { return Err(DuplicateEntity); }
    var existing := FindManyByIds(db, fileId, ids);
    if !HasReruns(db.syncs, db.files[fileId].syncId) {
      if existing != map[] {
        assert exists id :: id in existing.Keys;
        assert exists i :: 0 <= i < |ids| && EntityKey(ids[i], fileId) in db.entities;
        return Err(EntityAlreadyExists);
      }
      assert forall i | 0 <= i < |ids| :: ids[i] !in existing;
      SaveRows(db, writes);
      return Ok(BulkAnswer(ids, []));
    }
    // The new ids and the ids in rerun are saved, the others are answered as completed before.
    var nonExisting := Difference(ids, existing.Keys);
    var inRerun := set id | id in existing && existing[id].status == EntityStatus.InRerun;
    var upsert := KeepIds(writes, (set id | id in nonExisting) + inRerun);
    var created := KeyedIds(upsert);
    var previous := Difference(ids, set id | id in created);
    DifferenceElements(ids, existing.Keys);
    PipelineAnswers(db.Rows(), fileId, requests, (set id | id in nonExisting) + inRerun);
    SaveRows(db, upsert);
    result := Ok(BulkAnswer(created, previous));
  }

  function Difference(ids: seq<Id>, others: set<Id>): seq<Id> {
    if ids == [] then []
    else if ids[0] in others then Difference(ids[1..], others)
    else [ids[0]] + Difference(ids[1..], others)
  }

  lemma {:induction false} DifferenceElements(ids: seq<Id>, others: set<Id>)
    ensures forall id :: id in Difference(ids, others) <==> id in ids && id !in others
  {
    if ids != [] {
      DifferenceElements(ids[1..], others);
      assert ids == [ids[0]] + ids[1..];
    }
  }

  function KeepIds(writes: seq<EntityWrite>, ids: set<Id>): seq<EntityWrite> {
    if writes == [] then []
    else if writes[0].key.entityId in ids then [writes[0]] + KeepIds(writes[1..], ids)
    else KeepIds(writes[1..], ids)
  }

  /** Filter, map and difference give the rows to save and the two answer lists. */
  lemma PipelineAnswers(t: Tables, fileId: Id, requests: seq<NewEntity>, kept: set<Id>)
    requires NoDuplicates(EntityIds(requests))
    requires forall id | id in EntityIds(requests) :: id in kept <==> Writable(t.entities, EntityKey(id, fileId))
    ensures var upsert, ids := KeepIds(WithFile(requests, fileId), kept), EntityIds(requests);
            && upsert == WritableOnly(t.entities, WithFile(requests, fileId))
            && KeyedIds(upsert) == WritableIds(t.entities, fileId, ids, true)
            && Difference(ids, set id | id in KeyedIds(upsert)) == WritableIds(t.entities, fileId, ids, false)
  {
    var upsert, ids := KeepIds(WithFile(requests, fileId), kept), EntityIds(requests);
    KeptIsWritable(t.entities, fileId, requests, kept);
    WritableElements(t.entities, fileId, ids);
    RestIsDifference(t.entities, fileId, ids, set id | id in KeyedIds(upsert));
  }

  lemma {:induction false} KeptIsWritable(
    entities: map<EntityKey, Entity>, fileId: Id, requests: seq<NewEntity>, kept: set<Id>)
    requires forall id | id in EntityIds(requests) :: id in kept <==> Writable(entities, EntityKey(id, fileId))
    ensures var upsert := KeepIds(WithFile(requests, fileId), kept);
            && upsert == WritableOnly(entities, WithFile(requests, fileId))
            && KeyedIds(upsert) == WritableIds(entities, fileId, EntityIds(requests), true)
    decreases |requests|
  {
    if requests != [] {
      var ids, writes := EntityIds(requests), WithFile(requests, fileId);
      assert ids[1..] == EntityIds(requests[1..]) && writes[1..] == WithFile(requests[1..], fileId);
      assert ids == [ids[0]] + ids[1..];
      KeptIsWritable(entities, fileId, requests[1..], kept);
      var rest := KeepIds(writes[1..], kept);
      assert KeyedIds([writes[0]] + rest) == [ids[0]] + KeyedIds(rest);
    }
  }

  lemma {:induction false} WritableElements(entities: map<EntityKey, Entity>, fileId: Id, ids: seq<Id>)
    ensures forall id :: id in WritableIds(entities, fileId, ids, true) <==>
                         id in ids && Writable(entities, EntityKey(id, fileId))
  {
    if ids != [] {
      WritableElements(entities, fileId, ids[1..]);
      assert ids == [ids[0]] + ids[1..];
    }
  }

  lemma {:induction false} RestIsDifference(
    entities: map<EntityKey, Entity>, fileId: Id, ids: seq<Id>, others: set<Id>)
    requires forall id | id in ids :: id in others <==> Writable(entities, EntityKey(id, fileId))
    ensures Difference(ids, others) == WritableIds(entities, fileId, ids, false)
  {
    if ids != [] {
      assert ids == [ids[0]] + ids[1..];
      RestIsDifference(entities, fileId, ids[1..], others);
    }
  }

  method UpdateEntities(db: Database, writes: seq<EntityWrite>, emptyCount: nat) returns (error: Option<Error>)
    modifies db`entities
    ensures match Requests.UpdateEntities(old(db.Rows()), writes, emptyCount)
            case Ok(t) => error == None && db.Rows() == t
            case Err(e) => error == Some(e) && db.Rows() == old(db.Rows())
  {
    if !NoDuplicates(KeyedIds(writes)) { return Some(DuplicateEntity); }
    if CountByIds(db.entities, writes, emptyCount) != |writes| { return Some(EntityNotFound); }
    SaveRows(db, writes);
    error := None;
  }
}
