/** Bulk entity writes: what they change, what they refuse, and what a repeated request does. */
module EntityWrites {
  import opened Types
  import opened Statements
  import opened Requests
  import opened SetFacts

  /******* Saving a list of rows *******/

  ghost predicate DistinctKeys(writes: seq<EntityWrite>) {
    forall i, j | 0 <= i < j < |writes| :: writes[i].key != writes[j].key
  }

  /** A given property is stored, a missing one stays. */
  ghost predicate Follows<T>(field: Field<T>, before: T, after: T) {
    (field.Given? ==> after == field.value) && (field.Absent? ==> after == before)
  }

  /** The row holds what the write gives, and else what was there or, on a new row, the column defaults. */
  ghost predicate AsRequested(entities: map<EntityKey, Entity>, w: EntityWrite, row: Entity) {
    var known := w.key in entities;
    && Follows(w.fields.status, if known then entities[w.key].status else EntityStatus.InProgress, row.status)
    && Follows(w.fields.changesetId, if known then entities[w.key].changesetId else None, row.changesetId)
    && Follows(w.fields.action, if known then entities[w.key].action else None, row.action)
    && Follows(w.fields.failReason, if known then entities[w.key].failReason else None, row.failReason)
  }

  lemma SavedAsRequested(entities: map<EntityKey, Entity>, w: EntityWrite)
    ensures AsRequested(entities, w, SavedRow(entities, w))
  {
  }

  lemma WriteKeysSplit(writes: seq<EntityWrite>)
    requires writes != []
    ensures WriteKeys(writes) == {writes[0].key} + WriteKeys(writes[1..])
  {
    forall k | k in WriteKeys(writes)
      ensures k in {writes[0].key} + WriteKeys(writes[1..])
    {
      var i :| 0 <= i < |writes| && writes[i].key == k;
      if i > 0 {
        assert writes[1..][i - 1].key == k;
      }
    }
    forall k | k in WriteKeys(writes[1..])
      ensures k in WriteKeys(writes)
    {
      var i :| 0 <= i < |writes[1..]| && writes[1..][i].key == k;
      assert writes[i + 1].key == k;
    }
  }

  lemma {:induction false} SaveAllEffect(entities: map<EntityKey, Entity>, writes: seq<EntityWrite>)
    ensures SaveAll(entities, writes).Keys == entities.Keys + WriteKeys(writes)
    ensures forall k | k in entities && k !in WriteKeys(writes) :: SaveAll(entities, writes)[k] == entities[k]
    decreases |writes|
  {
    if writes != [] {
      WriteKeysSplit(writes);
      SaveAllEffect(Save(entities, writes[0]), writes[1..]);
    }
  }

  lemma {:induction false} SaveAllRows(entities: map<EntityKey, Entity>, writes: seq<EntityWrite>, i: nat)
    requires DistinctKeys(writes) && i < |writes|
    ensures writes[i].key in SaveAll(entities, writes)
    ensures SaveAll(entities, writes)[writes[i].key] == SavedRow(entities, writes[i])
    ensures AsRequested(entities, writes[i], SaveAll(entities, writes)[writes[i].key])
    decreases |writes|
  {
    var saved := Save(entities, writes[0]);
    SavedAsRequested(entities, writes[i]);
    if i == 0 {
      SaveAllEffect(saved, writes[1..]);
      assert writes[0].key !in WriteKeys(writes[1..]);
    } else {
      SaveAllRows(saved, writes[1..], i - 1);
      assert writes[i].key != writes[0].key;
    }
  }

  lemma {:induction false} SaveAllNoChange(entities: map<EntityKey, Entity>, writes: seq<EntityWrite>)
    requires forall i | 0 <= i < |writes| ::
               writes[i].key in entities && SavedRow(entities, writes[i]) == entities[writes[i].key]
    ensures SaveAll(entities, writes) == entities
    decreases |writes|
  {
    if writes != [] {
      assert Save(entities, writes[0]) == entities;
      forall i | 0 <= i < |writes[1..]|
        ensures writes[1..][i].key in entities && SavedRow(entities, writes[1..][i]) == entities[writes[1..][i].key]
      {
        assert writes[1..][i] == writes[i + 1];
      }
      SaveAllNoChange(entities, writes[1..]);
    }
  }

  /******* Bulk creation *******/

  lemma {:induction false} WritableOnlyElements(entities: map<EntityKey, Entity>, writes: seq<EntityWrite>)
    ensures forall w :: w in WritableOnly(entities, writes) <==> w in writes && Writable(entities, w.key)
    ensures DistinctKeys(writes) ==> DistinctKeys(WritableOnly(entities, writes))
  {
    if writes != [] {
      var rest := WritableOnly(entities, writes[1..]);
      WritableOnlyElements(entities, writes[1..]);
      assert writes == [writes[0]] + writes[1..];
      if DistinctKeys(writes) {
        forall j | 0 <= j < |rest|
          ensures rest[j].key != writes[0].key
        {
          assert rest[j] in writes[1..];
        }
      }
    }
  }

  /** `xs` is `ys` with some elements left out. */
  predicate Subsequence<T(==)>(xs: seq<T>, ys: seq<T>) {
    xs == [] || (ys != [] && ((xs[0] == ys[0] && Subsequence(xs[1..], ys[1..])) || Subsequence(xs, ys[1..])))
  }

  lemma {:induction false} AnswerKeepsOrder(entities: map<EntityKey, Entity>, fileId: Id, ids: seq<Id>, writable: bool)
    ensures Subsequence(WritableIds(entities, fileId, ids, writable), ids)
    ensures forall id :: id in WritableIds(entities, fileId, ids, writable) <==>
                         id in ids && Writable(entities, EntityKey(id, fileId)) == writable
  {
    if ids != [] {
      AnswerKeepsOrder(entities, fileId, ids[1..], writable);
      assert ids == [ids[0]] + ids[1..];
      var rest := WritableIds(entities, fileId, ids[1..], writable);
      assert ([ids[0]] + rest)[1..] == rest;
    }
  }

  lemma {:induction false} AnswerCovers(entities: map<EntityKey, Entity>, fileId: Id, ids: seq<Id>)
    ensures multiset(WritableIds(entities, fileId, ids, true)) + multiset(WritableIds(entities, fileId, ids, false))
            == multiset(ids)
  {
    if ids != [] {
      AnswerCovers(entities, fileId, ids[1..]);
      assert ids == [ids[0]] + ids[1..];
    }
  }

  /** The two answer lists of a bulk creation on a rerun split the request, in its order. */
  lemma AnswerSplits(t: Tables, fileId: Id, requests: seq<NewEntity>)
    requires fileId in t.files && NoDuplicates(EntityIds(requests)) && HasReruns(t.syncs, t.files[fileId].syncId)
    ensures var outcome, ids := CreateEntities(t, fileId, requests).value, EntityIds(requests);
            && Subsequence(outcome.created, ids) && Subsequence(outcome.previouslyCompleted, ids)
            && multiset(outcome.created) + multiset(outcome.previouslyCompleted) == multiset(ids)
            && (forall id :: id in outcome.created <==>
                  id in ids && (EntityKey(id, fileId) in t.entities ==>
                                t.entities[EntityKey(id, fileId)].status == EntityStatus.InRerun))
            && (forall id | id in outcome.created :: id !in outcome.previouslyCompleted)
  {
    AnswerKeepsOrder(t.entities, fileId, EntityIds(requests), true);
    AnswerKeepsOrder(t.entities, fileId, EntityIds(requests), false);
    AnswerCovers(t.entities, fileId, EntityIds(requests));
  }

  lemma RequestKeysDiffer(requests: seq<NewEntity>, fileId: Id)
    requires NoDuplicates(EntityIds(requests))
    ensures DistinctKeys(WithFile(requests, fileId))
  {
    var ids := EntityIds(requests);
    forall i, j | 0 <= i < j < |requests|
      ensures WithFile(requests, fileId)[i].key != WithFile(requests, fileId)[j].key
    {
      assert ids[i] != ids[j];
    }
  }

  /** The row an entity of the request has afterwards. */
  function RowAfter(t: Tables, fileId: Id, e: NewEntity): Entity {
    var k := EntityKey(e.entityId, fileId);
    if Writable(t.entities, k) then SavedRow(t.entities, EntityWrite(k, e.fields)) else t.entities[k]
  }

  ghost predicate Addressed(requests: seq<NewEntity>, fileId: Id, k: EntityKey) {
    k.fileId == fileId && k.entityId in EntityIds(requests)
  }

  lemma AddressedKeys(requests: seq<NewEntity>, fileId: Id)
    ensures forall k :: k in WriteKeys(WithFile(requests, fileId)) <==> Addressed(requests, fileId, k)
  {
    var writes, ids := WithFile(requests, fileId), EntityIds(requests);
    forall k | k in WriteKeys(writes)
      ensures Addressed(requests, fileId, k)
    {
      var i :| 0 <= i < |writes| && writes[i].key == k;
      assert ids[i] == k.entityId;
    }
    forall k | Addressed(requests, fileId, k)
      ensures k in WriteKeys(writes)
    {
      var i :| 0 <= i < |ids| && ids[i] == k.entityId;
      assert writes[i].key == k;
    }
  }

  /** The rows kept for saving are addressed and writable. */
  lemma KeptKeys(t: Tables, fileId: Id, requests: seq<NewEntity>)
    requires NoDuplicates(EntityIds(requests))
    ensures var kept := WritableOnly(t.entities, WithFile(requests, fileId));
            && DistinctKeys(kept)
            && (forall k | k in WriteKeys(kept) :: Addressed(requests, fileId, k) && Writable(t.entities, k))
  {
    var writes := WithFile(requests, fileId);
    var kept := WritableOnly(t.entities, writes);
    RequestKeysDiffer(requests, fileId);
    WritableOnlyElements(t.entities, writes);
    AddressedKeys(requests, fileId);
    forall k | k in WriteKeys(kept)
      ensures Addressed(requests, fileId, k) && Writable(t.entities, k)
    {
      var i :| 0 <= i < |kept| && kept[i].key == k;
      assert kept[i] in writes;
      assert k in WriteKeys(writes);
    }
  }

  lemma RequestedRow(t: Tables, fileId: Id, requests: seq<NewEntity>, i: nat)
    requires NoDuplicates(EntityIds(requests)) && i < |requests|
    ensures var entities' := SaveAll(t.entities, WritableOnly(t.entities, WithFile(requests, fileId)));
            var k := EntityKey(requests[i].entityId, fileId);
            k in entities' && entities'[k] == RowAfter(t, fileId, requests[i])
  {
    var writes := WithFile(requests, fileId);
    var kept := WritableOnly(t.entities, writes);
    KeptKeys(t, fileId, requests);
    if Writable(t.entities, writes[i].key) {
      WritableOnlyElements(t.entities, writes);
      assert writes[i] in kept;
      var j :| 0 <= j < |kept| && kept[j] == writes[i];
      SaveAllRows(t.entities, kept, j);
    } else {
      SaveAllEffect(t.entities, kept);
      assert writes[i].key !in WriteKeys(kept);
    }
  }

  /** Bulk creation on a rerun writes exactly the requested rows that are absent or in rerun. */
  lemma {:induction false} RerunCreationRows(t: Tables, fileId: Id, requests: seq<NewEntity>)
    requires fileId in t.files && NoDuplicates(EntityIds(requests)) && HasReruns(t.syncs, t.files[fileId].syncId)
    ensures CreateEntities(t, fileId, requests).Ok?
    ensures var t' := CreateEntities(t, fileId, requests).value.tables;
            && t' == t.(entities := t'.entities)
            && (forall k :: k in t'.entities <==> k in t.entities || Addressed(requests, fileId, k))
            && (forall k | k in t.entities && (!Addressed(requests, fileId, k) || !Writable(t.entities, k)) ::
                  t'.entities[k] == t.entities[k])
            && (forall i | 0 <= i < |requests| ::
                  var k := EntityKey(requests[i].entityId, fileId);
                  && k in t'.entities && t'.entities[k] == RowAfter(t, fileId, requests[i])
                  && (Writable(t.entities, k) ==>
                        AsRequested(t.entities, EntityWrite(k, requests[i].fields), t'.entities[k])))
  {
    var t' := CreateEntities(t, fileId, requests).value.tables;
    KeptKeys(t, fileId, requests);
    SaveAllEffect(t.entities, WritableOnly(t.entities, WithFile(requests, fileId)));
    forall i | 0 <= i < |requests|
      ensures var k := EntityKey(requests[i].entityId, fileId);
              && k in t'.entities && t'.entities[k] == RowAfter(t, fileId, requests[i])
              && (Writable(t.entities, k) ==>
                    AsRequested(t.entities, EntityWrite(k, requests[i].fields), t'.entities[k]))
    {
      RequestedRow(t, fileId, requests, i);
      SavedAsRequested(t.entities, EntityWrite(EntityKey(requests[i].entityId, fileId), requests[i].fields));
    }
    forall k | Addressed(requests, fileId, k)
      ensures k in t'.entities
    {
      var i :| 0 <= i < |EntityIds(requests)| && EntityIds(requests)[i] == k.entityId;
      assert EntityKey(requests[i].entityId, fileId) == k;
    }
  }

  /** Sending a bulk creation on a rerun twice is sending it once. */
  lemma {:induction false} RerunCreationRepeats(t: Tables, fileId: Id, requests: seq<NewEntity>)
    requires fileId in t.files && NoDuplicates(EntityIds(requests)) && HasReruns(t.syncs, t.files[fileId].syncId)
    ensures var t' := CreateEntities(t, fileId, requests).value.tables;
            && CreateEntities(t', fileId, requests).Ok?
            && CreateEntities(t', fileId, requests).value.tables == t'
  {
    RerunCreationRows(t, fileId, requests);
    var t' := CreateEntities(t, fileId, requests).value.tables;
    var writes := WithFile(requests, fileId);
    var again := WritableOnly(t'.entities, writes);
    WritableOnlyElements(t'.entities, writes);
    forall j | 0 <= j < |again|
      ensures again[j].key in t'.entities && SavedRow(t'.entities, again[j]) == t'.entities[again[j].key]
    {
      assert again[j] in writes;
      var i :| 0 <= i < |writes| && writes[i] == again[j];
      assert t'.entities[again[j].key] == RowAfter(t, fileId, requests[i]);
    }
    SaveAllNoChange(t'.entities, again);
  }

  /** When every request sets a status the API accepts, the repeat reports nothing created. */
  lemma {:induction false} RepeatCreatesNothing(t: Tables, fileId: Id, requests: seq<NewEntity>)
    requires fileId in t.files && NoDuplicates(EntityIds(requests)) && HasReruns(t.syncs, t.files[fileId].syncId)
    requires forall i | 0 <= i < |requests| ::
               requests[i].fields.status.Given? && requests[i].fields.status.value != EntityStatus.InRerun
    ensures var t' := CreateEntities(t, fileId, requests).value.tables;
            var repeat := CreateEntities(t', fileId, requests);
            repeat.Ok? && repeat.value.created == [] && repeat.value.previouslyCompleted == EntityIds(requests)
  {
    RerunCreationRows(t, fileId, requests);
    var t' := CreateEntities(t, fileId, requests).value.tables;
    var ids := EntityIds(requests);
    forall i | 0 <= i < |ids|
      ensures !Writable(t'.entities, EntityKey(ids[i], fileId))
    {
      assert EntityKey(requests[i].entityId, fileId) in t'.entities;
    }
    NoneWritable(t'.entities, fileId, ids);
  }

  lemma {:induction false} NoneWritable(entities: map<EntityKey, Entity>, fileId: Id, ids: seq<Id>)
    requires forall i | 0 <= i < |ids| :: !Writable(entities, EntityKey(ids[i], fileId))
    ensures WritableIds(entities, fileId, ids, true) == []
    ensures WritableIds(entities, fileId, ids, false) == ids
  {
    if ids != [] {
      forall i | 0 <= i < |ids[1..]|
        ensures !Writable(entities, EntityKey(ids[1..][i], fileId))
      {
        assert ids[1..][i] == ids[i + 1];
      }
      NoneWritable(entities, fileId, ids[1..]);
    }
  }

  /** On a sync without reruns a bulk creation only adds rows, and sending it again is refused. */
  lemma {:induction false} FirstCreationAdds(t: Tables, fileId: Id, requests: seq<NewEntity>)
    requires CreateEntities(t, fileId, requests).Ok? && !HasReruns(t.syncs, t.files[fileId].syncId)
    ensures var t' := CreateEntities(t, fileId, requests).value.tables;
            && t' == t.(entities := t'.entities)
            && t'.entities.Keys == t.entities.Keys + WriteKeys(WithFile(requests, fileId))
            && (forall k | k in t.entities :: t'.entities[k] == t.entities[k])
            && (forall i | 0 <= i < |requests| ::
                  var w := EntityWrite(EntityKey(requests[i].entityId, fileId), requests[i].fields);
                  w.key in t'.entities && AsRequested(t.entities, w, t'.entities[w.key]))
            && (requests != [] ==> CreateEntities(t', fileId, requests) == Err(EntityAlreadyExists))
  {
    var writes := WithFile(requests, fileId);
    var t' := CreateEntities(t, fileId, requests).value.tables;
    SaveAllEffect(t.entities, writes);
    forall k | k in WriteKeys(writes)
      ensures k !in t.entities
    {
      var i :| 0 <= i < |writes| && writes[i].key == k;
      assert EntityKey(EntityIds(requests)[i], fileId) == k;
    }
    RequestKeysDiffer(requests, fileId);
    forall i | 0 <= i < |requests|
      ensures var w := EntityWrite(EntityKey(requests[i].entityId, fileId), requests[i].fields);
              w.key in t'.entities && AsRequested(t.entities, w, t'.entities[w.key])
    {
      SaveAllRows(t.entities, writes, i);
    }
    if requests != [] {
      assert writes[0].key in WriteKeys(writes);
      assert EntityKey(EntityIds(requests)[0], fileId) in t'.entities;
    }
  }

  /******* Bulk update *******/

  lemma {:induction false} DistinctIdsCount(writes: seq<EntityWrite>)
    requires NoDuplicates(KeyedIds(writes))
    ensures |WriteKeys(writes)| == |writes|
    ensures DistinctKeys(writes)
    decreases |writes|
  {
    var ids := KeyedIds(writes);
    forall i, j | 0 <= i < j < |writes|
      ensures writes[i].key != writes[j].key
    {
      assert ids[i] != ids[j];
    }
    if writes == [] {
      assert WriteKeys(writes) == {};
    } else {
      assert KeyedIds(writes[1..]) == ids[1..];
      DistinctIdsCount(writes[1..]);
      WriteKeysSplit(writes);
      forall k | k in WriteKeys(writes[1..])
        ensures k != writes[0].key
      {
        var i :| 0 <= i < |writes[1..]| && writes[1..][i].key == k;
        assert writes[i + 1].key == k;
      }
    }
  }

  /** The count guard is exact: it passes if and only if every addressed row exists. */
  lemma {:induction false} CountGuardIsExact(t: Tables, writes: seq<EntityWrite>, emptyCount: nat)
    requires writes != [] && NoDuplicates(KeyedIds(writes))
    ensures UpdateEntities(t, writes, emptyCount).Ok? <==> forall i | 0 <= i < |writes| :: writes[i].key in t.entities
  {
    DistinctIdsCount(writes);
    var found := WriteKeys(writes) * t.entities.Keys;
    if |found| == |writes| {
      SubsetOfSameSize(found, WriteKeys(writes));
      forall i | 0 <= i < |writes|
        ensures writes[i].key in t.entities
      {
        assert writes[i].key in WriteKeys(writes);
      }
    }
    if forall i | 0 <= i < |writes| :: writes[i].key in t.entities {
      assert found == WriteKeys(writes);
    }
  }

  /** An accepted update inserts nothing and changes the addressed rows only, each as requested. */
  lemma {:induction false} UpdateNeverInserts(t: Tables, writes: seq<EntityWrite>, emptyCount: nat)
    requires UpdateEntities(t, writes, emptyCount).Ok?
    ensures var t' := UpdateEntities(t, writes, emptyCount).value;
            && t' == t.(entities := t'.entities)
            && t'.entities.Keys == t.entities.Keys
            && (forall i | 0 <= i < |writes| ::
                  && writes[i].key in t.entities && t'.entities[writes[i].key] == SavedRow(t.entities, writes[i])
                  && AsRequested(t.entities, writes[i], t'.entities[writes[i].key]))
            && (forall k | k in t.entities && k !in WriteKeys(writes) :: t'.entities[k] == t.entities[k])
  {
    SaveAllEffect(t.entities, writes);
    if writes != [] {
      CountGuardIsExact(t, writes, emptyCount);
      DistinctIdsCount(writes);
      forall k | k in WriteKeys(writes)
        ensures k in t.entities
      {
        var i :| 0 <= i < |writes| && writes[i].key == k;
      }
      forall i | 0 <= i < |writes|
        ensures SaveAll(t.entities, writes)[writes[i].key] == SavedRow(t.entities, writes[i])
        ensures AsRequested(t.entities, writes[i], SaveAll(t.entities, writes)[writes[i].key])
      {
        SaveAllRows(t.entities, writes, i);
      }
    }
  }

  /******* Single writes *******/

  /** A single creation does and answers what a bulk creation of one does, except for an entity known to a rerun. */
  lemma {:induction false} CreateIsBulkOfOne(t: Tables, fileId: Id, e: NewEntity)
    ensures var k := EntityKey(e.entityId, fileId);
            var single, bulk := CreateEntity(t, EntityWrite(k, e.fields)), CreateEntities(t, fileId, [e]);
            var known := fileId in t.files && k in t.entities && HasReruns(t.syncs, t.files[fileId].syncId);
            && (known ==> single == Err(EntityAlreadyExists) && bulk.Ok?)
            && (!known ==> match single
                           case Ok(t') => bulk == Ok(BulkOutcome(t', [e.entityId], []))
                           case Err(error) => bulk == Err(error))
  {
    var ids, writes := EntityIds([e]), WithFile([e], fileId);
    assert ids == [e.entityId] && writes == [EntityWrite(EntityKey(e.entityId, fileId), e.fields)];
    assert EntityKey(ids[0], fileId) == EntityKey(e.entityId, fileId);
    if fileId in t.files && EntityKey(e.entityId, fileId) !in t.entities {
      assert writes[1..] == [] && ids[1..] == [];
      assert SaveAll(t.entities, writes) == Save(t.entities, writes[0]);
      assert WritableOnly(t.entities, writes[1..]) == [];
      assert WritableOnly(t.entities, writes) == writes;
      assert WritableIds(t.entities, fileId, ids, true) == ids && WritableIds(t.entities, fileId, ids, false) == [];
    }
  }

  /** A single update is a bulk update of one; only the single one looks for the file of a row without one. */
  lemma {:induction false} UpdateIsBulkOfOne(t: Tables, w: EntityWrite, emptyCount: nat)
    ensures var single, bulk := UpdateEntity(t, w), UpdateEntities(t, [w], emptyCount);
            && (single.Ok? ==> bulk == single)
            && (single.Ok? == bulk.Ok? <==> (w.key in t.entities ==> w.key.fileId in t.files))
  {
    CountGuardIsExact(t, [w], emptyCount);
    assert [w][0].key == w.key;
    assert SaveAll(t.entities, [w]) == Save(t.entities, w);
  }
}
