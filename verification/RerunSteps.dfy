/** The rerun transaction keeps the invariant, never violates a key and never loses a row. */
module RerunSteps {
  import opened Types
  import opened Statements
  import opened Protocol
  import opened Invariant
  import opened SetFacts
  import opened ClientSteps

  /** What the guards establish: the base and its last rerun have failed. */
  ghost predicate Ready(syncs: map<Id, Sync>, base: Id, last: Option<Id>) {
    && base in syncs && syncs[base].runNumber == 0 && syncs[base].status == Status.Failed
    && IsLastRerun(syncs, base, last)
    && (last.Some? ==> syncs[last.value].status == Status.Failed)
  }

  /** No run of the base is in progress, and a completed one has nothing to count. */
  lemma ReadyFamily(t: Tables, base: Id, last: Option<Id>, x: Id)
    requires Inv(t) && Ready(t.syncs, base, last)
    requires x in t.syncs && InFamily(t.syncs, base, x)
    ensures t.syncs[base].baseSyncId == None && Root(t.syncs, x) == base
    ensures t.syncs[x].status != Status.InProgress
    ensures t.syncs[x].status == Status.Completed ==> t.syncs[x].totalFiles == Some(0) && FilesOf(t.files, base) == {}
  {
    assert t.syncs[base].baseSyncId.Some? ==> RerunSound(t.syncs, base);
    if x != base {
      assert Siblings(t.syncs, x, last.value);
      if x == last.value || t.syncs[x].runNumber == t.syncs[last.value].runNumber {
        assert x == last.value;
      } else {
        assert Superseded(t.syncs[x]);
      }
      if t.syncs[x].status == Status.Completed {
        assert |FilesOf(t.files, Root(t.syncs, x))| <= 0;
      }
    }
  }

  /** Two latest-run queries agree, because run numbers of one base differ. */
  lemma {:induction false} LastRerunIsUnique(syncs: map<Id, Sync>, base: Id, a: Option<Id>, b: Option<Id>)
    requires Forest(syncs) && IsLastRerun(syncs, base, a) && IsLastRerun(syncs, base, b)
    ensures a == b
  {
    if a.Some? && b.Some? && a != b {
      assert Siblings(syncs, a.value, b.value);
    }
  }

  /******* Deleting empty files *******/

  /** The cascade of the foreign keys reaches no entity and no history row. */
  lemma {:induction false} EmptyFilesTakeNothingAlong(t: Tables, base: Id)
    requires HistorySound(t)
    ensures DeleteEmptyFiles(t, base) == t.(files := t.files - EmptyFiles(t, base))
  {
    var t' := DeleteEmptyFiles(t, base);
    forall k | k in t.entities
      ensures k.fileId !in EmptyFiles(t, base)
    {
      assert k in EntitiesOf(t.entities, k.fileId);
    }
    forall h | h in t.history
      ensures h.fileId !in EmptyFiles(t, base)
    {
      assert RowSound(t, h);
      assert EntityKey(h.entityId, h.fileId) in t.entities;
    }
    assert t'.entities == t.entities;
    assert t'.history == t.history;
  }

  lemma SweepKeepsCapacity(t: Tables, base: Id)
    requires SyncCapacity(t)
    ensures SyncCapacity(DeleteEmptyFiles(t, base))
  {
    var t' := DeleteEmptyFiles(t, base);
    forall x | x in t'.syncs && t'.syncs[x].totalFiles.Some?
      ensures |FilesOf(t'.files, Root(t'.syncs, x))| <= t'.syncs[x].totalFiles.value
    {
      SubsetSize(FilesOf(t'.files, Root(t'.syncs, x)), FilesOf(t.files, Root(t.syncs, x)));
    }
  }

  lemma SweepKeepsOthers(t: Tables, base: Id, other: Id)
    requires other != base
    ensures CompletedOf(DeleteEmptyFiles(t, base).files, other) == CompletedOf(t.files, other)
  {
  }

  lemma SweepKeepsSyncsSafe(t: Tables, base: Id, last: Option<Id>)
    requires Inv(t) && Ready(t.syncs, base, last)
    ensures SyncsSafe(DeleteEmptyFiles(t, base))
  {
    var t' := DeleteEmptyFiles(t, base);
    forall x | x in t'.syncs && t'.syncs[x].status == Status.Completed
      ensures t'.syncs[x].totalFiles == Some(|CompletedOf(t'.files, Root(t'.syncs, x))|)
    {
      var root := Root(t.syncs, x);
      if root == base {
        ReadyFamily(t, base, last, x);
        NothingToCount(t, t', base);
      } else {
        SweepKeepsOthers(t, base, root);
      }
    }
  }

  /** Without files there is nothing to count, whatever changes on the files there are. */
  lemma NothingToCount(t: Tables, t': Tables, base: Id)
    requires FilesOf(t.files, base) == {} && t'.files.Keys <= t.files.Keys
    requires forall f | f in t'.files :: t'.files[f].syncId == t.files[f].syncId
    ensures CompletedOf(t'.files, base) == {}
  {
    forall f | f in t'.files
      ensures t'.files[f].syncId != base
    {
      assert f !in FilesOf(t.files, base);
    }
  }

  lemma SweepKeepsInv(t: Tables, base: Id, last: Option<Id>)
    requires Inv(t) && Ready(t.syncs, base, last)
    ensures Inv(DeleteEmptyFiles(t, base))
  {
    var t' := DeleteEmptyFiles(t, base);
    EmptyFilesTakeNothingAlong(t, base);
    SweepKeepsCapacity(t, base);
    SweepKeepsSyncsSafe(t, base, last);
    forall k | k in t'.entities
      ensures k.fileId in t'.files
    {
      assert k in EntitiesOf(t.entities, k.fileId);
    }
    forall h | h in t'.history
      ensures RowSound(t', h)
    {
      assert RowSound(t, h);
      assert EntityKey(h.entityId, h.fileId) in t'.entities;
    }
    assert FileCapacity(t') && FilesSafe(t');
  }

  /******* Closing the base instead of rerunning *******/

  lemma BaseClosureKeepsForest(t: Tables, base: Id, last: Option<Id>)
    requires Inv(t) && Ready(t.syncs, base, last)
    ensures Forest(CloseSync(t, base).syncs)
  {
    var syncs' := CloseSync(t, base).syncs;
    forall x | x in syncs' && syncs'[x].baseSyncId.Some?
      ensures RerunSound(syncs', x)
    {
      assert RerunSound(t.syncs, x);
      if t.syncs[x].baseSyncId == Some(base) {
        ReadyFamily(t, base, last, x);
      } else {
        ReadyFamily(t, base, last, base);
      }
    }
    ReadyFamily(t, base, last, base);
    PredecessorsStay(t.syncs, syncs');
    SiblingsStay(t.syncs, syncs');
  }

  lemma BaseClosureKeepsInv(t: Tables, base: Id, last: Option<Id>)
    requires Inv(t) && Ready(t.syncs, base, last) && BaseClosable(t, base)
    ensures Inv(CloseSync(t, base))
  {
    var t' := CloseSync(t, base);
    ReadyFamily(t, base, last, base);
    BaseClosureKeepsForest(t, base, last);
    HistoryUnderMoreSyncs(t, t');
    assert FilesHang(t') && EntitiesHang(t');
    assert SyncCapacity(t') && SyncsSafe(t');
    assert FileCapacity(t') && FilesSafe(t');
  }

  /******* History *******/

  /** No history row carries the id of the run about to be recorded. */
  lemma {:induction false} HistoryKeyIsFree(t: Tables, base: Id, last: Option<Id>)
    requires Inv(t) && Ready(t.syncs, base, last)
    ensures forall h | h in t.history :: h.syncId != LatestRun(base, last)
    ensures CreateEntityHistory(t, base, LatestRun(base, last)).Ok?
  {
    var run := LatestRun(base, last);
    ReadyFamily(t, base, last, run);
    forall h | h in t.history
      ensures h.syncId != run
    {
      assert RowSound(t, h);
      var r :| Superseding(t.syncs, h.syncId, r);
    }
  }

  /******* Files and entities *******/

  /** The tables after the steps between the sweep and the insert of the rerun. */
  function Prepared(t: Tables, base: Id, run: Id, notSynced: bool): Tables {
    match PrepareRerun(t, base, run, notSynced) case Err(_) => t case Ok(t') => t'
  }

  /** The middle statement, spelled out file by file; history rows play no part in it. */
  lemma SettledFiles(t: Tables, logged: Tables, base: Id, notSynced: bool)
    requires logged == t.(history := logged.history)
    ensures var settled :=
              if notSynced then PrepareIncompleteFiles(logged, base) else UpdateDanglingFiles(logged, base);
            && settled == logged.(files := settled.files) && settled.files.Keys == t.files.Keys
            && (forall f | f in t.files ::
                  settled.files[f] == t.files[f].(status :=
                    if notSynced then
                      if t.files[f].syncId == base && HoldsNotSynced(t, f) then Status.InProgress else t.files[f].status
                    else if Dangling(t, base, f) then Status.Completed else t.files[f].status))
  {
    assert forall f :: Dangling(logged, base, f) == Dangling(t, base, f);
    assert forall f :: HoldsNotSynced(logged, f) == HoldsNotSynced(t, f);
  }

  /** The prepared tables, spelled out row by row. */
  lemma PreparedRows(t: Tables, base: Id, run: Id, notSynced: bool)
    requires CreateEntityHistory(t, base, run).Ok?
    ensures var t' := Prepared(t, base, run, notSynced);
            && t'.syncs == t.syncs
            && t'.files.Keys == t.files.Keys && t'.entities.Keys == t.entities.Keys
            && t'.history == t.history + HistoryRows(t, base, run)
            && (forall f | f in t.files ::
                  t'.files[f] == t.files[f].(status :=
                    if notSynced then
                      if t.files[f].syncId == base && HoldsNotSynced(t, f) then Status.InProgress else t.files[f].status
                    else if Dangling(t, base, f) then Status.Completed else t.files[f].status))
            && (forall k | k in t.entities ::
                  t'.entities[k] ==
                    if Under(t, base, k) && Resettable(t.entities[k].status, notSynced) then RESET_ROW
                    else t.entities[k])
  {
    var logged := CreateEntityHistory(t, base, run).value;
    SettledFiles(t, logged, base, notSynced);
  }

  /** The reset changes the closed entities of exactly the files that were reopened for it. */
  lemma {:induction false} ResetChangesExactly(t: Tables, base: Id, run: Id, notSynced: bool, f: Id)
    requires EntitiesHang(t) && CreateEntityHistory(t, base, run).Ok? && f in t.files
    ensures var t' := Prepared(t, base, run, notSynced);
            && (ClosedOf(t'.entities, f) != ClosedOf(t.entities, f)
                <==> notSynced && t.files[f].syncId == base && HoldsNotSynced(t, f))
            && (ClosedOf(t'.entities, f) != ClosedOf(t.entities, f) ==> t'.files[f].status == Status.InProgress)
  {
    var t' := Prepared(t, base, run, notSynced);
    PreparedRows(t, base, run, notSynced);
    if notSynced && t.files[f].syncId == base && HoldsNotSynced(t, f) {
      var k :| k in t.entities && k.fileId == f && t.entities[k].status == EntityStatus.NotSynced;
      assert k in ClosedOf(t.entities, f) && k !in ClosedOf(t'.entities, f);
    } else {
      forall k | k in t.entities && k.fileId == f
        ensures IsClosed(t'.entities[k].status) == IsClosed(t.entities[k].status)
      {
        assert t.entities[k].status == EntityStatus.NotSynced ==> HoldsNotSynced(t, f);
      }
      assert ClosedOf(t'.entities, f) == ClosedOf(t.entities, f);
    }
  }

  /** The closed count of every file that is completed afterwards is untouched by the reset. */
  lemma PreparedKeepsCounts(t: Tables, base: Id, run: Id, notSynced: bool, f: Id)
    requires Inv(t) && CreateEntityHistory(t, base, run).Ok?
    requires f in t.files && Prepared(t, base, run, notSynced).files[f].status == Status.Completed
    ensures ClosedOf(Prepared(t, base, run, notSynced).entities, f) == ClosedOf(t.entities, f)
  {
    ResetChangesExactly(t, base, run, notSynced, f);
  }

  lemma PreparedKeepsFileTotals(t: Tables, base: Id, run: Id, notSynced: bool)
    requires Inv(t) && CreateEntityHistory(t, base, run).Ok?
    ensures FileCapacity(Prepared(t, base, run, notSynced)) && FilesSafe(Prepared(t, base, run, notSynced))
    ensures EntitiesHang(Prepared(t, base, run, notSynced))
  {
    var t' := Prepared(t, base, run, notSynced);
    PreparedRows(t, base, run, notSynced);
    forall f | f in t'.files && t'.files[f].status == Status.Completed
      ensures t'.files[f].totalEntities == Some(|ClosedOf(t'.entities, f)|)
    {
      PreparedKeepsCounts(t, base, run, notSynced, f);
      assert t.files[f].status == Status.Completed || Dangling(t, base, f);
    }
    forall f
      ensures EntitiesOf(t'.entities, f) == EntitiesOf(t.entities, f)
    {
    }
  }

  /** Statuses change on files of the base only. */
  ghost predicate OnlyBaseStatuses(t: Tables, t': Tables, base: Id) {
    && t'.syncs == t.syncs && t'.files.Keys == t.files.Keys
    && (forall f | f in t.files ::
          && t'.files[f].syncId == t.files[f].syncId && t'.files[f].totalEntities == t.files[f].totalEntities
          && (t.files[f].syncId != base ==> t'.files[f].status == t.files[f].status))
  }

  lemma BaseStatusesKeepSyncTotals(t: Tables, t': Tables, base: Id, last: Option<Id>)
    requires Inv(t) && Ready(t.syncs, base, last) && OnlyBaseStatuses(t, t', base)
    ensures SyncCapacity(t') && SyncsSafe(t') && FilesHang(t')
  {
    assert forall s :: FilesOf(t'.files, s) == FilesOf(t.files, s);
    forall x | x in t'.syncs && t'.syncs[x].status == Status.Completed
      ensures t'.syncs[x].totalFiles == Some(|CompletedOf(t'.files, Root(t'.syncs, x))|)
    {
      var root := Root(t.syncs, x);
      if root == base {
        ReadyFamily(t, base, last, x);
        NothingToCount(t, t', base);
      } else {
        assert CompletedOf(t'.files, root) == CompletedOf(t.files, root);
      }
    }
  }

  lemma PreparedKeepsSyncTotals(t: Tables, base: Id, last: Option<Id>, run: Id, notSynced: bool)
    requires Inv(t) && Ready(t.syncs, base, last) && CreateEntityHistory(t, base, run).Ok?
    ensures SyncCapacity(Prepared(t, base, run, notSynced)) && SyncsSafe(Prepared(t, base, run, notSynced))
    ensures FilesHang(Prepared(t, base, run, notSynced))
  {
    PreparedRows(t, base, run, notSynced);
    BaseStatusesKeepSyncTotals(t, Prepared(t, base, run, notSynced), base, last);
  }

  /******* The new rerun *******/

  function RerunRow(syncs: map<Id, Sync>, base: Id, last: Option<Id>): Sync
    requires base in syncs && (last.Some? ==> last.value in syncs)
  {
    Sync(Status.InProgress, syncs[base].totalFiles, Some(base),
         match last { case None => 1 case Some(r) => syncs[r].runNumber + 1 }, syncs[base].details)
  }

  lemma NewRerunKeepsForest(t: Tables, base: Id, last: Option<Id>, id: Id)
    requires Inv(t) && Ready(t.syncs, base, last) && id !in t.syncs
    ensures Forest(t.syncs[id := RerunRow(t.syncs, base, last)])
  {
    var row := RerunRow(t.syncs, base, last);
    var syncs' := t.syncs[id := row];
    ReadyFamily(t, base, last, base);
    forall x | x in syncs' && syncs'[x].baseSyncId.Some?
      ensures RerunSound(syncs', x)
    {
      if x != id {
        assert RerunSound(t.syncs, x);
      } else if last.Some? {
        assert RerunSound(t.syncs, last.value);
      }
    }
    PredecessorsStay(t.syncs, syncs');
    if last.Some? {
      assert HasPredecessor(syncs', id) by {
        assert last.value in syncs' && syncs'[last.value].runNumber == row.runNumber - 1;
      }
    }
    forall x, y | x in syncs' && y in syncs' && Siblings(syncs', x, y)
      ensures x != y ==> syncs'[x].runNumber != syncs'[y].runNumber
      ensures syncs'[x].runNumber < syncs'[y].runNumber ==> Superseded(syncs'[x])
    {
      if x != id && y != id {
        assert Siblings(t.syncs, x, y);
      } else if x != id {
        assert InFamily(t.syncs, base, x);
        assert Siblings(t.syncs, x, last.value);
      } else if y != id {
        assert InFamily(t.syncs, base, y);
      }
    }
  }

  /** An older row is sound under the new rerun. */
  lemma NewRerunKeepsRow(t: Tables, t': Tables, base: Id, last: Option<Id>, id: Id, h: HistoryKey)
    requires Inv(t) && Ready(t.syncs, base, last) && id !in t.syncs
    requires t'.syncs == t.syncs[id := RerunRow(t.syncs, base, last)]
    requires h in t.history && h in t'.history && t'.history[h] == t.history[h]
    requires h.fileId in t'.files && t'.files[h.fileId].syncId == t.files[h.fileId].syncId
    requires EntityKey(h.entityId, h.fileId) in t'.entities
    ensures RowSound(t', h)
  {
    assert RowSound(t, h);
    var r :| Superseding(t.syncs, h.syncId, r);
    assert Superseding(t'.syncs, h.syncId, r);
  }

  /** A row written for the ending run is sound under the new rerun. */
  lemma NewRowIsSound(t: Tables, t': Tables, base: Id, last: Option<Id>, id: Id, h: HistoryKey)
    requires Inv(t) && Ready(t.syncs, base, last) && id !in t.syncs
    requires t'.syncs == t.syncs[id := RerunRow(t.syncs, base, last)]
    requires h in HistoryRows(t, base, LatestRun(base, last))
    requires h in t'.history && t'.history[h] == HistoryRows(t, base, LatestRun(base, last))[h]
    requires h.fileId in t'.files && (h.fileId in t.files ==> t'.files[h.fileId].syncId == t.files[h.fileId].syncId)
    requires EntityKey(h.entityId, h.fileId) in t'.entities
    ensures RowSound(t', h)
  {
    ReadyFamily(t, base, last, LatestRun(base, last));
    assert ForHistory(t, base, EntityKey(h.entityId, h.fileId));
    assert Superseding(t'.syncs, LatestRun(base, last), id);
  }

  /** A completed entity with a completed history row in its family is not recorded again. */
  lemma RecordedOnce(t: Tables, base: Id, run: Id, h: HistoryKey)
    requires Inv(t) && h in t.history && t.history[h].row.status == EntityStatus.Completed
    ensures forall g | g in HistoryRows(t, base, run) :: g.entityId != h.entityId || g.fileId != h.fileId
  {
    assert RowSound(t, h);
    forall g | g in HistoryRows(t, base, run) && g.fileId == h.fileId
      ensures g.entityId != h.entityId
    {
      assert ForHistory(t, base, EntityKey(g.entityId, g.fileId));
      assert InFamily(t.syncs, base, h.syncId);
      assert !CompletedBefore(t, base, g.entityId);
    }
  }

  lemma HistoryStaysOnce(t: Tables, base: Id, run: Id)
    requires Inv(t)
    ensures CompletedOnce(t.history + HistoryRows(t, base, run))
  {
    var history := t.history + HistoryRows(t, base, run);
    forall h, g | h in history && g in history && h.entityId == g.entityId && h.fileId == g.fileId
                  && history[h].row.status == EntityStatus.Completed
                  && history[g].row.status == EntityStatus.Completed
      ensures h == g
    {
      if h in HistoryRows(t, base, run) {
        if g !in HistoryRows(t, base, run) {
          RecordedOnce(t, base, run, g);
        }
      } else if g in HistoryRows(t, base, run) {
        RecordedOnce(t, base, run, h);
      }
    }
  }

  lemma NewRerunKeepsHistory(t: Tables, base: Id, last: Option<Id>, id: Id, notSynced: bool)
    requires Inv(t) && Ready(t.syncs, base, last) && id !in t.syncs
    requires CreateEntityHistory(t, base, LatestRun(base, last)).Ok?
    ensures var ready := Prepared(t, base, LatestRun(base, last), notSynced);
            HistorySound(ready.(syncs := t.syncs[id := RerunRow(t.syncs, base, last)]))
  {
    var run := LatestRun(base, last);
    var ready := Prepared(t, base, run, notSynced);
    var t' := ready.(syncs := t.syncs[id := RerunRow(t.syncs, base, last)]);
    PreparedRows(t, base, run, notSynced);
    forall h | h in t'.history
      ensures RowSound(t', h)
    {
      if h in HistoryRows(t, base, run) {
        assert ForHistory(t, base, EntityKey(h.entityId, h.fileId));
        NewRowIsSound(t, t', base, last, id, h);
      } else {
        assert RowSound(t, h);
        NewRerunKeepsRow(t, t', base, last, id, h);
      }
    }
    HistoryStaysOnce(t, base, run);
    assert CompletedOnce(t'.history);
  }

  lemma NewRerunKeepsSyncTotals(t: Tables, base: Id, last: Option<Id>, id: Id)
    requires base in t.syncs && t.syncs[base].baseSyncId == None && (last.Some? ==> last.value in t.syncs)
    requires SyncCapacity(t) && SyncsSafe(t) && id !in t.syncs
    ensures var t' := t.(syncs := t.syncs[id := RerunRow(t.syncs, base, last)]); SyncCapacity(t') && SyncsSafe(t')
  {
    var t' := t.(syncs := t.syncs[id := RerunRow(t.syncs, base, last)]);
    forall x | x in t'.syncs && t'.syncs[x].totalFiles.Some?
      ensures |FilesOf(t'.files, Root(t'.syncs, x))| <= t'.syncs[x].totalFiles.value
    {
      assert x == id ==> Root(t'.syncs, x) == Root(t.syncs, base);
    }
  }

  /** The pieces of the invariant, put together under the new rerun. */
  lemma AssembleRerun(t: Tables, t': Tables, base: Id, last: Option<Id>, id: Id)
    requires base in t.syncs && t.syncs[base].baseSyncId == None
    requires (last.Some? ==> last.value in t.syncs) && id !in t.syncs
    requires FilesHang(t) && EntitiesHang(t) && FileCapacity(t) && FilesSafe(t) && SyncCapacity(t) && SyncsSafe(t)
    requires t' == t.(syncs := t.syncs[id := RerunRow(t.syncs, base, last)])
    requires Forest(t'.syncs) && HistorySound(t')
    ensures Inv(t')
  {
    NewRerunKeepsSyncTotals(t, base, last, id);
    assert FilesHang(t') && EntitiesHang(t');
    assert FileCapacity(t') && FilesSafe(t');
  }

  lemma NewRerunKeepsInv(t: Tables, base: Id, last: Option<Id>, id: Id, notSynced: bool)
    requires Inv(t) && Ready(t.syncs, base, last) && id !in t.syncs
    requires CreateEntityHistory(t, base, LatestRun(base, last)).Ok?
    ensures var ready := Prepared(t, base, LatestRun(base, last), notSynced);
            Inv(ready.(syncs := t.syncs[id := RerunRow(t.syncs, base, last)]))
  {
    var run := LatestRun(base, last);
    var ready := Prepared(t, base, run, notSynced);
    assert ready.syncs == t.syncs by { PreparedRows(t, base, run, notSynced); }
    assert t.syncs[base].baseSyncId == None by { ReadyFamily(t, base, last, base); }
    NewRerunKeepsForest(t, base, last, id);
    NewRerunKeepsHistory(t, base, last, id, notSynced);
    PreparedKeepsFileTotals(t, base, run, notSynced);
    PreparedKeepsSyncTotals(t, base, last, run, notSynced);
    AssembleRerun(ready, ready.(syncs := t.syncs[id := RerunRow(t.syncs, base, last)]), base, last, id);
  }

  /******* The whole operation *******/

  /** The request that the guards build asks for the row of the next rerun. */
  predicate NextRequest(syncs: map<Id, Sync>, r: RerunRequest, last: Option<Id>)
    requires r.baseSyncId in syncs && (last.Some? ==> last.value in syncs)
  {
    Sync(Status.InProgress, r.totalFiles, Some(r.baseSyncId), r.runNumber, r.details)
    == RerunRow(syncs, r.baseSyncId, last)
  }

  lemma TransactionKeepsInv(t: Tables, r: RerunRequest, last: Option<Id>)
    requires Inv(t) && Ready(t.syncs, r.baseSyncId, last) && r.id !in t.syncs && NextRequest(t.syncs, r, last)
    ensures CreateRerun(t, r, last).Ok? && Inv(CreateRerun(t, r, last).value.tables)
  {
    var base := r.baseSyncId;
    var swept := DeleteEmptyFiles(t, base);
    SweepKeepsInv(t, base, last);
    if EmptyFiles(t, base) != {} && BaseClosable(swept, base) {
      BaseClosureKeepsInv(swept, base, last);
    } else {
      HistoryKeyIsFree(swept, base, last);
      PreparedRows(swept, base, LatestRun(base, last), r.notSynced);
      NewRerunKeepsInv(swept, base, last, r.id, r.notSynced);
    }
  }

  lemma {:induction false} RerunKeepsInv(
    t: Tables, base: Id, id: Id, notSynced: bool, last: Option<Id>, latest: Option<Id>)
    requires Inv(t) && IsLastRerun(t.syncs, base, last) && IsLastRerun(t.syncs, base, latest)
    ensures match RerunSyncIfNeeded(t, base, id, notSynced, last, latest)
            case Ok(outcome) => Inv(outcome.tables)
            case Err(e) => e != UniqueViolation
  {
    LastRerunIsUnique(t.syncs, base, last, latest);
    match CheckRerun(t.syncs, base, id, notSynced, last)
    case Err(_) =>
    case Ok(request) => TransactionKeepsInv(t, request, last);
  }

  /** Past the guards only a repeated key can fail the transaction. */
  lemma OnlyKeysFail(t: Tables, r: RerunRequest, latest: Option<Id>)
    ensures CreateRerun(t, r, latest).Ok? || CreateRerun(t, r, latest) == Err(UniqueViolation)
  {
  }

  /** And none is repeated: a rerun is refused exactly when the guards refuse it. */
  lemma {:induction false} RefusedByGuardsOnly(
    t: Tables, base: Id, id: Id, notSynced: bool, last: Option<Id>, latest: Option<Id>)
    requires Inv(t) && IsLastRerun(t.syncs, base, last) && IsLastRerun(t.syncs, base, latest)
    ensures RerunSyncIfNeeded(t, base, id, notSynced, last, latest).Ok?
            <==> id !in t.syncs && Ready(t.syncs, base, last)
  {
    RerunKeepsInv(t, base, id, notSynced, last, latest);
    match CheckRerun(t.syncs, base, id, notSynced, last)
    case Err(_) =>
    case Ok(request) => OnlyKeysFail(t, request, latest);
  }
}
