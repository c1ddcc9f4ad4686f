/** Every client write that meets the hypotheses keeps the invariant. */
module ClientSteps {
  import opened Types
  import opened Statements
  import opened Requests
  import opened Protocol
  import opened Invariant
  import opened SetFacts

  /******* Consequences of the invariant *******/

  /** All entities of a completed file are closed, and there is no room for another. */
  lemma CompletedFileIsFull(t: Tables, f: Id)
    requires FileCapacity(t) && FilesSafe(t)
    requires f in t.files && t.files[f].status == Status.Completed
    ensures ClosedOf(t.entities, f) == EntitiesOf(t.entities, f)
    ensures t.files[f].totalEntities == Some(|EntitiesOf(t.entities, f)|)
  {
    SubsetOfSameSize(ClosedOf(t.entities, f), EntitiesOf(t.entities, f));
  }

  /** All files counting for a completed sync or rerun are completed, and there is no room for another. */
  lemma CompletedSyncIsFull(t: Tables, x: Id)
    requires SyncCapacity(t) && SyncsSafe(t)
    requires x in t.syncs && t.syncs[x].status == Status.Completed
    ensures var root := Root(t.syncs, x);
            && CompletedOf(t.files, root) == FilesOf(t.files, root)
            && t.syncs[x].totalFiles == Some(|FilesOf(t.files, root)|)
  {
    var root := Root(t.syncs, x);
    SubsetOfSameSize(CompletedOf(t.files, root), FilesOf(t.files, root));
  }

  /******* Entities *******/

  /** Adding and changing entity rows, without reopening one and within the files' totals. */
  ghost predicate EntityWriteSound(t: Tables, t': Tables) {
    && t' == t.(entities := t'.entities)
    && t.entities.Keys <= t'.entities.Keys
    && EntitiesHang(t')
    && FileCapacity(t')
    && KeepsClosed(t, t')
  }

  lemma EntityWriteKeepsFilesSafe(t: Tables, t': Tables)
    requires Inv(t) && EntityWriteSound(t, t')
    ensures FilesSafe(t')
  {
    forall f | f in t'.files && t'.files[f].status == Status.Completed
      ensures t'.files[f].totalEntities == Some(|ClosedOf(t'.entities, f)|)
    {
      CompletedFileIsFull(t, f);
      assert ClosedOf(t.entities, f) <= ClosedOf(t'.entities, f);
      SubsetSize(ClosedOf(t.entities, f), ClosedOf(t'.entities, f));
      SubsetSize(ClosedOf(t'.entities, f), EntitiesOf(t'.entities, f));
    }
  }

  lemma EntityWriteKeepsHistory(t: Tables, t': Tables)
    requires Inv(t) && EntityWriteSound(t, t')
    ensures HistorySound(t')
  {
    forall h | h in t'.history
      ensures RowSound(t', h)
    {
      assert RowSound(t, h);
    }
  }

  lemma EntityWriteKeepsInv(t: Tables, t': Tables)
    requires Inv(t) && EntityWriteSound(t, t')
    ensures Inv(t')
  {
    EntityWriteKeepsFilesSafe(t, t');
    EntityWriteKeepsHistory(t, t');
    assert FilesHang(t');
    assert SyncCapacity(t');
    assert SyncsSafe(t');
  }

  /******* Files *******/

  /** New files in progress on a base sync, or totals set where there were none. */
  ghost predicate FileWriteSound(t: Tables, t': Tables) {
    && t' == t.(files := t'.files)
    && t.files.Keys <= t'.files.Keys
    && (forall f | f in t.files ::
          && t'.files[f].syncId == t.files[f].syncId && t'.files[f].status == t.files[f].status
          && (t.files[f].totalEntities.Some? ==> t'.files[f].totalEntities == t.files[f].totalEntities))
    && (forall f | f in t'.files && f !in t.files :: t'.files[f].status == Status.InProgress)
    && FilesHang(t') && FileCapacity(t') && SyncCapacity(t')
  }

  lemma FileWriteKeepsCount(t: Tables, t': Tables, x: Id)
    requires SyncCapacity(t) && SyncsSafe(t) && FileWriteSound(t, t')
    requires x in t.syncs && t.syncs[x].status == Status.Completed
    ensures t'.syncs[x].totalFiles == Some(|CompletedOf(t'.files, Root(t'.syncs, x))|)
  {
    var root := Root(t.syncs, x);
    CompletedSyncIsFull(t, x);
    assert CompletedOf(t.files, root) <= CompletedOf(t'.files, root);
    SubsetSize(CompletedOf(t.files, root), CompletedOf(t'.files, root));
    SubsetSize(CompletedOf(t'.files, root), FilesOf(t'.files, root));
  }

  lemma FileWriteKeepsSyncsSafe(t: Tables, t': Tables)
    requires SyncCapacity(t) && SyncsSafe(t) && FileWriteSound(t, t')
    ensures SyncsSafe(t')
  {
    forall x | x in t'.syncs && t'.syncs[x].status == Status.Completed
      ensures t'.syncs[x].totalFiles == Some(|CompletedOf(t'.files, Root(t'.syncs, x))|)
    {
      FileWriteKeepsCount(t, t', x);
    }
  }

  lemma FileWriteKeepsInv(t: Tables, t': Tables)
    requires Inv(t) && FileWriteSound(t, t')
    ensures Inv(t')
  {
    FileWriteKeepsSyncsSafe(t, t');
    assert EntitiesHang(t');
    assert FilesSafe(t');
    forall h | h in t'.history
      ensures RowSound(t', h)
    {
      assert RowSound(t, h);
    }
  }

  /******* Syncs *******/

  /** New and changed sync rows leave the run numbering of the reruns there. */
  lemma PredecessorsStay(syncs: map<Id, Sync>, syncs': map<Id, Sync>)
    requires Forest(syncs)
    requires forall x | x in syncs ::
               x in syncs' && syncs'[x].baseSyncId == syncs[x].baseSyncId && syncs'[x].runNumber == syncs[x].runNumber
    ensures forall x {:trigger HasPredecessor(syncs', x)} |
              x in syncs && syncs[x].baseSyncId.Some? && 1 < syncs[x].runNumber ::
              HasPredecessor(syncs', x)
  {
    forall x | x in syncs && syncs[x].baseSyncId.Some? && 1 < syncs[x].runNumber
      ensures HasPredecessor(syncs', x)
    {
      assert HasPredecessor(syncs, x);
      var y :| y in syncs && syncs[y].baseSyncId == syncs[x].baseSyncId && syncs[y].runNumber == syncs[x].runNumber - 1;
      assert y in syncs' && syncs'[y].baseSyncId == syncs'[x].baseSyncId;
    }
  }

  lemma PostSyncKeepsForest(syncs: map<Id, Sync>, id: Id, row: Sync)
    requires Forest(syncs) && id !in syncs
    requires row.baseSyncId == None && row.runNumber == 0
    ensures Forest(syncs[id := row])
  {
    var syncs' := syncs[id := row];
    forall x | x in syncs' && syncs'[x].baseSyncId.Some?
      ensures RerunSound(syncs', x)
    {
      assert RerunSound(syncs, x);
    }
    PredecessorsStay(syncs, syncs');
    SiblingsStay(syncs, syncs');
  }

  lemma SiblingsStay(syncs: map<Id, Sync>, syncs': map<Id, Sync>)
    requires Forest(syncs)
    requires forall x | x in syncs ::
               && x in syncs' && syncs'[x].baseSyncId == syncs[x].baseSyncId
               && syncs'[x].runNumber == syncs[x].runNumber
               && (syncs[x].baseSyncId.Some? && Superseded(syncs[x]) ==> Superseded(syncs'[x]))
    requires forall x | x in syncs' && syncs'[x].baseSyncId.Some? :: x in syncs
    ensures forall x, y {:trigger Siblings(syncs', x, y)} | x in syncs' && y in syncs' && Siblings(syncs', x, y) ::
              && (x != y ==> syncs'[x].runNumber != syncs'[y].runNumber)
              && (syncs'[x].runNumber < syncs'[y].runNumber ==> Superseded(syncs'[x]))
  {
    forall x, y | x in syncs' && y in syncs' && Siblings(syncs', x, y)
      ensures x != y ==> syncs'[x].runNumber != syncs'[y].runNumber
      ensures syncs'[x].runNumber < syncs'[y].runNumber ==> Superseded(syncs'[x])
    {
      assert Siblings(syncs, x, y);
    }
  }

  lemma PostSyncKeepsInv(t: Tables, id: Id, row: Sync)
    requires Inv(t) && id !in t.syncs
    requires row.baseSyncId == None && row.runNumber == 0 && row.status != Status.Completed
    requires SyncCapacity(t.(syncs := t.syncs[id := row]))
    ensures Inv(t.(syncs := t.syncs[id := row]))
  {
    var t' := t.(syncs := t.syncs[id := row]);
    PostSyncKeepsForest(t.syncs, id, row);
    HistoryUnderMoreSyncs(t, t');
    assert FileCapacity(t');
    assert SyncsSafe(t');
  }

  /** History rows stay sound when sync rows keep their base and run number. */
  lemma HistoryUnderMoreSyncs(t: Tables, t': Tables)
    requires HistorySound(t)
    requires t' == t.(syncs := t'.syncs)
    requires forall x | x in t.syncs ::
               x in t'.syncs && t'.syncs[x].baseSyncId == t.syncs[x].baseSyncId
               && t'.syncs[x].runNumber == t.syncs[x].runNumber
    ensures HistorySound(t')
  {
    forall h | h in t'.history
      ensures RowSound(t', h)
    {
      assert RowSound(t, h);
      var r :| Superseding(t.syncs, h.syncId, r);
      assert Superseding(t'.syncs, h.syncId, r);
    }
  }

  /** Sync rows keep their base and run number; a status goes from in progress to failed or stays. */
  ghost predicate SyncPatchSound(t: Tables, t': Tables, id: Id) {
    && id in t.syncs && id in t'.syncs
    && t' == t.(syncs := t.syncs[id := t'.syncs[id]])
    && t'.syncs[id].baseSyncId == t.syncs[id].baseSyncId
    && t'.syncs[id].runNumber == t.syncs[id].runNumber
    && (t'.syncs[id].status == t.syncs[id].status
        || (t.syncs[id].status == Status.InProgress && t'.syncs[id].status == Status.Failed))
    && (t.syncs[id].totalFiles.Some? ==> t'.syncs[id].totalFiles == t.syncs[id].totalFiles)
    && SyncCapacity(t')
  }

  lemma PatchKeepsForest(t: Tables, t': Tables, id: Id)
    requires Forest(t.syncs) && SyncsSafe(t) && SyncPatchSound(t, t', id)
    ensures Forest(t'.syncs)
  {
    forall x | x in t'.syncs && t'.syncs[x].baseSyncId.Some?
      ensures RerunSound(t'.syncs, x)
    {
      assert RerunSound(t.syncs, x);
    }
    PredecessorsStay(t.syncs, t'.syncs);
    SiblingsStay(t.syncs, t'.syncs);
  }

  lemma PatchSyncKeepsInv(t: Tables, t': Tables, id: Id)
    requires Inv(t) && SyncPatchSound(t, t', id)
    ensures Inv(t')
  {
    PatchKeepsForest(t, t', id);
    HistoryUnderMoreSyncs(t, t');
    assert FileCapacity(t');
    assert FilesSafe(t');
    assert SyncsSafe(t');
  }
}
