/** The closing steps of the jobs keep the invariant. */
module ClosureSteps {
  import opened Types
  import opened Statements
  import opened Protocol
  import opened Invariant
  import opened ClientSteps

  lemma {:induction false} FileClosureKeepsInv(t: Tables, fileId: Id)
    requires Inv(t)
    ensures Inv(AttemptFileClosure(t, fileId))
  {
    if FileClosable(t, fileId) {
      var t' := AttemptFileClosure(t, fileId);
      FileClosureKeepsSyncTotals(t, fileId);
      forall f | f in t'.files && t'.files[f].status == Status.Completed
        ensures t'.files[f].totalEntities == Some(|ClosedOf(t'.entities, f)|)
      {
        assert f != fileId ==> t.files[f].status == Status.Completed;
      }
      forall h | h in t'.history
        ensures RowSound(t', h)
      {
        assert RowSound(t, h);
      }
      assert EntitiesHang(t') && FilesHang(t');
      assert FileCapacity(t');
    }
  }

  lemma FileClosureKeepsSyncTotals(t: Tables, fileId: Id)
    requires FilesHang(t) && SyncCapacity(t) && SyncsSafe(t) && FileClosable(t, fileId)
    ensures SyncCapacity(AttemptFileClosure(t, fileId)) && SyncsSafe(AttemptFileClosure(t, fileId))
  {
    var t' := AttemptFileClosure(t, fileId);
    assert forall s :: FilesOf(t'.files, s) == FilesOf(t.files, s);
    forall x | x in t'.syncs && t'.syncs[x].status == Status.Completed
      ensures t'.syncs[x].totalFiles == Some(|CompletedOf(t'.files, Root(t'.syncs, x))|)
    {
      var root := Root(t.syncs, x);
      CompletedSyncIsFull(t, x);
      assert fileId !in CompletedOf(t.files, root);
      if t.files[fileId].syncId == root {
        assert false;
      } else {
        assert CompletedOf(t'.files, root) == CompletedOf(t.files, root);
      }
    }
  }

  /** A rerun has no files of its own, so an attempt on its own id closes it only with a zero total. */
  lemma OwnAttemptNeedsZero(t: Tables, syncId: Id, x: Id)
    requires Inv(t) && SyncClosable(t, syncId, x) && t.syncs[x].baseSyncId != Some(syncId)
    requires t.syncs[x].baseSyncId.Some?
    ensures x == syncId && t.syncs[x].totalFiles == Some(0)
    ensures FilesOf(t.files, Root(t.syncs, x)) == {}
  {
    assert CompletedOf(t.files, syncId) == {};
    assert |FilesOf(t.files, Root(t.syncs, x))| <= 0;
  }

  lemma NoOwnBase(syncs: map<Id, Sync>, x: Id)
    requires Forest(syncs) && x in syncs
    ensures syncs[x].baseSyncId != Some(x)
  {
    if syncs[x].baseSyncId.Some? {
      assert RerunSound(syncs, x);
    }
  }

  lemma SyncClosureKeepsSafe(t: Tables, syncId: Id)
    requires Inv(t)
    ensures SyncsSafe(AttemptSyncClosure(t, syncId))
  {
    var t' := AttemptSyncClosure(t, syncId);
    forall x | x in t'.syncs && t'.syncs[x].status == Status.Completed
      ensures t'.syncs[x].totalFiles == Some(|CompletedOf(t'.files, Root(t'.syncs, x))|)
    {
      if SyncClosable(t, syncId, x) && t.syncs[x].baseSyncId.Some? && t.syncs[x].baseSyncId != Some(syncId) {
        OwnAttemptNeedsZero(t, syncId, x);
        assert CompletedOf(t.files, Root(t.syncs, x)) == {};
      }
    }
  }

  lemma SyncClosureKeepsForest(t: Tables, syncId: Id)
    requires Inv(t)
    ensures Forest(AttemptSyncClosure(t, syncId).syncs)
  {
    var syncs' := AttemptSyncClosure(t, syncId).syncs;
    forall x | x in t.syncs && t.syncs[x].baseSyncId.Some? && Superseded(t.syncs[x])
      ensures Superseded(syncs'[x])
    {
      NoOwnBase(t.syncs, x);
      if SyncClosable(t, syncId, x) {
        OwnAttemptNeedsZero(t, syncId, x);
      }
    }
    forall x | x in syncs' && syncs'[x].baseSyncId.Some?
      ensures RerunSound(syncs', x)
    {
      assert RerunSound(t.syncs, x);
    }
    PredecessorsStay(t.syncs, syncs');
    SiblingsStay(t.syncs, syncs');
  }

  lemma {:induction false} SyncClosureKeepsInv(t: Tables, syncId: Id)
    requires Inv(t)
    ensures Inv(AttemptSyncClosure(t, syncId))
  {
    var t' := AttemptSyncClosure(t, syncId);
    SyncClosureKeepsSafe(t, syncId);
    SyncClosureKeepsForest(t, syncId);
    HistoryUnderMoreSyncs(t, t');
    assert FilesHang(t') && EntitiesHang(t');
    assert SyncCapacity(t');
    assert FileCapacity(t') && FilesSafe(t');
  }
}
