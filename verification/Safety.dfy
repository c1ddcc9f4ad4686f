/** What holds of every state that satisfies the invariant, and so of every reachable one. */
module Safety {
  import opened Types
  import opened Statements
  import opened Requests
  import opened Protocol
  import opened Invariant
  import opened ClientSteps
  import opened ClosureSteps

  /******* Hierarchical safety *******/

  /** A completed sync or rerun counts completed files only, and each of them closed entities only. */
  ghost predicate CompletedIsClosed(t: Tables) {
    && (forall x | x in t.syncs && t.syncs[x].status == Status.Completed ::
          var root := Root(t.syncs, x);
          && t.syncs[x].totalFiles == Some(|CompletedOf(t.files, root)|)
          && (forall f | f in t.files && t.files[f].syncId == root :: t.files[f].status == Status.Completed)
          && (forall k | Under(t, root, k) :: IsClosed(t.entities[k].status)))
    && (forall f | f in t.files && t.files[f].status == Status.Completed ::
          && t.files[f].totalEntities == Some(|ClosedOf(t.entities, f)|)
          && (forall k | k in t.entities && k.fileId == f :: IsClosed(t.entities[k].status)))
  }

  lemma CompletedFileIsClosed(t: Tables, f: Id)
    requires Inv(t) && f in t.files && t.files[f].status == Status.Completed
    ensures forall k | k in t.entities && k.fileId == f :: IsClosed(t.entities[k].status)
  {
    CompletedFileIsFull(t, f);
    forall k | k in t.entities && k.fileId == f
      ensures IsClosed(t.entities[k].status)
    {
      assert k in EntitiesOf(t.entities, f);
    }
  }

  lemma {:induction false} InvIsSafe(t: Tables)
    requires Inv(t)
    ensures CompletedIsClosed(t)
  {
    forall f | f in t.files && t.files[f].status == Status.Completed
      ensures forall k | k in t.entities && k.fileId == f :: IsClosed(t.entities[k].status)
    {
      CompletedFileIsClosed(t, f);
    }
    forall x, f | x in t.syncs && t.syncs[x].status == Status.Completed
                  && f in t.files && t.files[f].syncId == Root(t.syncs, x)
      ensures t.files[f].status == Status.Completed
    {
      CompletedSyncIsFull(t, x);
      assert f in FilesOf(t.files, Root(t.syncs, x));
    }
  }

  /******* The rerun forest *******/

  function RerunsOf(syncs: map<Id, Sync>, base: Id): set<Id> {
    set x | x in syncs && syncs[x].baseSyncId == Some(base)
  }

  function Upto(n: nat): set<int> {
    if n == 0 then {} else Upto(n - 1) + {n}
  }

  lemma {:induction false} UptoElements(n: nat)
    ensures |Upto(n)| == n
    ensures forall k :: k in Upto(n) <==> 1 <= k <= n
  {
    if n > 0 {
      UptoElements(n - 1);
    }
  }

  function Numbers(syncs: map<Id, Sync>, runs: set<Id>): set<int>
    requires runs <= syncs.Keys
  {
    set x | x in runs :: syncs[x].runNumber
  }

  lemma {:induction false} NumbersSize(syncs: map<Id, Sync>, runs: set<Id>)
    requires runs <= syncs.Keys
    requires forall x, y | x in runs && y in runs && x != y :: syncs[x].runNumber != syncs[y].runNumber
    ensures |Numbers(syncs, runs)| == |runs|
    decreases |runs|
  {
    if runs == {} {
      assert Numbers(syncs, runs) == {};
    } else {
      var x :| x in runs;
      NumbersSize(syncs, runs - {x});
      assert Numbers(syncs, runs) == Numbers(syncs, runs - {x}) + {syncs[x].runNumber};
    }
  }

  /** Below a rerun, every number from 1 is taken. */
  lemma {:induction false} NumbersBelow(syncs: map<Id, Sync>, base: Id, x: Id, k: int)
    requires Forest(syncs) && x in syncs && syncs[x].baseSyncId == Some(base)
    requires 1 <= k <= syncs[x].runNumber
    ensures k in Numbers(syncs, RerunsOf(syncs, base))
    decreases syncs[x].runNumber
  {
    if k < syncs[x].runNumber {
      assert HasPredecessor(syncs, x);
      var y :| y in syncs && syncs[y].baseSyncId == syncs[x].baseSyncId && syncs[y].runNumber == syncs[x].runNumber - 1;
      NumbersBelow(syncs, base, y, k);
    } else {
      assert x in RerunsOf(syncs, base);
    }
  }

  /** The reruns of a base carry exactly the numbers 1 to n, n being how many there are and the last one's number. */
  lemma {:induction false} RerunsAreNumbered(t: Tables, base: Id, last: Option<Id>)
    requires Inv(t) && base in t.syncs && IsLastRerun(t.syncs, base, last)
    ensures var reruns := RerunsOf(t.syncs, base);
            && Numbers(t.syncs, reruns) == Upto(|reruns|)
            && (last.Some? ==> t.syncs[last.value].runNumber == |reruns|)
  {
    var reruns := RerunsOf(t.syncs, base);
    forall x, y | x in reruns && y in reruns && x != y
      ensures t.syncs[x].runNumber != t.syncs[y].runNumber
    {
      assert Siblings(t.syncs, x, y);
    }
    NumbersSize(t.syncs, reruns);
    match last
    case None => assert reruns == {};
    case Some(r) =>
      var n := t.syncs[r].runNumber;
      assert RerunSound(t.syncs, r);
      forall k | 1 <= k <= n
        ensures k in Numbers(t.syncs, reruns)
      {
        NumbersBelow(t.syncs, base, r, k);
      }
      forall x | x in reruns
        ensures 1 <= t.syncs[x].runNumber <= n
      {
        assert RerunSound(t.syncs, x);
      }
      UptoElements(n);
      assert Numbers(t.syncs, reruns) == Upto(n);
  }

  /** Reruns hang on bases only; all but the last have failed, unless the total is zero. */
  lemma {:induction false} OnlyTheLastRuns(t: Tables, base: Id, last: Id, x: Id)
    requires Inv(t) && IsLastRerun(t.syncs, base, Some(last))
    requires x in t.syncs && t.syncs[x].baseSyncId == Some(base)
    ensures t.syncs[base].baseSyncId == None && t.syncs[base].runNumber == 0
    ensures x != last && t.syncs[x].totalFiles != Some(0) ==> t.syncs[x].status == Status.Failed
    ensures x != last ==> t.syncs[x].status != Status.InProgress
  {
    assert RerunSound(t.syncs, x);
    assert Siblings(t.syncs, x, last);
  }

  /** With a zero total an attempt on an earlier rerun's own id does complete it. */
  lemma {:induction false} ZeroTotalReopensNumbering(t: Tables, x: Id)
    requires Inv(t) && x in t.syncs && t.syncs[x].baseSyncId.Some? && t.syncs[x].status == Status.Failed
    ensures AttemptSyncClosure(t, x).syncs[x].status == Status.Completed <==> t.syncs[x].totalFiles == Some(0)
  {
    NoOwnBase(t.syncs, x);
    assert CompletedOf(t.files, x) == {};
  }

  /** An attempt on a base closes at most the base and its last rerun. */
  lemma {:induction false} AttemptClosesAtMostTwo(t: Tables, base: Id, last: Option<Id>, x: Id)
    requires Inv(t) && base in t.syncs && IsLastRerun(t.syncs, base, last)
    requires x in t.syncs && AttemptSyncClosure(t, base).syncs[x] != t.syncs[x]
    ensures x == base || Some(x) == last
  {
    if x != base {
      OnlyTheLastRuns(t, base, last.value, x);
    }
  }

  /** When an attempt leaves the base completed, a rerun in progress stays open exactly if its total is another. */
  lemma {:induction false} OtherTotalStaysOpen(t: Tables, base: Id, x: Id)
    requires Inv(t) && base in t.syncs && AttemptSyncClosure(t, base).syncs[base].status == Status.Completed
    requires x in t.syncs && t.syncs[x].baseSyncId == Some(base) && t.syncs[x].status == Status.InProgress
    ensures AttemptSyncClosure(t, base).syncs[x].status == Status.InProgress
            <==> t.syncs[x].totalFiles != t.syncs[base].totalFiles
  {
    assert RerunSound(t.syncs, x);
    assert t.syncs[base].totalFiles == Some(|CompletedOf(t.files, base)|);
  }
}
