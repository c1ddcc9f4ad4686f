/**
 Draining the queues: jobs in any order, without client steps in between, end in the tables of one pass,
 after a bounded number of jobs.
 */
module Drain {
  import opened Types
  import opened Statements
  import opened Requests
  import opened Queue
  import opened Protocol
  import opened Invariant
  import opened SetFacts

  /******* The one-pass specification *******/

  /** The changesets some waiting job stands for. */
  function Covered(q: Waiting): set<Id> {
    set id, c | id in q && c in DecodeIds(q[id]) :: c
  }

  /** A file that will be closed: it can be, and a job waits for it or will be sent for it. */
  predicate WillClose(s: State, f: Id) {
    && FileClosable(s.tables, f)
    && (f in s.queues.files || f in FindFilesByChangesets(s.tables, Covered(s.queues.changesets)))
  }

  function FinalFiles(s: State): map<Id, File> {
    map f | f in s.tables.files ::
      if WillClose(s, f) then s.tables.files[f].(status := Status.Completed) else s.tables.files[f]
  }

  /** The syncs attempted: a job waits for them, or one of their files will be closed. */
  predicate WillAttempt(s: State, x: Id) {
    x in s.queues.syncs || exists f :: f in s.tables.files && WillClose(s, f) && s.tables.files[f].syncId == x
  }

  /** A sync row that will be closed, by an attempt on its own id or on its base's, with the final count. */
  predicate WillCloseSync(s: State, x: Id) {
    && x in s.tables.syncs
    && var row := s.tables.syncs[x];
       || (row.status != Status.Completed && WillAttempt(s, x)
           && row.totalFiles == Some(|CompletedOf(FinalFiles(s), x)|))
       || (row.status == Status.InProgress && row.baseSyncId.Some? && WillAttempt(s, row.baseSyncId.value)
           && row.totalFiles == Some(|CompletedOf(FinalFiles(s), row.baseSyncId.value)|))
  }

  function FinalSyncs(s: State): map<Id, Sync> {
    map x | x in s.tables.syncs ::
      if WillCloseSync(s, x) then s.tables.syncs[x].(status := Status.Completed) else s.tables.syncs[x]
  }

  function OnePass(s: State): Tables {
    s.tables.(files := FinalFiles(s), syncs := FinalSyncs(s))
  }

  /******* The hypothesis *******/

  /** No sync has more files than its total, nor than the total of one of its reruns. */
  ghost predicate NoOvershoot(t: Tables) {
    forall x, y | x in t.syncs && (y == x || t.syncs[x].baseSyncId == Some(y)) && t.syncs[x].totalFiles.Some? ::
      |FilesOf(t.files, y)| <= t.syncs[x].totalFiles.value
  }

  /** It holds in every reachable state. */
  lemma {:induction false} InvHasNoOvershoot(t: Tables)
    requires Inv(t)
    ensures NoOvershoot(t)
  {
    forall x, y | x in t.syncs && (y == x || t.syncs[x].baseSyncId == Some(y)) && t.syncs[x].totalFiles.Some?
      ensures |FilesOf(t.files, y)| <= t.syncs[x].totalFiles.value
    {
      if y == x && t.syncs[x].baseSyncId.Some? {
        assert FilesOf(t.files, x) == {};
      }
    }
  }

  /** Row `x` is one an attempt on `y` may close. */
  predicate Attached(syncs: map<Id, Sync>, x: Id, y: Id) {
    && x in syncs
    && ((x == y && syncs[x].status != Status.Completed)
        || (syncs[x].baseSyncId == Some(y) && syncs[x].status == Status.InProgress))
  }

  /** An attempt on `y` midway, with some of its files yet to close, can close row `x`. */
  predicate ClosableEarly(s: State, x: Id, y: Id) {
    && Attached(s.tables.syncs, x, y) && s.tables.syncs[x].totalFiles.Some?
    && var now, total := |CompletedOf(s.tables.files, y)|, s.tables.syncs[x].totalFiles.value;
       && now <= total < |CompletedOf(FinalFiles(s), y)|
       && (now < total || y in s.queues.syncs)
  }

  /** Whatever can be closed midway is closed at the end anyway. */
  ghost predicate Steady(s: State) {
    forall x, y | ClosableEarly(s, x, y) :: WillCloseSync(s, x)
  }

  /** Without overshoot nothing can be closed midway. */
  lemma {:induction false} NoOvershootIsSteady(s: State)
    requires NoOvershoot(s.tables)
    ensures Steady(s)
  {
    forall x, y
      ensures !ClosableEarly(s, x, y)
    {
      FinalCount(s, y);
    }
  }

  /******* Each job leaves the one-pass result as it is *******/

  lemma CoveredWithout(q: Waiting, id: Id)
    requires id in q
    ensures Covered(q) == Covered(q - {id}) + ToSet(DecodeIds(q[id]))
  {
    forall c | c in Covered(q)
      ensures c in Covered(q - {id}) + ToSet(DecodeIds(q[id]))
    {
      var j :| j in q && c in DecodeIds(q[j]);
      if j != id {
        assert j in q - {id} && (q - {id})[j] == q[j];
      } else {
        assert c in ToSet(DecodeIds(q[id]));
      }
    }
  }

  lemma FindFilesSplits(t: Tables, a: set<Id>, b: set<Id>)
    ensures FindFilesByChangesets(t, a + b) == FindFilesByChangesets(t, a) + FindFilesByChangesets(t, b)
  {
    forall f | f in FindFilesByChangesets(t, a + b)
      ensures f in FindFilesByChangesets(t, a) + FindFilesByChangesets(t, b)
    {
    }
  }

  lemma {:induction false} ChangesetStepKeepsOnePass(s: State, id: Id)
    requires id in s.queues.changesets
    ensures OnePass(ChangesetStep(s, id)) == OnePass(s)
  {
    var s' := ChangesetStep(s, id);
    var ids := ToSet(DecodeIds(s.queues.changesets[id]));
    CoveredWithout(s.queues.changesets, id);
    FindFilesSplits(s.tables, Covered(s'.queues.changesets), ids);
    forall f
      ensures WillClose(s', f) == WillClose(s, f)
    {
    }
    SameWill(s, s');
  }

  /** With the same tables, the same files to close and the same sync jobs, the one-pass result is the same. */
  lemma SameWill(s: State, s': State)
    requires s'.tables == s.tables && s'.queues.syncs.Keys == s.queues.syncs.Keys
    requires forall f :: WillClose(s', f) == WillClose(s, f)
    ensures OnePass(s') == OnePass(s)
  {
    assert FinalFiles(s') == FinalFiles(s);
    forall x
      ensures WillAttempt(s', x) == WillAttempt(s, x)
    {
    }
    forall x
      ensures WillCloseSync(s', x) == WillCloseSync(s, x)
    {
    }
  }

  /** Closing a file changes no query but its own status. */
  lemma FileClosedFinds(t: Tables, f: Id, changesets: set<Id>, g: Id)
    requires FileClosable(t, f) && g != f
    ensures g in FindFilesByChangesets(AttemptFileClosure(t, f), changesets)
            <==> g in FindFilesByChangesets(t, changesets)
    ensures FileClosable(AttemptFileClosure(t, f), g) == FileClosable(t, g)
  {
    var t' := AttemptFileClosure(t, f);
    if g in FindFilesByChangesets(t, changesets) {
      var k :| k in t.entities && k.fileId in t.files && t.files[k.fileId].status == Status.InProgress
               && t.entities[k].changesetId.Some? && t.entities[k].changesetId.value in changesets && k.fileId == g;
      assert k in t'.entities && k.fileId in t'.files && t'.files[k.fileId].status == Status.InProgress;
    }
    if g in FindFilesByChangesets(t', changesets) {
      var k :| k in t'.entities && k.fileId in t'.files && t'.files[k.fileId].status == Status.InProgress
               && t'.entities[k].changesetId.Some? && t'.entities[k].changesetId.value in changesets && k.fileId == g;
      assert k in t.entities && k.fileId in t.files && t.files[k.fileId].status == Status.InProgress;
    }
  }

  lemma {:induction false} FileStepKeepsOnePass(s: State, id: Id)
    requires id in s.queues.files
    ensures OnePass(FileStep(s, id)) == OnePass(s)
  {
    var s' := FileStep(s, id);
    if FileClosable(s.tables, id) {
      forall g | g != id
        ensures WillClose(s', g) == WillClose(s, g)
      {
        FileClosedFinds(s.tables, id, Covered(s.queues.changesets), g);
      }
      assert WillClose(s, id) && !WillClose(s', id);
      assert FinalFiles(s') == FinalFiles(s);
      FileClosedAttempts(s, id);
      FileClosedSyncs(s, id);
    } else {
      forall f
        ensures WillClose(s', f) == WillClose(s, f)
      {
      }
      SameWill(s, s');
    }
  }

  /** The sync job pushed for a closed file stands in for the file. */
  lemma FileClosedAttempts(s: State, id: Id)
    requires id in s.queues.files && FileClosable(s.tables, id)
    requires forall g | g != id :: WillClose(FileStep(s, id), g) == WillClose(s, g)
    requires WillClose(s, id) && !WillClose(FileStep(s, id), id)
    ensures forall x :: WillAttempt(FileStep(s, id), x) == WillAttempt(s, x)
  {
    var s' := FileStep(s, id);
    var own := s.tables.files[id].syncId;
    forall x
      ensures WillAttempt(s', x) == WillAttempt(s, x)
    {
      if x == own {
        assert WillAttempt(s, x);
        assert x in s'.queues.syncs;
      } else if exists f :: f in s.tables.files && WillClose(s, f) && s.tables.files[f].syncId == x {
        var f :| f in s.tables.files && WillClose(s, f) && s.tables.files[f].syncId == x;
        assert f in s'.tables.files && WillClose(s', f) && s'.tables.files[f].syncId == x;
      }
    }
  }

  lemma FileClosedSyncs(s: State, id: Id)
    requires FinalFiles(FileStep(s, id)) == FinalFiles(s) && FileStep(s, id).tables.syncs == s.tables.syncs
    requires forall x :: WillAttempt(FileStep(s, id), x) == WillAttempt(s, x)
    ensures FinalSyncs(FileStep(s, id)) == FinalSyncs(s)
  {
  }

  /** The final count of a sync is at most its number of files, and never below the present count. */
  lemma FinalCount(s: State, x: Id)
    ensures |CompletedOf(s.tables.files, x)| <= |CompletedOf(FinalFiles(s), x)| <= |FilesOf(s.tables.files, x)|
    ensures |CompletedOf(s.tables.files, x)| == |CompletedOf(FinalFiles(s), x)|
            ==> CompletedOf(s.tables.files, x) == CompletedOf(FinalFiles(s), x)
  {
    var now, final := CompletedOf(s.tables.files, x), CompletedOf(FinalFiles(s), x);
    forall f | f in now
      ensures f in final
    {
    }
    assert final <= FilesOf(s.tables.files, x);
    SubsetSize(now, final);
    SubsetSize(final, FilesOf(s.tables.files, x));
    if |now| == |final| {
      SubsetOfSameSize(now, final);
    }
  }

  /** In a steady state, a row closed by an attempt is closed at the end. */
  lemma ClosedIsFinal(s: State, x: Id, y: Id)
    requires Steady(s) && y in s.queues.syncs && SyncClosable(s.tables, y, x)
    ensures WillCloseSync(s, x)
  {
    FinalCount(s, y);
    if |CompletedOf(s.tables.files, y)| < |CompletedOf(FinalFiles(s), y)| {
      assert ClosableEarly(s, x, y);
    }
  }

  /** A sync whose job is processed and that is not attempted again has its final count already. */
  lemma NotAgainMeansFinal(s: State, id: Id)
    requires !WillAttempt(SyncStep(s, id), id)
    ensures CompletedOf(s.tables.files, id) == CompletedOf(FinalFiles(s), id)
  {
    var s' := SyncStep(s, id);
    forall f | f in s.tables.files && s.tables.files[f].syncId == id
      ensures !WillClose(s, f)
    {
      assert WillClose(s', f) == WillClose(s, f);
    }
  }

  lemma SyncStepKeepsWill(s: State, id: Id)
    requires id in s.queues.syncs
    ensures FinalFiles(SyncStep(s, id)) == FinalFiles(s)
    ensures forall x | x != id :: WillAttempt(SyncStep(s, id), x) == WillAttempt(s, x)
    ensures WillAttempt(s, id)
  {
    var s' := SyncStep(s, id);
    forall f
      ensures WillClose(s', f) == WillClose(s, f)
    {
    }
    forall x | x != id
      ensures WillAttempt(s', x) == WillAttempt(s, x)
    {
    }
  }

  lemma SyncStepRow(s: State, id: Id, x: Id)
    requires Steady(s) && id in s.queues.syncs && x in s.tables.syncs
    ensures FinalSyncs(SyncStep(s, id))[x] == FinalSyncs(s)[x]
  {
    var s' := SyncStep(s, id);
    var row := s.tables.syncs[x];
    SyncStepKeepsWill(s, id);
    if SyncClosable(s.tables, id, x) {
      ClosedIsFinal(s, x, id);
    } else if !WillAttempt(s', id) {
      NotAgainMeansFinal(s, id);
    }
  }

  lemma {:induction false} SyncStepKeepsOnePass(s: State, id: Id)
    requires Steady(s) && id in s.queues.syncs
    ensures OnePass(SyncStep(s, id)) == OnePass(s)
  {
    SyncStepKeepsWill(s, id);
    forall x | x in s.tables.syncs
      ensures FinalSyncs(SyncStep(s, id))[x] == FinalSyncs(s)[x]
    {
      SyncStepRow(s, id, x);
    }
  }

  /******* Whole drains *******/

  ghost predicate Drains(s: State, jobs: seq<JobRef>)
    decreases |jobs|
  {
    jobs == [] || (Pending(s, jobs[0]) && Drains(ProcessJob(s, jobs[0]), jobs[1..]))
  }

  ghost function After(s: State, jobs: seq<JobRef>): State
    requires Drains(s, jobs)
    decreases |jobs|
  {
    if jobs == [] then s else After(ProcessJob(s, jobs[0]), jobs[1..])
  }

  predicate Idle(s: State) {
    s.queues == Queues(map[], map[], map[])
  }

  lemma ChangesetStepKeepsSteady(s: State, id: Id)
    requires Steady(s) && id in s.queues.changesets
    ensures Steady(ChangesetStep(s, id))
  {
    var s' := ChangesetStep(s, id);
    ChangesetStepKeepsOnePass(s, id);
    assert FinalFiles(s') == OnePass(s').files == FinalFiles(s);
    forall x, y | ClosableEarly(s', x, y)
      ensures WillCloseSync(s', x)
    {
      assert ClosableEarly(s, x, y);
      StillCloses(s, s', x);
    }
  }

  /** A row that is closed at the end, and that a job which keeps the end has not closed, is still to be closed. */
  lemma StillCloses(s: State, s': State, x: Id)
    requires OnePass(s') == OnePass(s) && WillCloseSync(s, x)
    requires x in s'.tables.syncs && s'.tables.syncs[x].status != Status.Completed
    ensures WillCloseSync(s', x)
  {
    assert OnePass(s').syncs[x].status == Status.Completed;
  }

  lemma FileStepKeepsSteady(s: State, id: Id)
    requires Steady(s) && id in s.queues.files
    ensures Steady(FileStep(s, id))
  {
    var s' := FileStep(s, id);
    FileStepKeepsOnePass(s, id);
    assert FinalFiles(s') == OnePass(s').files == FinalFiles(s);
    forall x, y | ClosableEarly(s', x, y)
      ensures WillCloseSync(s', x)
    {
      FileStepCounts(s, id, y);
      assert ClosableEarly(s, x, y);
      StillCloses(s, s', x);
    }
  }

  lemma OneMoreCompleted(files: map<Id, File>, id: Id, y: Id)
    requires id in files && files[id].status != Status.Completed
    ensures |CompletedOf(files[id := files[id].(status := Status.Completed)], y)|
            == |CompletedOf(files, y)| + if files[id].syncId == y then 1 else 0
  {
    var now, after := CompletedOf(files, y), CompletedOf(files[id := files[id].(status := Status.Completed)], y);
    assert id !in now;
    if files[id].syncId == y {
      assert after == now + {id};
    } else {
      assert after == now;
    }
  }

  /** A file job closes one more file of its sync, or none. */
  lemma FileStepCounts(s: State, id: Id, y: Id)
    ensures |CompletedOf(FileStep(s, id).tables.files, y)| ==
            |CompletedOf(s.tables.files, y)| +
            if FileClosable(s.tables, id) && s.tables.files[id].syncId == y then 1 else 0
  {
    if FileClosable(s.tables, id) {
      OneMoreCompleted(s.tables.files, id, y);
    }
  }

  lemma SyncStepKeepsSteady(s: State, id: Id)
    requires Steady(s) && id in s.queues.syncs
    ensures Steady(SyncStep(s, id))
  {
    var s' := SyncStep(s, id);
    SyncStepKeepsOnePass(s, id);
    assert FinalFiles(s') == OnePass(s').files == FinalFiles(s);
    forall x, y | ClosableEarly(s', x, y)
      ensures WillCloseSync(s', x)
    {
      assert ClosableEarly(s, x, y);
      StillCloses(s, s', x);
    }
  }

  lemma JobKeepsSteady(s: State, job: JobRef)
    requires Steady(s) && Pending(s, job)
    ensures Steady(ProcessJob(s, job))
  {
    match job
    case ChangesetJob(id) => ChangesetStepKeepsSteady(s, id);
    case FileJob(id) => FileStepKeepsSteady(s, id);
    case SyncJob(id) => SyncStepKeepsSteady(s, id);
  }

  lemma JobKeepsOnePass(s: State, job: JobRef)
    requires Steady(s) && Pending(s, job)
    ensures OnePass(ProcessJob(s, job)) == OnePass(s)
  {
    match job
    case ChangesetJob(id) => ChangesetStepKeepsOnePass(s, id);
    case FileJob(id) => FileStepKeepsOnePass(s, id);
    case SyncJob(id) => SyncStepKeepsOnePass(s, id);
  }

  /** From a steady state, every drain that empties the queues ends in the one-pass tables. */
  lemma {:induction false} DrainIsOnePass(s: State, jobs: seq<JobRef>)
    requires Steady(s) && Drains(s, jobs) && Idle(After(s, jobs))
    ensures After(s, jobs).tables == OnePass(s)
    decreases |jobs|
  {
    if jobs == [] {
      assert Covered(s.queues.changesets) == {};
      assert forall f :: f !in FindFilesByChangesets(s.tables, {});
      assert FinalFiles(s) == s.tables.files;
      assert FinalSyncs(s) == s.tables.syncs;
    } else {
      JobKeepsOnePass(s, jobs[0]);
      JobKeepsSteady(s, jobs[0]);
      DrainIsOnePass(ProcessJob(s, jobs[0]), jobs[1..]);
    }
  }

  /** Two drains of one reachable state end in the same tables. */
  lemma {:induction false} DrainOrderIsIrrelevant(s: State, jobs: seq<JobRef>, jobs': seq<JobRef>)
    requires Inv(s.tables)
    requires Drains(s, jobs) && Idle(After(s, jobs))
    requires Drains(s, jobs') && Idle(After(s, jobs'))
    ensures After(s, jobs).tables == After(s, jobs').tables
  {
    InvHasNoOvershoot(s.tables);
    NoOvershootIsSteady(s);
    DrainIsOnePass(s, jobs);
    DrainIsOnePass(s, jobs');
  }

  /******* What a drain achieves *******/

  predicate OpenFileOf(t: Tables, x: Id, f: Id) {
    f in t.files && t.files[f].syncId == x && t.files[f].status != Status.Completed
  }

  /** All files of `x` are completed or ready to close under a waiting changeset job, and are all there are to be. */
  ghost predicate ReadyToClose(s: State, x: Id) {
    && (forall f | OpenFileOf(s.tables, x, f) ::
          && s.tables.files[f].status == Status.InProgress
          && s.tables.files[f].totalEntities == Some(|ClosedOf(s.tables.entities, f)|)
          && exists k :: k in s.tables.entities && k.fileId == f && s.tables.entities[k].changesetId.Some?
                         && s.tables.entities[k].changesetId.value in Covered(s.queues.changesets))
    && (exists f :: OpenFileOf(s.tables, x, f))
  }

  lemma ReadyFilesWillClose(s: State, x: Id)
    requires ReadyToClose(s, x)
    ensures CompletedOf(FinalFiles(s), x) == FilesOf(s.tables.files, x)
    ensures WillAttempt(s, x)
  {
    forall f | OpenFileOf(s.tables, x, f)
      ensures WillClose(s, f)
    {
      var k :| k in s.tables.entities && k.fileId == f && s.tables.entities[k].changesetId.Some?
               && s.tables.entities[k].changesetId.value in Covered(s.queues.changesets);
      assert f in FindFilesByChangesets(s.tables, Covered(s.queues.changesets));
    }
  }

  /** Then every drain completes those files, and the sync and each rerun in progress whose total they make up. */
  lemma {:induction false} ReadySyncIsCompleted(s: State, x: Id, r: Id, jobs: seq<JobRef>)
    requires Inv(s.tables) && Drains(s, jobs) && Idle(After(s, jobs)) && ReadyToClose(s, x)
    requires r in s.tables.syncs && s.tables.syncs[r].status != Status.Completed
    requires r == x || (s.tables.syncs[r].baseSyncId == Some(x) && s.tables.syncs[r].status == Status.InProgress)
    ensures forall f | f in FilesOf(s.tables.files, x) ::
              f in After(s, jobs).tables.files && After(s, jobs).tables.files[f].status == Status.Completed
    ensures s.tables.syncs[r].totalFiles == Some(|FilesOf(s.tables.files, x)|) ==>
              r in After(s, jobs).tables.syncs && After(s, jobs).tables.syncs[r].status == Status.Completed
  {
    InvHasNoOvershoot(s.tables);
    NoOvershootIsSteady(s);
    DrainIsOnePass(s, jobs);
    ReadyFilesWillClose(s, x);
    forall f | f in FilesOf(s.tables.files, x)
      ensures f in FinalFiles(s) && FinalFiles(s)[f].status == Status.Completed
    {
      assert f in CompletedOf(FinalFiles(s), x);
    }
  }

  /******* Termination *******/

  function Weigh(tableFiles: nat, changesetJobs: nat, fileJobs: nat, syncJobs: nat): nat {
    (2 * tableFiles + 1) * changesetJobs + 2 * fileJobs + syncJobs
  }

  function Measure(s: State): nat {
    Weigh(|s.tables.files|, |s.queues.changesets|, |s.queues.files|, |s.queues.syncs|)
  }

  lemma WeighLess(n: nat, c: nat, f: nat, f': nat, y: nat)
    requires 0 < c && f' <= f + n
    ensures Weigh(n, c - 1, f', y) < Weigh(n, c, f, y)
  {
    var width := 2 * n + 1;
    assert width * (c - 1) == width * c - width;
  }

  lemma RemovedSize(q: Waiting, id: Id)
    requires id in q
    ensures |q - {id}| == |q| - 1
  {
    assert (q - {id}).Keys == q.Keys - {id};
  }

  lemma EnqueuedSize(q: Waiting, ids: set<Id>, kind: Kind)
    ensures |EnqueueIds(q, ids, kind)| <= |q| + |ids|
  {
    assert EnqueueIds(q, ids, kind).Keys == q.Keys + ids;
    assert q.Keys + ids == q.Keys + (ids - q.Keys);
    SubsetSize(ids - q.Keys, ids);
  }

  lemma ChangesetStepLowersMeasure(s: State, id: Id)
    requires id in s.queues.changesets
    ensures Measure(ChangesetStep(s, id)) < Measure(s)
  {
    var s' := ChangesetStep(s, id);
    var found := FindFilesByChangesets(s.tables, ToSet(DecodeIds(s.queues.changesets[id])));
    RemovedSize(s.queues.changesets, id);
    EnqueuedSize(s.queues.files, found, FileKind);
    SubsetSize(found, s.tables.files.Keys);
    WeighLess(|s.tables.files|, |s.queues.changesets|, |s.queues.files|, |s'.queues.files|, |s.queues.syncs|);
  }

  lemma FileStepLowersMeasure(s: State, id: Id)
    requires id in s.queues.files
    ensures Measure(FileStep(s, id)) < Measure(s)
  {
    var s' := FileStep(s, id);
    RemovedSize(s.queues.files, id);
    assert s'.tables.files.Keys == s.tables.files.Keys;
    assert |s'.tables.files| == |s.tables.files|;
    if FileClosable(s.tables, id) {
      EnqueueSize(s.queues.syncs, SingleJob(s.tables.files[id].syncId, SyncKind));
    }
  }

  lemma SyncStepLowersMeasure(s: State, id: Id)
    requires id in s.queues.syncs
    ensures Measure(SyncStep(s, id)) < Measure(s)
  {
    RemovedSize(s.queues.syncs, id);
    WeighSyncs(|s.tables.files|, |s.queues.changesets|, |s.queues.files|, |s.queues.syncs|);
  }

  lemma WeighSyncs(n: nat, c: nat, f: nat, y: nat)
    requires 0 < y
    ensures Weigh(n, c, f, y - 1) < Weigh(n, c, f, y)
  {
  }

  lemma EnqueueSize(q: Waiting, job: Job)
    ensures |Enqueue(q, job)| <= |q| + 1
  {
    assert Enqueue(q, job).Keys <= q.Keys + {job.id};
    SubsetSize(Enqueue(q, job).Keys, q.Keys + {job.id});
  }

  /** Each job lowers the measure, although changeset and file jobs push others. */
  lemma {:induction false} JobLowersMeasure(s: State, job: JobRef)
    requires Pending(s, job)
    ensures Measure(ProcessJob(s, job)) < Measure(s)
  {
    match job
    case ChangesetJob(id) => ChangesetStepLowersMeasure(s, id);
    case FileJob(id) => FileStepLowersMeasure(s, id);
    case SyncJob(id) => SyncStepLowersMeasure(s, id);
  }

  /** No drain runs more jobs than the measure of its first state. */
  lemma {:induction false} DrainIsBounded(s: State, jobs: seq<JobRef>)
    requires Drains(s, jobs)
    ensures |jobs| + Measure(After(s, jobs)) <= Measure(s)
    decreases |jobs|
  {
    if jobs != [] {
      JobLowersMeasure(s, jobs[0]);
      DrainIsBounded(ProcessJob(s, jobs[0]), jobs[1..]);
    }
  }

  /** Every state drains. */
  lemma {:induction false} DrainExists(s: State) returns (jobs: seq<JobRef>)
    ensures Drains(s, jobs) && Idle(After(s, jobs))
    decreases Measure(s)
  {
    if Idle(s) {
      jobs := [];
    } else {
      var job: JobRef;
      if s.queues.changesets != map[] {
        assert s.queues.changesets.Keys != {};
        var id :| id in s.queues.changesets;
        job := ChangesetJob(id);
      } else if s.queues.files != map[] {
        assert s.queues.files.Keys != {};
        var id :| id in s.queues.files;
        job := FileJob(id);
      } else {
        assert s.queues.syncs.Keys != {};
        var id :| id in s.queues.syncs;
        job := SyncJob(id);
      }
      JobLowersMeasure(s, job);
      var rest := DrainExists(ProcessJob(s, job));
      jobs := [job] + rest;
      assert jobs[1..] == rest;
    }
  }

  /******* The exact condition *******/

  /** Changeset jobs first, file jobs next, sync jobs last: this order ends in the one-pass tables from any state. */
  lemma {:induction false} FilesFirstDrain(s: State) returns (jobs: seq<JobRef>)
    ensures Drains(s, jobs) && Idle(After(s, jobs)) && After(s, jobs).tables == OnePass(s)
    decreases Measure(s)
  {
    if s.queues.changesets.Keys == {} && s.queues.files.Keys == {} {
      NoFilesToCloseIsSteady(s);
      jobs := DrainExists(s);
      DrainIsOnePass(s, jobs);
    } else {
      var job: JobRef;
      if s.queues.changesets.Keys != {} {
        var id :| id in s.queues.changesets;
        job := ChangesetJob(id);
        ChangesetStepKeepsOnePass(s, id);
      } else {
        var id :| id in s.queues.files;
        job := FileJob(id);
        FileStepKeepsOnePass(s, id);
      }
      JobLowersMeasure(s, job);
      var rest := FilesFirstDrain(ProcessJob(s, job));
      jobs := [job] + rest;
      assert jobs[1..] == rest;
    }
  }

  lemma NoFilesToCloseIsSteady(s: State)
    requires s.queues.changesets.Keys == {} && s.queues.files.Keys == {}
    ensures Steady(s)
  {
    assert Covered(s.queues.changesets) == {};
    assert forall f :: !WillClose(s, f);
    assert FinalFiles(s) == s.tables.files;
  }

  /** A row that can be closed midway is closed by some drain. */
  lemma {:induction false} EarlyDrain(s: State, x: Id, y: Id) returns (jobs: seq<JobRef>)
    requires ClosableEarly(s, x, y)
    ensures Drains(s, jobs) && Idle(After(s, jobs))
    ensures x in After(s, jobs).tables.syncs && After(s, jobs).tables.syncs[x].status == Status.Completed
    decreases Measure(s)
  {
    var job: JobRef;
    var rest: seq<JobRef>;
    if s.queues.changesets.Keys != {} {
      var id :| id in s.queues.changesets;
      job := ChangesetJob(id);
      ChangesetStepKeepsOnePass(s, id);
      assert FinalFiles(ChangesetStep(s, id)) == OnePass(ChangesetStep(s, id)).files == FinalFiles(s);
      JobLowersMeasure(s, job);
      rest := EarlyDrain(ProcessJob(s, job), x, y);
    } else if |CompletedOf(s.tables.files, y)| < s.tables.syncs[x].totalFiles.value {
      var id := FileToClose(s, y);
      job := FileJob(id);
      FileStepKeepsOnePass(s, id);
      assert FinalFiles(FileStep(s, id)) == OnePass(FileStep(s, id)).files == FinalFiles(s);
      FileStepCounts(s, id, y);
      JobLowersMeasure(s, job);
      rest := EarlyDrain(ProcessJob(s, job), x, y);
    } else {
      job := SyncJob(y);
      rest := DrainExists(ProcessJob(s, job));
      CompletedSyncStays(ProcessJob(s, job), rest, x);
    }
    jobs := [job] + rest;
    assert jobs[1..] == rest;
  }

  lemma FileToClose(s: State, y: Id) returns (f: Id)
    requires s.queues.changesets.Keys == {}
    requires |CompletedOf(s.tables.files, y)| < |CompletedOf(FinalFiles(s), y)|
    ensures f in s.queues.files && FileClosable(s.tables, f) && s.tables.files[f].syncId == y
  {
    assert Covered(s.queues.changesets) == {};
    var now, final := CompletedOf(s.tables.files, y), CompletedOf(FinalFiles(s), y);
    if final <= now {
      SubsetSize(final, now);
    }
    f :| f in final && f !in now;
    assert WillClose(s, f);
  }

  lemma {:induction false} CompletedSyncStays(s: State, jobs: seq<JobRef>, x: Id)
    requires Drains(s, jobs) && x in s.tables.syncs && s.tables.syncs[x].status == Status.Completed
    ensures x in After(s, jobs).tables.syncs && After(s, jobs).tables.syncs[x].status == Status.Completed
    decreases |jobs|
  {
    if jobs != [] {
      CompletedSyncStays(ProcessJob(s, jobs[0]), jobs[1..], x);
    }
  }

  /** From any state at all: the drains agree if and only if the state is steady, and then on the one-pass tables. */
  lemma {:induction false} DrainsAgreeExactly(s: State)
    ensures (forall jobs, jobs' | Drains(s, jobs) && Drains(s, jobs')
                                  && Idle(After(s, jobs)) && Idle(After(s, jobs')) ::
               After(s, jobs).tables == After(s, jobs').tables)
            <==> Steady(s)
  {
    if Steady(s) {
      forall jobs, jobs' | Drains(s, jobs) && Drains(s, jobs') && Idle(After(s, jobs)) && Idle(After(s, jobs'))
        ensures After(s, jobs).tables == After(s, jobs').tables
      {
        DrainIsOnePass(s, jobs);
        DrainIsOnePass(s, jobs');
      }
    } else {
      var x, y :| ClosableEarly(s, x, y) && !WillCloseSync(s, x);
      var early := EarlyDrain(s, x, y);
      var last := FilesFirstDrain(s);
      assert OnePass(s).syncs[x] == s.tables.syncs[x];
      assert After(s, early).tables != After(s, last).tables;
    }
  }
}
