/** What each operation does, with its rows, statuses and conditions written out. */
module Effects {
  import opened Types
  import opened Statements
  import opened Requests
  import opened Queue
  import opened Protocol
  import opened Invariant
  import opened Reachable
  import opened RerunSteps
  import opened NoLoss
  import opened EntityWrites
  import opened BaseClosure
  import opened FullSyncs
  import opened Drain
  import opened Hashing
  import opened Batching

  /******* Closures *******/

  function CountClosed(t: Tables, f: Id): nat {
    |set k | k in t.entities && k.fileId == f
             && t.entities[k].status in {EntityStatus.Completed, EntityStatus.NotSynced}|
  }

  lemma CountIsClosed(t: Tables, f: Id)
    ensures CountClosed(t, f) == |ClosedOf(t.entities, f)|
  {
    assert ClosedOf(t.entities, f)
        == set k | k in t.entities && k.fileId == f
                   && t.entities[k].status in {EntityStatus.Completed, EntityStatus.NotSynced};
  }

  /** An attempt completes its own file, unless completed, when the total is the count, and changes nothing else. */
  lemma {:induction false} FileClosesExactly(t: Tables, f: Id)
    ensures var t' := AttemptFileClosure(t, f);
            var closes := f in t.files && t.files[f].status in {Status.InProgress, Status.Failed}
                          && t.files[f].totalEntities == Some(CountClosed(t, f));
            && (closes ==> t' == t.(files := t.files[f := File(
                  t.files[f].syncId, Status.Completed, t.files[f].totalEntities)]))
            && (!closes ==> t' == t)
  {
    CountIsClosed(t, f);
  }

  function CountCompleted(t: Tables, y: Id): nat {
    |set f | f in t.files && t.files[f].syncId == y && t.files[f].status == Status.Completed|
  }

  /** An attempt on `y` may close `y` itself unless completed, and its reruns in progress. */
  lemma {:induction false} SyncClosesExactly(t: Tables, y: Id, x: Id)
    requires x in t.syncs
    ensures var t', row := AttemptSyncClosure(t, y), t.syncs[x];
            var closes := row.totalFiles == Some(CountCompleted(t, y))
                          && ((x == y && row.status in {Status.InProgress, Status.Failed})
                              || (row.baseSyncId == Some(y) && row.status == Status.InProgress));
            && t' == t.(syncs := t'.syncs) && t'.syncs.Keys == t.syncs.Keys
            && t'.syncs[x] == if closes then row.(status := Status.Completed) else row
  {
    assert CompletedOf(t.files, y)
        == set f | f in t.files && t.files[f].syncId == y && t.files[f].status == Status.Completed;
  }

  /******* The rerun transaction *******/

  lemma CreatedRows(
    t: Tables, base: Id, id: Id, notSynced: bool, last: Option<Id>, latest: Option<Id>, t': Tables)
    requires Inv(t) && IsLastRerun(t.syncs, base, last) && IsLastRerun(t.syncs, base, latest)
    requires RerunSyncIfNeeded(t, base, id, notSynced, last, latest) == Ok(RerunOutcome(t', true))
    ensures latest != Some(base)
    ensures t'.entities.Keys == t.entities.Keys
    ensures forall k | k in t.entities ::
              t'.entities[k] == if Under(t, base, k) && Resettable(t.entities[k].status, notSynced) then RESET_ROW
                                else t.entities[k]
    ensures t'.history == t.history + HistoryRows(t, base, LatestRun(base, latest))
    ensures forall h | h in t.history :: h.syncId != LatestRun(base, latest)
  {
    CreatedRerun(t, base, id, notSynced, last, latest, t');
    CreatedRerunEffect(t, base, id, notSynced, latest);
  }

  lemma ResetRow(t: Tables, base: Id, notSynced: bool, k: EntityKey)
    requires k in t.entities
    ensures var resets := k.fileId in t.files && t.files[k.fileId].syncId == base
                          && (t.entities[k].status == EntityStatus.InProgress
                              || t.entities[k].status == EntityStatus.Failed
                              || (notSynced && t.entities[k].status == EntityStatus.NotSynced));
            (Under(t, base, k) && Resettable(t.entities[k].status, notSynced)) == resets
    ensures RESET_ROW == Entity(EntityStatus.InRerun, None, None, None)
  {
  }

  /** The rows a rerun resets, and what it makes of them. */
  lemma {:induction false} RerunResets(
    t: Tables, base: Id, id: Id, notSynced: bool, last: Option<Id>, latest: Option<Id>, t': Tables, k: EntityKey)
    requires Inv(t) && IsLastRerun(t.syncs, base, last) && IsLastRerun(t.syncs, base, latest)
    requires RerunSyncIfNeeded(t, base, id, notSynced, last, latest) == Ok(RerunOutcome(t', true))
    requires k in t.entities
    ensures t'.entities.Keys == t.entities.Keys
    ensures var resets := k.fileId in t.files && t.files[k.fileId].syncId == base
                          && (t.entities[k].status == EntityStatus.InProgress
                              || t.entities[k].status == EntityStatus.Failed
                              || (notSynced && t.entities[k].status == EntityStatus.NotSynced));
            t'.entities[k] == if resets then Entity(EntityStatus.InRerun, None, None, None) else t.entities[k]
  {
    CreatedRows(t, base, id, notSynced, last, latest, t');
    ResetRow(t, base, notSynced, k);
  }

  /** Some run of the base recorded a completed entity of this id. */
  ghost predicate RecordedCompleted(t: Tables, base: Id, entityId: Id) {
    exists g :: g in t.history && g.entityId == entityId && t.history[g].row.status == EntityStatus.Completed
                && (g.syncId == base || (g.syncId in t.syncs && t.syncs[g.syncId].baseSyncId == Some(base)))
  }

  /** The history after a rerun: the rows there were, and one for each outcome of the run that ends. */
  lemma {:induction false} RerunRecords(
    t: Tables, base: Id, id: Id, notSynced: bool, last: Option<Id>, latest: Option<Id>, t': Tables, h: HistoryKey)
    requires Inv(t) && IsLastRerun(t.syncs, base, last) && IsLastRerun(t.syncs, base, latest)
    requires RerunSyncIfNeeded(t, base, id, notSynced, last, latest) == Ok(RerunOutcome(t', true))
    ensures var run, k := if latest.Some? then latest.value else base, EntityKey(h.entityId, h.fileId);
            var records := h.syncId == run && k in t.entities
                           && k.fileId in t.files && t.files[k.fileId].syncId == base
                           && t.entities[k].status != EntityStatus.InRerun
                           && !RecordedCompleted(t, base, k.entityId);
            && (h in t'.history <==> h in t.history || records)
            && (h in t.history ==> !records && t'.history[h] == t.history[h])
            && (records ==> t'.history[h] == Snapshot(if latest.Some? then Some(base) else None, t.entities[k]))
  {
    CreatedRows(t, base, id, notSynced, last, latest, t');
    RecordedRow(t, base, LatestRun(base, latest), h);
  }

  lemma RecordedRow(t: Tables, base: Id, run: Id, h: HistoryKey)
    ensures var k, rows := EntityKey(h.entityId, h.fileId), HistoryRows(t, base, run);
            && (h in rows <==> h.syncId == run && k in t.entities
                               && k.fileId in t.files && t.files[k.fileId].syncId == base
                               && t.entities[k].status != EntityStatus.InRerun
                               && !RecordedCompleted(t, base, k.entityId))
            && (h in rows ==> rows[h] == Snapshot(if run == base then None else Some(base), t.entities[k]))
  {
    var k := EntityKey(h.entityId, h.fileId);
    assert RecordedCompleted(t, base, k.entityId) == CompletedBefore(t, base, k.entityId);
    if k in t.entities && ForHistory(t, base, k) && h.syncId == run {
      assert h == HistoryKey(run, k.entityId, k.fileId);
    }
  }

  /** What a rerun makes of the files: empty ones go, reopened or dangling ones change their status. */
  lemma {:induction false} RerunFiles(
    t: Tables, base: Id, id: Id, notSynced: bool, last: Option<Id>, latest: Option<Id>, t': Tables, f: Id)
    requires Inv(t) && IsLastRerun(t.syncs, base, last) && IsLastRerun(t.syncs, base, latest)
    requires RerunSyncIfNeeded(t, base, id, notSynced, last, latest) == Ok(RerunOutcome(t', true))
    requires f in t.files
    ensures f in t'.files <==> t.files[f].syncId != base || exists k :: k in t.entities && k.fileId == f
    ensures f in t'.files ==>
              var row := t.files[f];
              var reopens := notSynced && row.syncId == base
                             && exists k :: k in t.entities && k.fileId == f
                                            && t.entities[k].status == EntityStatus.NotSynced;
              var closes := !notSynced && row.syncId == base && row.status == Status.InProgress
                            && CountClosed(t, f) > 0 && row.totalEntities == Some(CountClosed(t, f));
              t'.files[f] == if reopens then row.(status := Status.InProgress)
                             else if closes then row.(status := Status.Completed) else row
  {
    CreatedRerun(t, base, id, notSynced, last, latest, t');
    SweepIsExact(t, base, f);
    EmptyFilesTakeNothingAlong(t, base);
    RerunFileRow(DeleteEmptyFiles(t, base), base, LatestRun(base, latest), notSynced, f);
    CountIsClosed(t, f);
    CountIsClosed(DeleteEmptyFiles(t, base), f);
  }

  lemma RerunFileRow(t: Tables, base: Id, run: Id, notSynced: bool, f: Id)
    requires CreateEntityHistory(t, base, run).Ok?
    ensures var t' := Prepared(t, base, run, notSynced);
            && t'.files.Keys == t.files.Keys
            && (f in t.files ==>
                  var row := t.files[f];
                  var reopens := notSynced && row.syncId == base
                                 && exists k :: k in t.entities && k.fileId == f
                                                && t.entities[k].status == EntityStatus.NotSynced;
                  var closes := !notSynced && row.syncId == base && row.status == Status.InProgress
                                && CountClosed(t, f) > 0 && row.totalEntities == Some(CountClosed(t, f));
                  t'.files[f] == if reopens then row.(status := Status.InProgress)
                                 else if closes then row.(status := Status.Completed) else row)
  {
    PreparedRows(t, base, run, notSynced);
    CountIsClosed(t, f);
  }

  /** The sweep deletes exactly the base's files that hold no entity. */
  lemma SweepIsExact(t: Tables, base: Id, f: Id)
    requires f in t.files
    ensures f in EmptyFiles(t, base) <==> t.files[f].syncId == base && forall k | k in t.entities :: k.fileId != f
    ensures f in DeleteEmptyFiles(t, base).files
            <==> t.files[f].syncId != base || exists k :: k in t.entities && k.fileId == f
  {
    if k :| k in t.entities && k.fileId == f {
      assert k in EntitiesOf(t.entities, f);
    }
  }

  /** The completed files of the base that hold an entity. */
  function CountHolding(t: Tables, base: Id): nat {
    |set f | f in t.files && t.files[f].syncId == base && t.files[f].status == Status.Completed
             && (exists k :: k in t.entities && k.fileId == f)|
  }

  /** The transaction closes the base instead when it deleted a file and the total is what is left completed. */
  lemma {:induction false} SweepClosesBaseExactly(t: Tables, r: RerunRequest, latest: Option<Id>)
    requires r.baseSyncId in t.syncs
    ensures var base := r.baseSyncId;
            var closes := (exists f :: f in t.files && t.files[f].syncId == base
                                       && forall k | k in t.entities :: k.fileId != f)
                          && t.syncs[base].totalFiles == Some(CountHolding(t, base));
            var result := CreateRerun(t, r, latest);
            && (closes <==> result.Ok? && !result.value.created)
            && (closes ==> result.value.tables.syncs == t.syncs[base := t.syncs[base].(status := Status.Completed)])
  {
    var base := r.baseSyncId;
    var swept := DeleteEmptyFiles(t, base);
    forall f | f in t.files
      ensures f in EmptyFiles(t, base) <==> t.files[f].syncId == base && forall k | k in t.entities :: k.fileId != f
      ensures f in swept.files <==> t.files[f].syncId != base || exists k :: k in t.entities && k.fileId == f
    {
      SweepIsExact(t, base, f);
    }
    LeftCompleted(t, base);
    assert BaseClosable(swept, base) <==> t.syncs[base].totalFiles == Some(CountHolding(t, base));
    assert EmptyFiles(t, base) != {}
        <==> exists f :: f in t.files && t.files[f].syncId == base && forall k | k in t.entities :: k.fileId != f;
  }

  lemma LeftCompleted(t: Tables, base: Id)
    ensures |CompletedOf(DeleteEmptyFiles(t, base).files, base)| == CountHolding(t, base)
  {
    var left := CompletedOf(DeleteEmptyFiles(t, base).files, base);
    forall f
      ensures f in left <==> f in t.files && t.files[f].syncId == base && t.files[f].status == Status.Completed
                             && exists k :: k in t.entities && k.fileId == f
    {
      if f in t.files {
        SweepIsExact(t, base, f);
      }
    }
    assert left == set f | f in t.files && t.files[f].syncId == base && t.files[f].status == Status.Completed
                           && exists k :: k in t.entities && k.fileId == f;
  }

  /** Otherwise it fails, for a repeated key only: the rerun's own, or that of a row to be recorded. */
  lemma {:induction false} TransactionFailsExactly(t: Tables, r: RerunRequest, latest: Option<Id>)
    requires CreateRerun(t, r, latest).Ok? ==> CreateRerun(t, r, latest).value.created
    ensures var swept, run := DeleteEmptyFiles(t, r.baseSyncId), LatestRun(r.baseSyncId, latest);
            var repeats := r.id in t.syncs
                           || exists h :: h in swept.history && h in HistoryRows(swept, r.baseSyncId, run);
            && (CreateRerun(t, r, latest).Err? <==> repeats)
            && (repeats ==> CreateRerun(t, r, latest) == Err(UniqueViolation))
  {
    var swept, run := DeleteEmptyFiles(t, r.baseSyncId), LatestRun(r.baseSyncId, latest);
    assert HistoryRows(swept, r.baseSyncId, run).Keys !! swept.history.Keys
        <==> !exists h :: h in swept.history && h in HistoryRows(swept, r.baseSyncId, run);
    if CreateEntityHistory(swept, r.baseSyncId, run).Ok? {
      PreparedRows(swept, r.baseSyncId, run, r.notSynced);
    }
  }

  /** Which guard refuses a rerun, in their order. */
  lemma {:induction false} GuardsRefuse(
    syncs: map<Id, Sync>, base: Id, id: Id, notSynced: bool, last: Option<Id>)
    requires IsLastRerun(syncs, base, last)
    ensures match CheckRerun(syncs, base, id, notSynced, last)
            case Ok(r) =>
              && id !in syncs && base in syncs && syncs[base].runNumber == 0 && syncs[base].status == Status.Failed
              && (last.Some? ==> syncs[last.value].status == Status.Failed)
              && r.id == id && r.baseSyncId == base && r.notSynced == notSynced
              && r.totalFiles == syncs[base].totalFiles && r.details == syncs[base].details
              && r.runNumber == if last.Some? then syncs[last.value].runNumber + 1 else 1
            case Err(e) =>
              if id in syncs then e == RerunAlreadyExists
              else if base !in syncs then e == SyncNotFound
              else
                && e == InvalidSyncForRerun
                && (syncs[base].runNumber != 0 || syncs[base].status in {Status.InProgress, Status.Completed}
                    || (last.Some? && syncs[last.value].status in {Status.InProgress, Status.Completed}))
  {
  }

  /******* Changesets *******/

  /** Completing a changeset completes its entities and changes nothing else. */
  lemma {:induction false} CompletionIsExact(t: Tables, c: Id, k: EntityKey)
    requires k in t.entities
    ensures var t', row := CompleteChangeset(t, c), t.entities[k];
            && t' == t.(entities := t'.entities) && t'.entities.Keys == t.entities.Keys
            && t'.entities[k] == if row.changesetId == Some(c)
                                 then Entity(EntityStatus.Completed, row.changesetId, row.action, row.failReason)
                                 else row
  {
  }

  /** The file is in progress and holds an entity of one of the changesets. */
  ghost predicate Touched(t: Tables, f: Id, changesets: set<Id>) {
    && f in t.files && t.files[f].status == Status.InProgress
    && exists k, c :: k in t.entities && k.fileId == f && c in changesets && t.entities[k].changesetId == Some(c)
  }

  lemma {:induction false} FoundExactly(t: Tables, changesets: set<Id>, f: Id)
    ensures f in FindFilesByChangesets(t, changesets) <==> Touched(t, f, changesets)
  {
    if f in FindFilesByChangesets(t, changesets) {
      var k :| k in t.entities && k.fileId in t.files && t.files[k.fileId].status == Status.InProgress
               && t.entities[k].changesetId.Some? && t.entities[k].changesetId.value in changesets && k.fileId == f;
      assert t.entities[k].changesetId == Some(t.entities[k].changesetId.value);
    }
    if Touched(t, f, changesets) {
      var k, c :| k in t.entities && k.fileId == f && c in changesets && t.entities[k].changesetId == Some(c);
    }
  }

  /** A changeset job sends a file job for exactly the files its changesets touch. */
  lemma {:induction false} JobSendsExactly(s: State, id: Id, f: Id)
    requires id in s.queues.changesets
    ensures var ids := ToSet(DecodeIds(s.queues.changesets[id]));
            var files, files' := s.queues.files, ChangesetStep(s, id).queues.files;
            && (f in files' <==> f in files || Touched(s.tables, f, ids))
            && (f in files && !Touched(s.tables, f, ids) ==> files'[f] == files[f])
  {
    FoundExactly(s.tables, ToSet(DecodeIds(s.queues.changesets[id])), f);
  }

  /** A drain completes exactly the files whose count is met and that a waiting job reaches. */
  lemma {:induction false} DrainClosesExactly(s: State, jobs: seq<JobRef>, f: Id)
    requires Steady(s) && Drains(s, jobs) && Idle(After(s, jobs)) && f in s.tables.files
    ensures var files' := After(s, jobs).tables.files;
            && f in files'
            && (files'[f].status == Status.Completed
                <==> s.tables.files[f].status == Status.Completed
                     || (s.tables.files[f].totalEntities == Some(CountClosed(s.tables, f))
                         && (f in s.queues.files || Touched(s.tables, f, Covered(s.queues.changesets)))))
  {
    DrainIsOnePass(s, jobs);
    FoundExactly(s.tables, Covered(s.queues.changesets), f);
    CountIsClosed(s.tables, f);
  }

  /** A job waits for the sync, or the drain completes one of its files. */
  ghost predicate Attempts(s: State, s': State, y: Id) {
    || y in s.queues.syncs
    || exists f :: f in s.tables.files && s.tables.files[f].syncId == y && f in s'.tables.files
                   && s.tables.files[f].status != Status.Completed && s'.tables.files[f].status == Status.Completed
  }

  /** A drain completes exactly the sync rows whose total is the final count of a sync attempted. */
  lemma {:induction false} DrainClosesSyncsExactly(s: State, jobs: seq<JobRef>, x: Id)
    requires Steady(s) && Drains(s, jobs) && Idle(After(s, jobs)) && x in s.tables.syncs
    ensures var s', row := After(s, jobs), s.tables.syncs[x];
            && s'.tables.syncs.Keys == s.tables.syncs.Keys
            && (s'.tables.syncs[x].status == Status.Completed
                <==> || row.status == Status.Completed
                     || (Attempts(s, s', x) && row.totalFiles == Some(CountCompleted(s'.tables, x)))
                     || (row.status == Status.InProgress && row.baseSyncId.Some?
                         && Attempts(s, s', row.baseSyncId.value)
                         && row.totalFiles == Some(CountCompleted(s'.tables, row.baseSyncId.value))))
  {
    DrainIsOnePass(s, jobs);
    AttemptsAreWilled(s, After(s, jobs));
    CountIsCompleted(After(s, jobs).tables);
  }

  lemma CountIsCompleted(t: Tables)
    ensures forall y :: CountCompleted(t, y) == |CompletedOf(t.files, y)|
  {
    forall y
      ensures CountCompleted(t, y) == |CompletedOf(t.files, y)|
    {
      assert CompletedOf(t.files, y)
          == set f | f in t.files && t.files[f].syncId == y && t.files[f].status == Status.Completed;
    }
  }

  lemma AttemptsAreWilled(s: State, s': State)
    requires s'.tables.files == FinalFiles(s)
    ensures forall y :: Attempts(s, s', y) == WillAttempt(s, y)
  {
  }

  /** All entities of the file are closed or belong to the changeset, one at least does, and they are all there are. */
  ghost predicate ClosesWith(t: Tables, f: Id, c: Id) {
    && f in t.files && t.files[f].status == Status.InProgress
    && t.files[f].totalEntities == Some(|set k | k in t.entities && k.fileId == f|)
    && (forall k | k in t.entities && k.fileId == f ::
          t.entities[k].changesetId == Some(c)
          || t.entities[k].status in {EntityStatus.Completed, EntityStatus.NotSynced})
    && (exists k :: k in t.entities && k.fileId == f && t.entities[k].changesetId == Some(c))
  }

  lemma CompletedCount(t: Tables, f: Id, c: Id)
    requires ClosesWith(t, f, c)
    ensures var t' := CompleteChangeset(t, c);
            && t'.files == t.files && t'.files[f].totalEntities == Some(CountClosed(t', f))
            && Touched(t', f, {c})
  {
    var t' := CompleteChangeset(t, c);
    assert (set k | k in t.entities && k.fileId == f)
        == set k | k in t'.entities && k.fileId == f
                   && t'.entities[k].status in {EntityStatus.Completed, EntityStatus.NotSynced};
    var k :| k in t.entities && k.fileId == f && t.entities[k].changesetId == Some(c);
    assert k in t'.entities && t'.entities[k].changesetId == Some(c);
  }

  /** Completing a changeset and draining closes every file that waited for its entities only. */
  lemma {:induction false} CompletedChangesetCloses(s: State, c: Id, f: Id, jobs: seq<JobRef>)
    requires Inv(s.tables) && ClosesWith(s.tables, f, c)
    requires exists id :: id in s.queues.changesets && c in DecodeIds(s.queues.changesets[id])
    requires Drains(Next(s, CompleteChangesetEntities(c)), jobs)
    requires Idle(After(Next(s, CompleteChangesetEntities(c)), jobs))
    ensures var files' := After(Next(s, CompleteChangesetEntities(c)), jobs).tables.files;
            f in files' && files'[f].status == Status.Completed
  {
    var s' := Next(s, CompleteChangesetEntities(c));
    StepKeepsInv(s, CompleteChangesetEntities(c));
    InvHasNoOvershoot(s'.tables);
    NoOvershootIsSteady(s');
    CompletedCount(s.tables, f, c);
    assert c in Covered(s'.queues.changesets);
    TouchedByMore(s'.tables, f, {c}, Covered(s'.queues.changesets));
    DrainClosesExactly(s', jobs, f);
  }

  lemma TouchedByMore(t: Tables, f: Id, some: set<Id>, more: set<Id>)
    requires Touched(t, f, some) && some <= more
    ensures Touched(t, f, more)
  {
  }

  /******* Syncs and files *******/

  /** A sync is refused for its id, or when full for a full one of its layer and geometry; else it is stored. */
  lemma {:induction false} SyncCreatedExactly(t: Tables, id: Id, row: Sync)
    ensures var clash := row.details.isFull
                         && (exists x :: x in t.syncs && t.syncs[x].details.isFull
                                         && t.syncs[x].details.layerId == row.details.layerId
                                         && t.syncs[x].details.geometry == row.details.geometry);
            CreateSync(t, id, row) == if id in t.syncs then Err(SyncAlreadyExists)
                                      else if clash then Err(FullSyncAlreadyExists)
                                      else Ok(t.(syncs := t.syncs[id := row]))
  {
    if x :| x in t.syncs && t.syncs[x].details.isFull && t.syncs[x].details.layerId == row.details.layerId
            && t.syncs[x].details.geometry == row.details.geometry {
      assert SameLayer(t.syncs[x].details, row.details);
    }
  }

  /** Each given property of a patch is stored, each missing one stays, and base, run number and other syncs too. */
  lemma {:induction false} SyncPatchStores(t: Tables, id: Id, patch: SyncPatch)
    ensures UpdateSync(t, id, patch).Ok? <==> id in t.syncs
    ensures id in t.syncs ==>
              var t', row := UpdateSync(t, id, patch).value, t.syncs[id];
              && id in t'.syncs && t' == t.(syncs := t.syncs[id := t'.syncs[id]])
              && var row' := t'.syncs[id];
                 && Follows(patch.status, row.status, row'.status)
                 && Follows(patch.totalFiles, row.totalFiles, row'.totalFiles)
                 && Follows(patch.layerId, row.details.layerId, row'.details.layerId)
                 && Follows(patch.geometry, row.details.geometry, row'.details.geometry)
                 && row'.details.isFull == row.details.isFull
                 && row'.baseSyncId == row.baseSyncId && row'.runNumber == row.runNumber
  {
  }

  /** A file posted on a rerun goes to the base, and an equal one there is left; any other existing file is refused. */
  lemma {:induction false} FileCreatedExactly(t: Tables, syncId: Id, file: NewFile)
    requires syncId in t.syncs
    ensures var owner := if t.syncs[syncId].baseSyncId.Some? then t.syncs[syncId].baseSyncId.value else syncId;
            var row := File(owner, file.status, file.totalEntities);
            var same := t.syncs[syncId].baseSyncId.Some? && file.fileId in t.files
                        && t.files[file.fileId].syncId == owner
                        && t.files[file.fileId].totalEntities == file.totalEntities;
            match CreateFile(t, syncId, file)
            case Ok(t') =>
              && (same ==> t' == t)
              && (!same ==> file.fileId !in t.files && t' == t.(files := t.files[file.fileId := row]))
            case Err(e) =>
              && file.fileId in t.files && !same
              && e == (if t.syncs[syncId].baseSyncId.None? then FileAlreadyExists else ConflictingRerunFile)
  {
  }

  ghost predicate DistinctFiles(added: seq<NewFile>) {
    forall i, j | 0 <= i < j < |added| :: added[i].fileId != added[j].fileId
  }

  /** Bulk creation stores every requested file with its own row and nothing else, or is refused for one reason. */
  lemma {:induction false} FilesCreatedExactly(t: Tables, syncId: Id, added: seq<NewFile>)
    ensures match CreateFiles(t, syncId, added)
            case Ok(t') =>
              && syncId in t.syncs && DistinctFiles(added) && t' == t.(files := t'.files)
              && (forall f | f in t.files :: f in t'.files && t'.files[f] == t.files[f])
              && (forall i | 0 <= i < |added| ::
                    && added[i].fileId !in t.files && added[i].fileId in t'.files
                    && t'.files[added[i].fileId] == File(syncId, added[i].status, added[i].totalEntities))
              && (forall f | f in t'.files && f !in t.files :: exists i | 0 <= i < |added| :: added[i].fileId == f)
            case Err(e) =>
              if !DistinctFiles(added) then e == DuplicateFiles
              else if syncId !in t.syncs then e == SyncNotFound
              else e == FileAlreadyExists && exists i | 0 <= i < |added| :: added[i].fileId in t.files
  {
    assert forall i | 0 <= i < |added| :: FileIds(added)[i] == added[i].fileId;
    if NoDuplicates(FileIds(added)) {
      forall i, j | 0 <= i < j < |added|
        ensures added[i].fileId != added[j].fileId
      {
        assert FileIds(added)[i] != FileIds(added)[j];
      }
    }
    if CreateFiles(t, syncId, added).Ok? {
      InsertFilesEffect(t.files, syncId, added);
    }
  }

  /** A file patch stores a given total and changes nothing else. */
  lemma {:induction false} FilePatchStores(t: Tables, syncId: Id, fileId: Id, total: Field<Option<int>>)
    ensures match UpdateFile(t, syncId, fileId, total)
            case Ok(t') =>
              && syncId in t.syncs && fileId in t.files && fileId in t'.files
              && t' == t.(files := t.files[fileId := t'.files[fileId]])
              && Follows(total, t.files[fileId].totalEntities, t'.files[fileId].totalEntities)
              && t'.files[fileId].syncId == t.files[fileId].syncId && t'.files[fileId].status == t.files[fileId].status
            case Err(e) => e == if syncId !in t.syncs then SyncNotFound else FileNotFound
  {
  }

  /******* Entities *******/

  ghost predicate DistinctEntities(requests: seq<NewEntity>) {
    forall i, j | 0 <= i < j < |requests| :: requests[i].entityId != requests[j].entityId
  }

  /** A bulk creation is accepted for distinct ids, when the file's sync has a rerun or no requested entity exists. */
  lemma {:induction false} BulkAcceptedExactly(t: Tables, fileId: Id, requests: seq<NewEntity>)
    ensures match CreateEntities(t, fileId, requests)
            case Ok(_) =>
              && fileId in t.files && DistinctEntities(requests)
              && ((exists x :: x in t.syncs && t.syncs[x].baseSyncId == Some(t.files[fileId].syncId))
                  || forall i | 0 <= i < |requests| :: EntityKey(requests[i].entityId, fileId) !in t.entities)
            case Err(e) =>
              if fileId !in t.files then e == FileNotFound
              else if !DistinctEntities(requests) then e == DuplicateEntity
              else
                && e == EntityAlreadyExists
                && (forall x | x in t.syncs :: t.syncs[x].baseSyncId != Some(t.files[fileId].syncId))
                && exists i | 0 <= i < |requests| :: EntityKey(requests[i].entityId, fileId) in t.entities
  {
    var ids := EntityIds(requests);
    assert forall i | 0 <= i < |requests| :: ids[i] == requests[i].entityId;
    if NoDuplicates(ids) {
      forall i, j | 0 <= i < j < |requests|
        ensures requests[i].entityId != requests[j].entityId
      {
        assert ids[i] != ids[j];
      }
    }
  }

  /** A non-empty bulk update is accepted exactly for distinct ids of which every row exists. */
  lemma {:induction false} UpdateAcceptedExactly(t: Tables, writes: seq<EntityWrite>, emptyCount: nat)
    requires writes != []
    ensures var distinct := forall i, j | 0 <= i < j < |writes| :: writes[i].key.entityId != writes[j].key.entityId;
            match UpdateEntities(t, writes, emptyCount)
            case Ok(_) => distinct && forall i | 0 <= i < |writes| :: writes[i].key in t.entities
            case Err(e) =>
              if distinct then e == EntityNotFound && exists i | 0 <= i < |writes| :: writes[i].key !in t.entities
              else e == DuplicateEntity
  {
    var ids := KeyedIds(writes);
    assert forall i | 0 <= i < |writes| :: ids[i] == writes[i].key.entityId;
    if NoDuplicates(ids) {
      forall i, j | 0 <= i < j < |writes|
        ensures writes[i].key.entityId != writes[j].key.entityId
      {
        assert ids[i] != ids[j];
      }
      CountGuardIsExact(t, writes, emptyCount);
    }
  }

  lemma EventKeepsBase(s: State, ev: Event, x: Id)
    requires x in s.tables.syncs
    ensures x in Next(s, ev).tables.syncs
    ensures Next(s, ev).tables.syncs[x].baseSyncId == s.tables.syncs[x].baseSyncId
  {
    if !ev.PatchSync? {
      OthersKeepDetails(s, ev);
    }
  }

  /** No event takes a sync away or changes its base. */
  lemma {:induction false} RunKeepsBase(s: State, evs: seq<Event>, x: Id)
    requires x in s.tables.syncs
    ensures x in Run(s, evs).tables.syncs
    ensures Run(s, evs).tables.syncs[x].baseSyncId == s.tables.syncs[x].baseSyncId
    decreases |evs|
  {
    if evs != [] {
      EventKeepsBase(s, evs[0], x);
      RunKeepsBase(Next(s, evs[0]), evs[1..], x);
    }
  }

  /** Once a base has a rerun, every bulk creation of distinct ids on its files is accepted, in every later state. */
  lemma {:induction false} RerunAcceptsBulk(
    s: State, rerun: Event, later: seq<Event>, t': Tables, fileId: Id, requests: seq<NewEntity>)
    requires Inv(s.tables) && rerun.Rerun? && Admitted(s, rerun)
    requires RerunSyncIfNeeded(s.tables, rerun.base, rerun.rerunId, rerun.notSynced, rerun.last, rerun.latest)
             == Ok(RerunOutcome(t', true))
    requires var t := Run(Next(s, rerun), later).tables;
             fileId in t.files && t.files[fileId].syncId == rerun.base
    requires forall i, j | 0 <= i < j < |requests| :: requests[i].entityId != requests[j].entityId
    ensures CreateEntities(Run(Next(s, rerun), later).tables, fileId, requests).Ok?
  {
    CreatedRerun(s.tables, rerun.base, rerun.rerunId, rerun.notSynced, rerun.last, rerun.latest, t');
    RunKeepsBase(Next(s, rerun), later, rerun.rerunId);
    BulkAcceptedExactly(Run(Next(s, rerun), later).tables, fileId, requests);
  }

  /** Field by field, what an accepted creation or update of one entity stores. */
  lemma {:induction false} EntityStored(t: Tables, w: EntityWrite)
    ensures CreateEntity(t, w).Ok? <==> w.key.fileId in t.files && w.key !in t.entities
    ensures UpdateEntity(t, w).Ok? <==> w.key.fileId in t.files && w.key in t.entities
    ensures CreateEntity(t, w).Err? ==>
              CreateEntity(t, w).error == if w.key.fileId in t.files then EntityAlreadyExists else FileNotFound
    ensures UpdateEntity(t, w).Err? ==>
              UpdateEntity(t, w).error == if w.key.fileId in t.files then EntityNotFound else FileNotFound
    ensures forall t' | CreateEntity(t, w) == Ok(t') || UpdateEntity(t, w) == Ok(t') ::
              && w.key in t'.entities && t' == t.(entities := t.entities[w.key := t'.entities[w.key]])
              && AsRequested(t.entities, w, t'.entities[w.key])
  {
    SavedAsRequested(t.entities, w);
  }

  /******* Queues *******/

  function Duplicates(job: Job): nat {
    if Deduplication in job.counters then job.counters[Deduplication] else 0
  }

  function CountId(jobs: seq<Job>, id: Id): nat {
    if jobs == [] then 0 else (if jobs[0].id == id then 1 else 0) + CountId(jobs[1..], id)
  }

  /** A waiting job keeps its data, and each push of its id counts one duplicate. */
  lemma {:induction false} DuplicatesAreCounted(q: Waiting, jobs: seq<Job>, id: Id)
    requires id in q
    ensures id in EnqueueSeq(q, jobs)
    ensures var job, job' := q[id], EnqueueSeq(q, jobs)[id];
            && job'.id == job.id && job'.kind == job.kind && job'.batchIds == job.batchIds
            && Duplicates(job') == Duplicates(job) + CountId(jobs, id)
    decreases |jobs|
  {
    if jobs != [] {
      DuplicatesAreCounted(Enqueue(q, jobs[0]), jobs[1..], id);
    }
  }

  /** Of pushed jobs with one new id the first is stored, and each later one counts a duplicate. */
  lemma {:induction false} FirstIsStored(q: Waiting, jobs: seq<Job>, i: nat)
    requires i < |jobs| && jobs[i].id !in q && forall j | 0 <= j < i :: jobs[j].id != jobs[i].id
    ensures var id := jobs[i].id;
            && id in EnqueueSeq(q, jobs)
            && var job := EnqueueSeq(q, jobs)[id];
               && job.id == id && job.kind == jobs[i].kind && job.batchIds == jobs[i].batchIds
               && Duplicates(job) == Duplicates(jobs[i]) + CountId(jobs[i + 1..], id)
    decreases |jobs|
  {
    if i == 0 {
      DuplicatesAreCounted(Enqueue(q, jobs[0]), jobs[1..], jobs[0].id);
    } else {
      assert jobs[1..][i - 1] == jobs[i] && jobs[1..][i..] == jobs[i + 1..];
      forall j | 0 <= j < i - 1
        ensures jobs[1..][j].id != jobs[i].id
      {
        assert jobs[1..][j] == jobs[j + 1];
      }
      FirstIsStored(Enqueue(q, jobs[0]), jobs[1..], i - 1);
    }
  }

  /** A batch carries the data of the first job, and its ids in order under the digest of their joined text. */
  lemma {:induction false} BatchesCarry(jobs: seq<Job>, c: Config, n: nat)
    requires TotalPreorder(c.leq) && c.batching && 1 <= c.maxBatch && |jobs| > 1
    requires n < |Chunks(JobIds(jobs), c.maxBatch)|
    ensures n < |PushedJobs(jobs, c)|
    ensures var batch, slice := PushedJobs(jobs, c)[n], Chunks(JobIds(jobs), c.maxBatch)[n];
            && batch.kind == jobs[0].kind && batch.counters == jobs[0].counters && batch.batchIds.Some?
            && InOrder(batch.batchIds.value, c.leq) && multiset(batch.batchIds.value) == multiset(slice)
            && batch.id == c.digest(Join(batch.batchIds.value))
  {
    SortedSorts(Chunks(JobIds(jobs), c.maxBatch)[n], c.leq);
  }
}
