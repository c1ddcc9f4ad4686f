/** Runs that meet the hypotheses on clients and still break what a reader may expect. */
module CounterRuns {
  import opened Types
  import opened Statements
  import opened Requests
  import opened Queue
  import opened Protocol
  import opened Invariant
  import opened Reachable
  import opened NoLoss
  import opened RerunSteps
  import opened ClientSteps

  const DETAILS := Details(1, Geometry.Polygon, false, Some(map[]))

  const NO_JOBS := Queues(map[], map[], map[])

  /******* Steps without totals *******/

  ghost predicate NoTotals(t: Tables) {
    && (forall x | x in t.syncs :: t.syncs[x].totalFiles == None)
    && (forall f | f in t.files :: t.files[f].totalEntities == None)
  }

  /** A step that leaves the queues alone. */
  lemma Step(t: Tables, ev: Event, t': Tables)
    requires Reached(State(t, NO_JOBS)) && Admitted(State(t, NO_JOBS), ev)
    requires Next(State(t, NO_JOBS), ev) == State(t', NO_JOBS)
    ensures Reached(State(t', NO_JOBS))
  {
    NextIsReached(State(t, NO_JOBS), ev);
  }

  lemma RerunStep(t: Tables, b: Id, r: Id, t': Tables)
    requires Reached(State(t, NO_JOBS)) && IsLastRerun(t.syncs, b, None)
    requires RerunSyncIfNeeded(t, b, r, false, None, None) == Ok(RerunOutcome(t', true))
    ensures Reached(State(t', NO_JOBS))
  {
    NextIsReached(State(t, NO_JOBS), Rerun(b, r, false, None, None));
  }

  function SetStatus(status: Status): SyncPatch {
    SyncPatch(Given(status), Absent, Absent, Absent, None)
  }

  function SetTotal(total: int): SyncPatch {
    SyncPatch(Absent, Given(Some(total)), Absent, Absent, None)
  }

  function NewRow(status: Status, total: Option<int>): Sync {
    Sync(status, total, None, 0, DETAILS)
  }

  function RerunOf(b: Id, status: Status, total: Option<int>): Sync {
    Sync(status, total, Some(b), 1, DETAILS)
  }

  lemma PatchedRow(t: Tables, id: Id, patch: SyncPatch)
    requires id in t.syncs && t.syncs[id].details == DETAILS
    requires patch == SyncPatch(patch.status, patch.totalFiles, Absent, Absent, None)
    ensures UpdateSync(t, id, patch) == Ok(t.(syncs := t.syncs[id := t.syncs[id].(
              status := Choose(patch.status, t.syncs[id].status),
              totalFiles := Choose(patch.totalFiles, t.syncs[id].totalFiles))]))
  {
    assert PatchDetails(DETAILS, patch) == DETAILS;
  }

  lemma SyncFails(t: Tables, x: Id)
    requires Reached(State(t, NO_JOBS)) && NoTotals(t)
    requires x in t.syncs && t.syncs[x].status == Status.InProgress && t.syncs[x].details == DETAILS
    ensures Reached(State(t.(syncs := t.syncs[x := t.syncs[x].(status := Status.Failed)]), NO_JOBS))
  {
    PatchedRow(t, x, SetStatus(Status.Failed));
    Step(t, PatchSync(x, SetStatus(Status.Failed)), t.(syncs := t.syncs[x := t.syncs[x].(status := Status.Failed)]));
  }

  function Fields(status: EntityStatus, reason: Option<string>): EntityFields {
    EntityFields(Given(status), Absent, Absent, Given(reason))
  }

  lemma EntityArrives(t: Tables, k: EntityKey, status: EntityStatus, reason: Option<string>)
    requires Reached(State(t, NO_JOBS)) && NoTotals(t) && k.fileId in t.files && k !in t.entities
    ensures Reached(State(t.(entities := t.entities[k := Entity(status, None, None, reason)]), NO_JOBS))
  {
    Step(t, PostEntity(EntityWrite(k, Fields(status, reason))),
         t.(entities := t.entities[k := Entity(status, None, None, reason)]));
  }

  lemma FileArrives(t: Tables, b: Id, f: Id)
    requires Reached(State(t, NO_JOBS)) && NoTotals(t) && f !in t.files
    requires b in t.syncs && t.syncs[b].baseSyncId == None
    ensures Reached(State(t.(files := t.files[f := File(b, Status.InProgress, None)]), NO_JOBS))
  {
    Step(t, PostFile(b, NewFile(f, Status.InProgress, None)),
         t.(files := t.files[f := File(b, Status.InProgress, None)]));
  }

  /******* A first run and its rerun *******/

  function Done(): Entity {
    Entity(EntityStatus.Completed, None, None, None)
  }

  function FailedBase(b: Id): Tables {
    Tables(map[b := NewRow(Status.Failed, None)], map[], map[], map[])
  }

  lemma BaseFails(b: Id)
    ensures Reached(State(FailedBase(b), NO_JOBS))
  {
    EmptyIsReached();
    var posted := Tables(map[b := NewRow(Status.InProgress, None)], map[], map[], map[]);
    Step(EMPTY.tables, PostSync(b, NewRow(Status.InProgress, None)), posted);
    SyncFails(posted, b);
    assert posted.syncs[b := NewRow(Status.Failed, None)] == FailedBase(b).syncs;
  }

  /** The base has failed with one completed entity. */
  function FirstRun(b: Id, e: Id, f: Id): Tables {
    Tables(map[b := NewRow(Status.Failed, None)], map[f := File(b, Status.InProgress, None)],
           map[EntityKey(e, f) := Done()], map[])
  }

  lemma FirstRunFails(b: Id, e: Id, f: Id)
    ensures Reached(State(FirstRun(b, e, f), NO_JOBS))
  {
    BaseFails(b);
    FileArrives(FailedBase(b), b, f);
    EntityArrives(FailedBase(b).(files := map[f := File(b, Status.InProgress, None)]), EntityKey(e, f),
                  EntityStatus.Completed, None);
  }

  /** The rerun has recorded it. */
  function FirstRerun(b: Id, r: Id, e: Id, f: Id, status: Status): Tables {
    Tables(map[b := NewRow(Status.Failed, None), r := RerunOf(b, status, None)],
           map[f := File(b, Status.InProgress, None)], map[EntityKey(e, f) := Done()],
           map[HistoryKey(b, e, f) := Snapshot(None, Done())])
  }

  lemma FirstRerunTables(t: Tables, b: Id, r: Id, e: Id, f: Id)
    requires t == FirstRun(b, e, f) && b != r
    requires CreateEntityHistory(t, b, b).Ok? && DeleteEmptyFiles(t, b) == t
    ensures RerunTables(t, b, None, r, false) == FirstRerun(b, r, e, f, Status.InProgress)
  {
    PreparedRows(t, b, b, false);
    FirstRecord(t, b, e, f);
    var t' := Prepared(t, b, b, false);
    assert t'.files == t.files;
    assert t'.entities == t.entities;
  }

  lemma FirstRerunStarts(b: Id, r: Id, e: Id, f: Id)
    requires b != r
    ensures Reached(State(FirstRerun(b, r, e, f, Status.InProgress), NO_JOBS))
  {
    var t := FirstRun(b, e, f);
    FirstRunFails(b, e, f);
    FirstRunReady(b, e, f);
    RerunIsCreated(t, b, r, false, None);
    assert CreateEntityHistory(t, b, b).Ok? by { HistoryKeyIsFree(t, b, None); }
    FirstRerunTables(t, b, r, e, f);
    RerunStep(t, b, r, FirstRerun(b, r, e, f, Status.InProgress));
  }

  lemma FirstRunReady(b: Id, e: Id, f: Id)
    requires Reached(State(FirstRun(b, e, f), NO_JOBS))
    ensures var t := FirstRun(b, e, f); Inv(t) && Ready(t.syncs, b, None) && EmptyFiles(t, b) == {}
  {
    ReachedHasInv(State(FirstRun(b, e, f), NO_JOBS));
    assert EntityKey(e, f) in EntitiesOf(FirstRun(b, e, f).entities, f);
  }

  lemma FirstRecord(t: Tables, b: Id, e: Id, f: Id)
    requires t == FirstRun(b, e, f)
    ensures HistoryRows(t, b, b) == map[HistoryKey(b, e, f) := Snapshot(None, Done())]
  {
    assert ForHistory(t, b, EntityKey(e, f));
    assert HistoryRows(t, b, b).Keys == {HistoryKey(b, e, f)};
  }

  /******* A rerun that wipes an outcome without recording it *******/

  function OneRerun(b: Id, r: Id): map<Id, Sync> {
    map[b := NewRow(Status.Failed, None), r := RerunOf(b, Status.Failed, None)]
  }

  /** Two files of one base hold an entity of the same id: one recorded as completed, the other still failing. */
  function SharedId(b: Id, r: Id, e: Id, f: Id, g: Id, reason: string): Tables {
    var file := File(b, Status.InProgress, None);
    Tables(OneRerun(b, r), map[f := file, g := file],
           map[EntityKey(e, f) := Done(), EntityKey(e, g) := Entity(EntityStatus.Failed, None, None, Some(reason))],
           map[HistoryKey(b, e, f) := Snapshot(None, Done())])
  }

  /** With one entity id, recorded as completed once, there is nothing more to record. */
  lemma NothingToRecord(t: Tables, b: Id, r: Id, e: Id, f: Id)
    requires HistoryKey(b, e, f) in t.history && t.history[HistoryKey(b, e, f)] == Snapshot(None, Done())
    requires forall k | k in t.entities :: k.entityId == e
    ensures HistoryRows(t, b, r) == map[] && t.history + HistoryRows(t, b, r) == t.history
  {
    assert CompletedBefore(t, b, e);
    assert HistoryRows(t, b, r) == map[];
  }

  lemma UnrecordedWipe(t: Tables, b: Id, r: Id, id: Id, notSynced: bool, e: Id, f: Id, k: EntityKey)
    requires Inv(t) && Ready(t.syncs, b, Some(r)) && id !in t.syncs && EmptyFiles(t, b) == {}
    requires HistoryKey(b, e, f) in t.history && t.history[HistoryKey(b, e, f)] == Snapshot(None, Done())
    requires forall j | j in t.entities :: j.entityId == e
    requires Under(t, b, k) && Resettable(t.entities[k].status, notSynced)
    ensures var t' := RerunTables(t, b, Some(r), id, notSynced);
            && RerunSyncIfNeeded(t, b, id, notSynced, Some(r), Some(r)) == Ok(RerunOutcome(t', true))
            && k in t'.entities && t'.entities[k] == RESET_ROW
            && t'.history == t.history
  {
    RerunIsCreated(t, b, id, notSynced, Some(r));
    HistoryKeyIsFree(t, b, Some(r));
    CreatedRerunEffect(t, b, id, notSynced, Some(r));
    NothingToRecord(t, b, r, e, f);
  }

  lemma SharedRows(b: Id, r: Id, e: Id, f: Id, g: Id, reason: string)
    requires b != r && f != g
    ensures var t0, t := FirstRerun(b, r, e, f, Status.InProgress), SharedId(b, r, e, f, g, reason);
            && t0.files[g := File(b, Status.InProgress, None)] == t.files
            && t0.entities[EntityKey(e, g) := Entity(EntityStatus.Failed, None, None, Some(reason))] == t.entities
            && t0.syncs[r := t0.syncs[r].(status := Status.Failed)] == t.syncs && t0.history == t.history
  {
  }

  lemma SharedIdIsReached(b: Id, r: Id, e: Id, f: Id, g: Id, reason: string)
    requires b != r && f != g
    ensures Reached(State(SharedId(b, r, e, f, g, reason), NO_JOBS))
  {
    FirstRerunStarts(b, r, e, f);
    var t0 := FirstRerun(b, r, e, f, Status.InProgress);
    FileArrives(t0, b, g);
    var t1 := t0.(files := t0.files[g := File(b, Status.InProgress, None)]);
    EntityArrives(t1, EntityKey(e, g), EntityStatus.Failed, Some(reason));
    var t2 := t1.(entities := t1.entities[EntityKey(e, g) := Entity(EntityStatus.Failed, None, None, Some(reason))]);
    SyncFails(t2, r);
    SharedRows(b, r, e, f, g, reason);
  }

  /** The second rerun wipes the failed entity, and its reason is recorded nowhere. */
  lemma {:induction false} SharedIdLosesOutcome(b: Id, r: Id, id: Id, e: Id, f: Id, g: Id, reason: string)
    requires b != r && id != b && id != r && f != g
    ensures var t := SharedId(b, r, e, f, g, reason);
            var t' := RerunTables(t, b, Some(r), id, false);
            && Reached(State(t, NO_JOBS)) && RecordedStays(t) && IsLastRerun(t.syncs, b, Some(r))
            && RerunSyncIfNeeded(t, b, id, false, Some(r), Some(r)) == Ok(RerunOutcome(t', true))
            && EntityKey(e, g) in t'.entities && t'.entities[EntityKey(e, g)] == RESET_ROW
            && t'.history == t.history
  {
    var t := SharedId(b, r, e, f, g, reason);
    SharedIdIsReached(b, r, e, f, g, reason);
    ReachedHasInv(State(t, NO_JOBS));
    assert EntityKey(e, f) in EntitiesOf(t.entities, f) && EntityKey(e, g) in EntitiesOf(t.entities, g);
    assert EmptyFiles(t, b) == {};
    UnrecordedWipe(t, b, r, id, false, e, f, EntityKey(e, g));
  }

  /** An entity recorded as completed that a patch took back to not synced. */
  function Demoted(b: Id, r: Id, e: Id, f: Id, reason: string): Tables {
    Tables(OneRerun(b, r), map[f := File(b, Status.InProgress, None)],
           map[EntityKey(e, f) := Entity(EntityStatus.NotSynced, None, None, Some(reason))],
           map[HistoryKey(b, e, f) := Snapshot(None, Done())])
  }

  lemma EntityIsDemoted(t: Tables, k: EntityKey, reason: string)
    requires Reached(State(t, NO_JOBS)) && NoTotals(t) && k.fileId in t.files
    requires k in t.entities && t.entities[k] == Done()
    ensures var demoted := Entity(EntityStatus.NotSynced, None, None, Some(reason));
            Reached(State(t.(entities := t.entities[k := demoted]), NO_JOBS))
  {
    var demoted := Entity(EntityStatus.NotSynced, None, None, Some(reason));
    Step(t, PatchEntity(EntityWrite(k, Fields(EntityStatus.NotSynced, Some(reason)))),
         t.(entities := t.entities[k := demoted]));
  }

  /** The patch meets the hypotheses on patches, and entity ids are unique. */
  lemma {:induction false} DemotionReopensNothing(b: Id, r: Id, e: Id, f: Id, reason: string)
    requires b != r
    ensures Reached(State(Demoted(b, r, e, f, reason), NO_JOBS)) && UniqueEntityIds(Demoted(b, r, e, f, reason), b)
  {
    FirstRerunStarts(b, r, e, f);
    EntityIsDemoted(FirstRerun(b, r, e, f, Status.InProgress), EntityKey(e, f), reason);
    DemotedRerunFails(b, r, e, f, reason);
  }

  lemma DemotedRerunFails(b: Id, r: Id, e: Id, f: Id, reason: string)
    requires b != r
    requires var t0 := FirstRerun(b, r, e, f, Status.InProgress);
             var demoted := Entity(EntityStatus.NotSynced, None, None, Some(reason));
             Reached(State(t0.(entities := t0.entities[EntityKey(e, f) := demoted]), NO_JOBS))
    ensures Reached(State(Demoted(b, r, e, f, reason), NO_JOBS))
  {
    DemotedRows(b, r, e, f, reason);
    SyncFails(FirstRerun(b, r, e, f, Status.InProgress).(entities := Demoted(b, r, e, f, reason).entities), r);
  }

  lemma DemotedRows(b: Id, r: Id, e: Id, f: Id, reason: string)
    requires b != r
    ensures var t0, t := FirstRerun(b, r, e, f, Status.InProgress), Demoted(b, r, e, f, reason);
            && t0.entities[EntityKey(e, f) := Entity(EntityStatus.NotSynced, None, None, Some(reason))] == t.entities
            && t0.syncs[r := t0.syncs[r].(status := Status.Failed)] == t.syncs
            && t0.files == t.files && t0.history == t.history
  {
  }

  /** Still the next rerun of not synced entities wipes the reason and records it nowhere. */
  lemma {:induction false} DemotedEntityLosesOutcome(b: Id, r: Id, id: Id, e: Id, f: Id, reason: string)
    requires b != r && id != b && id != r
    ensures var t := Demoted(b, r, e, f, reason);
            var t' := RerunTables(t, b, Some(r), id, true);
            && Reached(State(t, NO_JOBS)) && IsLastRerun(t.syncs, b, Some(r))
            && RerunSyncIfNeeded(t, b, id, true, Some(r), Some(r)) == Ok(RerunOutcome(t', true))
            && EntityKey(e, f) in t'.entities && t'.entities[EntityKey(e, f)] == RESET_ROW
            && t'.history == t.history
  {
    var t := Demoted(b, r, e, f, reason);
    DemotionReopensNothing(b, r, e, f, reason);
    ReachedHasInv(State(t, NO_JOBS));
    assert EntityKey(e, f) in EntitiesOf(t.entities, f);
    assert EmptyFiles(t, b) == {};
    UnrecordedWipe(t, b, r, id, true, e, f, EntityKey(e, f));
  }

  /******* A completed base with a rerun in progress *******/

  function Unfinished(b: Id, r: Id, total: Option<int>, rerunTotal: Option<int>): map<Id, Sync> {
    map[b := NewRow(Status.Failed, total), r := RerunOf(b, Status.InProgress, rerunTotal)]
  }

  /** One completed file, totals set late, and the base's sync job waiting. */
  function OneClosedFile(b: Id, f: Id, syncs: map<Id, Sync>): State {
    State(Tables(syncs, map[f := File(b, Status.Completed, Some(0))], map[], map[]),
          Queues(map[], map[], map[b := SingleJob(b, SyncKind)]))
  }

  /** Without files there is nothing to prepare. */
  lemma NothingToPrepare(t: Tables, b: Id)
    requires t.files == map[] && t.entities == map[] && t.history == map[]
    ensures DeleteEmptyFiles(t, b) == t && CreateEntityHistory(t, b, b).Ok? && Prepared(t, b, b, false) == t
  {
    assert HistoryRows(t, b, b) == map[];
    PreparedRows(t, b, b, false);
  }

  lemma RerunWithoutFiles(t: Tables, b: Id, r: Id)
    requires t == FailedBase(b) && b != r && Inv(t)
    ensures RerunSyncIfNeeded(t, b, r, false, None, None)
            == Ok(RerunOutcome(t.(syncs := Unfinished(b, r, None, None)), true))
  {
    assert EmptyFiles(t, b) == {};
    assert Ready(t.syncs, b, None);
    RerunIsCreated(t, b, r, false, None);
    assert RerunTables(t, b, None, r, false) == t.(syncs := Unfinished(b, r, None, None)) by {
      NothingToPrepare(t, b);
    }
  }

  lemma UnfinishedStarts(b: Id, r: Id)
    requires b != r
    ensures Reached(State(FailedBase(b).(syncs := Unfinished(b, r, None, None)), NO_JOBS))
  {
    BaseFails(b);
    RerunAfter(b, r);
  }

  lemma RerunAfter(b: Id, r: Id)
    requires b != r && Reached(State(FailedBase(b), NO_JOBS))
    ensures Reached(State(FailedBase(b).(syncs := Unfinished(b, r, None, None)), NO_JOBS))
  {
    var t := FailedBase(b);
    assert RerunSyncIfNeeded(t, b, r, false, None, None)
           == Ok(RerunOutcome(t.(syncs := Unfinished(b, r, None, None)), true)) by {
      ReachedHasInv(State(t, NO_JOBS));
      RerunWithoutFiles(t, b, r);
    }
    RerunStep(t, b, r, t.(syncs := Unfinished(b, r, None, None)));
  }

  /** The file is in progress with a total of zero, and its job may wait. */
  function OneFile(b: Id, f: Id, syncs: map<Id, Sync>, jobs: Waiting): State {
    State(Tables(syncs, map[f := File(b, Status.InProgress, Some(0))], map[], map[]), Queues(map[], jobs, map[]))
  }

  lemma FilePosted(b: Id, r: Id, f: Id)
    requires b != r
    ensures Reached(OneFile(b, f, Unfinished(b, r, None, None), map[]))
  {
    UnfinishedStarts(b, r);
    var t := FailedBase(b).(syncs := Unfinished(b, r, None, None));
    var t' := OneFile(b, f, Unfinished(b, r, None, None), map[]).tables;
    assert EntitiesOf(t'.entities, f) == {};
    Step(t, PostFile(b, NewFile(f, Status.InProgress, Some(0))), t');
  }

  lemma FileQueued(b: Id, f: Id, syncs: map<Id, Sync>)
    requires Reached(OneFile(b, f, syncs, map[]))
    ensures Reached(OneFile(b, f, syncs, map[f := SingleJob(f, FileKind)]))
  {
    var job := SingleJob(f, FileKind);
    assert [job][1..] == [];
    assert EnqueueSeq(Enqueue(map[], job), []) == Enqueue(map[], job) == map[f := job];
    NextIsReached(OneFile(b, f, syncs, map[]), PushFiles([job]));
  }

  lemma FileCloses(b: Id, f: Id, syncs: map<Id, Sync>)
    requires Reached(OneFile(b, f, syncs, map[f := SingleJob(f, FileKind)]))
    ensures Reached(OneClosedFile(b, f, syncs))
  {
    FileIsClosed(b, f, syncs);
    NextIsReached(OneFile(b, f, syncs, map[f := SingleJob(f, FileKind)]), Process(FileJob(f)));
  }

  lemma FileIsClosed(b: Id, f: Id, syncs: map<Id, Sync>)
    ensures Next(OneFile(b, f, syncs, map[f := SingleJob(f, FileKind)]), Process(FileJob(f)))
            == OneClosedFile(b, f, syncs)
  {
    var s := OneFile(b, f, syncs, map[f := SingleJob(f, FileKind)]);
    assert ClosedOf(s.tables.entities, f) == {};
    assert s.queues.files - {f} == map[];
    assert Next(s, Process(FileJob(f))) == FileStep(s, f);
  }

  lemma TotalsWithin(b: Id, r: Id, f: Id, syncs: map<Id, Sync>)
    requires b != r && syncs.Keys == {b, r} && syncs[b].baseSyncId == None && syncs[r].baseSyncId == Some(b)
    requires forall x | x in syncs && syncs[x].totalFiles.Some? :: 1 <= syncs[x].totalFiles.value
    ensures FileCapacity(OneClosedFile(b, f, syncs).tables) && SyncCapacity(OneClosedFile(b, f, syncs).tables)
  {
    var t := OneClosedFile(b, f, syncs).tables;
    assert EntitiesOf(t.entities, f) == {};
    assert FilesOf(t.files, b) == {f};
  }

  lemma LateTotal(b: Id, r: Id, f: Id, syncs: map<Id, Sync>, x: Id, total: int, syncs': map<Id, Sync>)
    requires b != r && syncs.Keys == {b, r} && syncs[b].baseSyncId == None && syncs[r].baseSyncId == Some(b)
    requires forall y | y in syncs && syncs[y].totalFiles.Some? :: 1 <= syncs[y].totalFiles.value
    requires Reached(OneClosedFile(b, f, syncs)) && x in syncs && syncs[x].totalFiles == None && 1 <= total
    requires syncs[x].details == DETAILS && syncs' == syncs[x := syncs[x].(totalFiles := Some(total))]
    ensures Reached(OneClosedFile(b, f, syncs'))
  {
    var s := OneClosedFile(b, f, syncs);
    PatchedRow(s.tables, x, SetTotal(total));
    TotalsWithin(b, r, f, syncs');
    NextIsReached(s, PatchSync(x, SetTotal(total)));
  }

  lemma RerunTotalArrives(b: Id, r: Id, f: Id)
    requires b != r && Reached(OneClosedFile(b, f, Unfinished(b, r, None, None)))
    ensures Reached(OneClosedFile(b, f, Unfinished(b, r, None, Some(2))))
  {
    LateTotal(b, r, f, Unfinished(b, r, None, None), r, 2, Unfinished(b, r, None, Some(2)));
  }

  lemma BaseTotalArrives(b: Id, r: Id, f: Id)
    requires b != r && Reached(OneClosedFile(b, f, Unfinished(b, r, None, Some(2))))
    ensures Reached(OneClosedFile(b, f, Unfinished(b, r, Some(1), Some(2))))
  {
    LateTotal(b, r, f, Unfinished(b, r, None, Some(2)), b, 1, Unfinished(b, r, Some(1), Some(2)));
  }

  /** Totals patched after the rerun took its copy: base 1, rerun 2, one completed file. */
  lemma {:induction false} PatchedRerunStaysOpen(b: Id, r: Id, f: Id) returns (s: State)
    requires b != r
    ensures Reached(s) && b in s.tables.syncs && r in s.tables.syncs && s.queues == NO_JOBS
    ensures s.tables.syncs[b] == NewRow(Status.Completed, Some(1))
    ensures s.tables.syncs[r] == RerunOf(b, Status.InProgress, Some(2))
  {
    var syncs := Unfinished(b, r, None, None);
    FilePosted(b, r, f);
    FileQueued(b, f, syncs);
    FileCloses(b, f, syncs);
    RerunTotalArrives(b, r, f);
    BaseTotalArrives(b, r, f);
    s := BaseAttempted(b, r, f, Unfinished(b, r, Some(1), Some(2)));
  }

  lemma BaseAttempted(b: Id, r: Id, f: Id, syncs: map<Id, Sync>) returns (s: State)
    requires b != r && Reached(OneClosedFile(b, f, syncs)) && syncs == Unfinished(b, r, Some(1), Some(2))
    ensures Reached(s) && b in s.tables.syncs && r in s.tables.syncs && s.queues == NO_JOBS
    ensures s.tables.syncs[b] == NewRow(Status.Completed, Some(1)) && s.tables.syncs[r] == syncs[r]
  {
    var s0 := OneClosedFile(b, f, syncs);
    assert CompletedOf(s0.tables.files, b) == {f};
    s := State(AttemptSyncClosure(s0.tables, b), NO_JOBS);
    assert s0.queues.syncs - {b} == map[];
    assert Next(s0, Process(SyncJob(b))) == s;
    NextIsReached(s0, Process(SyncJob(b)));
  }
}
