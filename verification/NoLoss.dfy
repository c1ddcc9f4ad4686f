/** Reruns lose no outcome: what they record, what they wipe, and what stays over whole runs. */
module NoLoss {
  import opened Types
  import opened Statements
  import opened Requests
  import opened Protocol
  import opened Invariant
  import opened RerunSteps
  import opened EntityWrites
  import opened Reachable

  /******* One rerun *******/

  function RerunTables(t: Tables, base: Id, last: Option<Id>, id: Id, notSynced: bool): Tables
    requires base in t.syncs && (last.Some? ==> last.value in t.syncs)
  {
    var ready := Prepared(DeleteEmptyFiles(t, base), base, LatestRun(base, last), notSynced);
    ready.(syncs := t.syncs[id := RerunRow(t.syncs, base, last)])
  }

  /** What the guards have established when a rerun is created, and the tables it leaves. */
  lemma CreatedRerun(
    t: Tables, base: Id, id: Id, notSynced: bool, last: Option<Id>, latest: Option<Id>, t': Tables)
    requires Inv(t) && IsLastRerun(t.syncs, base, last) && IsLastRerun(t.syncs, base, latest)
    requires RerunSyncIfNeeded(t, base, id, notSynced, last, latest) == Ok(RerunOutcome(t', true))
    ensures Ready(t.syncs, base, latest) && id !in t.syncs && t.syncs[base].baseSyncId == None
    ensures CreateEntityHistory(DeleteEmptyFiles(t, base), base, LatestRun(base, latest)).Ok?
    ensures t' == RerunTables(t, base, latest, id, notSynced)
  {
    LastRerunIsUnique(t.syncs, base, last, latest);
    SweepKeepsInv(t, base, last);
    ReadyFamily(t, base, last, base);
    HistoryKeyIsFree(DeleteEmptyFiles(t, base), base, last);
  }

  /** Without empty files, a failed base whose last rerun failed gets its rerun. */
  lemma RerunIsCreated(t: Tables, base: Id, id: Id, notSynced: bool, last: Option<Id>)
    requires Inv(t) && Ready(t.syncs, base, last) && id !in t.syncs && EmptyFiles(t, base) == {}
    ensures DeleteEmptyFiles(t, base) == t
    ensures RerunSyncIfNeeded(t, base, id, notSynced, last, last)
            == Ok(RerunOutcome(RerunTables(t, base, last, id, notSynced), true))
  {
    EmptyFilesTakeNothingAlong(t, base);
    assert DeleteEmptyFiles(t, base) == t;
    HistoryKeyIsFree(t, base, last);
    PreparedRows(t, base, LatestRun(base, last), notSynced);
  }

  /** What a created rerun does to the entities and to the history. */
  lemma CreatedRerunEffect(t: Tables, base: Id, id: Id, notSynced: bool, last: Option<Id>)
    requires Inv(t) && Ready(t.syncs, base, last) && id !in t.syncs
    requires CreateEntityHistory(DeleteEmptyFiles(t, base), base, LatestRun(base, last)).Ok?
    ensures var run, t' := LatestRun(base, last), RerunTables(t, base, last, id, notSynced);
            && t'.entities.Keys == t.entities.Keys
            && (forall k | k in t.entities ::
                  t'.entities[k] ==
                    if Under(t, base, k) && Resettable(t.entities[k].status, notSynced) then RESET_ROW
                    else t.entities[k])
            && t'.history == t.history + HistoryRows(t, base, run)
            && (forall h | h in t.history :: h.syncId != run)
  {
    var run := LatestRun(base, last);
    HistoryKeyIsFree(t, base, last);
    EmptyFilesTakeNothingAlong(t, base);
    PreparedRows(DeleteEmptyFiles(t, base), base, run, notSynced);
    SweepKeepsHistoryRows(t, base, run);
    SweepKeepsUnder(t, base);
  }

  lemma SweepKeepsUnder(t: Tables, base: Id)
    requires HistorySound(t)
    ensures forall k | k in t.entities :: Under(DeleteEmptyFiles(t, base), base, k) == Under(t, base, k)
  {
    EmptyFilesTakeNothingAlong(t, base);
    forall k | k in t.entities
      ensures Under(DeleteEmptyFiles(t, base), base, k) == Under(t, base, k)
    {
      assert k in EntitiesOf(t.entities, k.fileId);
    }
  }

  lemma SweepKeepsHistoryRows(t: Tables, base: Id, run: Id)
    requires HistorySound(t)
    ensures HistoryRows(DeleteEmptyFiles(t, base), base, run) == HistoryRows(t, base, run)
  {
    var t' := DeleteEmptyFiles(t, base);
    EmptyFilesTakeNothingAlong(t, base);
    SweepKeepsUnder(t, base);
    forall k | k in t.entities
      ensures ForHistory(t', base, k) == ForHistory(t, base, k)
    {
      assert CompletedBefore(t', base, k.entityId) == CompletedBefore(t, base, k.entityId);
    }
    assert HistoryRows(t', base, run).Keys == HistoryRows(t, base, run).Keys;
  }

  /** The exact snapshot of an entity under the run that ends. */
  predicate SnapshotTaken(t: Tables, t': Tables, base: Id, run: Id, k: EntityKey)
    requires k in t.entities
  {
    var h := HistoryKey(run, k.entityId, k.fileId);
    h !in t.history && h in t'.history
    && t'.history[h] == Snapshot(if run == base then None else Some(base), t.entities[k])
  }

  /** Every outcome of the ending run is recorded exactly, or its entity id was recorded as completed before. */
  lemma {:induction false} NoOutcomeIsLost(
    t: Tables, base: Id, id: Id, notSynced: bool, last: Option<Id>, latest: Option<Id>, t': Tables)
    requires Inv(t) && IsLastRerun(t.syncs, base, last) && IsLastRerun(t.syncs, base, latest)
    requires RerunSyncIfNeeded(t, base, id, notSynced, last, latest) == Ok(RerunOutcome(t', true))
    ensures forall k | Under(t, base, k) && t.entities[k].status != EntityStatus.InRerun ::
              SnapshotTaken(t, t', base, LatestRun(base, latest), k) <==> !CompletedBefore(t, base, k.entityId)
  {
    CreatedRerun(t, base, id, notSynced, last, latest, t');
    CreatedRerunEffect(t, base, id, notSynced, latest);
    forall k | Under(t, base, k) && t.entities[k].status != EntityStatus.InRerun
      ensures SnapshotTaken(t, t', base, LatestRun(base, latest), k) <==> !CompletedBefore(t, base, k.entityId)
    {
      RowsToRecord(t, base, LatestRun(base, latest), k);
    }
  }

  lemma RowsToRecord(t: Tables, base: Id, run: Id, k: EntityKey)
    requires Under(t, base, k) && t.entities[k].status != EntityStatus.InRerun
    ensures var h, rows := HistoryKey(run, k.entityId, k.fileId), HistoryRows(t, base, run);
            && (h in rows <==> !CompletedBefore(t, base, k.entityId))
            && (h in rows ==> rows[h] == Snapshot(if run == base then None else Some(base), t.entities[k]))
  {
    var h := HistoryKey(run, k.entityId, k.fileId);
    assert EntityKey(h.entityId, h.fileId) == k;
    if ForHistory(t, base, k) {
      assert h in HistoryRows(t, base, run);
    }
  }

  /** Within the base, one entity id belongs to one file. */
  ghost predicate UniqueEntityIds(t: Tables, base: Id) {
    forall j, k | Under(t, base, j) && Under(t, base, k) && j.entityId == k.entityId :: j == k
  }

  lemma RecordedIsCompleted(t: Tables, base: Id, k: EntityKey)
    requires Forest(t.syncs) && HistorySound(t) && RecordedStays(t) && UniqueEntityIds(t, base)
    requires base in t.syncs && t.syncs[base].baseSyncId == None
    requires Under(t, base, k) && CompletedBefore(t, base, k.entityId)
    ensures t.entities[k].status == EntityStatus.Completed
  {
    var h :| h in t.history && h.entityId == k.entityId && InFamily(t.syncs, base, h.syncId)
             && t.history[h].row.status == EntityStatus.Completed;
    assert RowSound(t, h);
    assert Under(t, base, EntityKey(h.entityId, h.fileId));
  }

  lemma OpenIsUnrecorded(t: Tables, base: Id, notSynced: bool, k: EntityKey)
    requires Forest(t.syncs) && HistorySound(t) && RecordedStays(t) && UniqueEntityIds(t, base)
    requires base in t.syncs && t.syncs[base].baseSyncId == None
    requires Under(t, base, k) && Resettable(t.entities[k].status, notSynced)
    ensures !CompletedBefore(t, base, k.entityId)
  {
    if CompletedBefore(t, base, k.entityId) {
      RecordedIsCompleted(t, base, k);
    }
  }

  /** Every entity the reset wipes was recorded in the same transaction. */
  lemma {:induction false} WipedIsRecorded(
    t: Tables, base: Id, id: Id, notSynced: bool, last: Option<Id>, latest: Option<Id>, t': Tables, k: EntityKey)
    requires Inv(t) && RecordedStays(t) && UniqueEntityIds(t, base)
    requires IsLastRerun(t.syncs, base, last) && IsLastRerun(t.syncs, base, latest)
    requires RerunSyncIfNeeded(t, base, id, notSynced, last, latest) == Ok(RerunOutcome(t', true))
    requires k in t.entities
    ensures k in t'.entities
    ensures t'.entities[k] != t.entities[k] ==>
              Under(t, base, k) && SnapshotTaken(t, t', base, LatestRun(base, latest), k)
  {
    WipedExactly(t, base, id, notSynced, last, latest, t');
    if t'.entities[k] != t.entities[k] {
      OpenIsUnrecorded(t, base, notSynced, k);
      NoOutcomeIsLost(t, base, id, notSynced, last, latest, t');
    }
  }

  lemma WipedExactly(
    t: Tables, base: Id, id: Id, notSynced: bool, last: Option<Id>, latest: Option<Id>, t': Tables)
    requires Inv(t) && IsLastRerun(t.syncs, base, last) && IsLastRerun(t.syncs, base, latest)
    requires RerunSyncIfNeeded(t, base, id, notSynced, last, latest) == Ok(RerunOutcome(t', true))
    ensures base in t.syncs && t.syncs[base].baseSyncId == None
    ensures t'.entities.Keys == t.entities.Keys
    ensures forall k | k in t.entities ::
              t'.entities[k] != t.entities[k] <==> Under(t, base, k) && Resettable(t.entities[k].status, notSynced)
  {
    CreatedRerun(t, base, id, notSynced, last, latest, t');
    CreatedRerunEffect(t, base, id, notSynced, latest);
  }

  /** The link between the rows that change and the rows that are recorded. */
  lemma RecordedExactly(t: Tables, t': Tables, base: Id, run: Id, notSynced: bool)
    requires t'.entities.Keys == t.entities.Keys
    requires forall k | k in t.entities ::
               t'.entities[k] != t.entities[k] <==> Under(t, base, k) && Resettable(t.entities[k].status, notSynced)
    requires forall k | Under(t, base, k) && t.entities[k].status != EntityStatus.InRerun ::
               SnapshotTaken(t, t', base, run, k) <==> !CompletedBefore(t, base, k.entityId)
    ensures (forall k | k in t.entities && k in t'.entities && t'.entities[k] != t.entities[k] ::
               SnapshotTaken(t, t', base, run, k))
            <==> (forall k | Under(t, base, k) && Resettable(t.entities[k].status, notSynced) ::
                    !CompletedBefore(t, base, k.entityId))
  {
  }

  /** Exactly when: no entity up for the reset shares its id with one recorded as completed. */
  lemma {:induction false} WipedIsRecordedExactly(
    t: Tables, base: Id, id: Id, notSynced: bool, last: Option<Id>, latest: Option<Id>, t': Tables)
    requires Inv(t) && IsLastRerun(t.syncs, base, last) && IsLastRerun(t.syncs, base, latest)
    requires RerunSyncIfNeeded(t, base, id, notSynced, last, latest) == Ok(RerunOutcome(t', true))
    ensures (forall k | k in t.entities && k in t'.entities && t'.entities[k] != t.entities[k] ::
               SnapshotTaken(t, t', base, LatestRun(base, latest), k))
            <==> (forall k | Under(t, base, k) && Resettable(t.entities[k].status, notSynced) ::
                    !CompletedBefore(t, base, k.entityId))
  {
    WipedExactly(t, base, id, notSynced, last, latest, t');
    NoOutcomeIsLost(t, base, id, notSynced, last, latest, t');
    RecordedExactly(t, t', base, LatestRun(base, latest), notSynced);
  }

  lemma WithoutChangesetUnfound(t: Tables, k: EntityKey, changesets: set<Id>)
    requires k in t.entities && t.entities[k].changesetId == None
    ensures FindFilesByChangesets(t.(entities := t.entities - {k}), changesets) == FindFilesByChangesets(t, changesets)
  {
    forall f | f in FindFilesByChangesets(t, changesets)
      ensures f in FindFilesByChangesets(t.(entities := t.entities - {k}), changesets)
    {
      var j :| j in t.entities && j.fileId in t.files && t.files[j.fileId].status == Status.InProgress
               && t.entities[j].changesetId.Some? && t.entities[j].changesetId.value in changesets && j.fileId == f;
      assert j in t.entities - {k} && (t.entities - {k})[j] == t.entities[j];
    }
  }

  /** A changeset of an ended run that comes late completes no entity the rerun reset, and finds no file through it. */
  lemma {:induction false} LateChangesetsMissReset(
    t: Tables, base: Id, id: Id, notSynced: bool, last: Option<Id>, latest: Option<Id>, t': Tables,
    k: EntityKey, changesets: set<Id>)
    requires Inv(t) && IsLastRerun(t.syncs, base, last) && IsLastRerun(t.syncs, base, latest)
    requires RerunSyncIfNeeded(t, base, id, notSynced, last, latest) == Ok(RerunOutcome(t', true))
    requires Under(t, base, k) && Resettable(t.entities[k].status, notSynced)
    ensures k in t'.entities && t'.entities[k].status == EntityStatus.InRerun && t'.entities[k].failReason == None
    ensures forall c :: k in CompleteChangeset(t', c).entities && CompleteChangeset(t', c).entities[k] == t'.entities[k]
    ensures FindFilesByChangesets(t'.(entities := t'.entities - {k}), changesets)
            == FindFilesByChangesets(t', changesets)
  {
    CreatedRerun(t, base, id, notSynced, last, latest, t');
    CreatedRerunEffect(t, base, id, notSynced, latest);
    WithoutChangesetUnfound(t', k, changesets);
  }

  /******* Whole runs *******/

  predicate Patches(ev: Event, k: EntityKey) {
    match ev
    case PatchEntity(w) => w.key == k
    case PatchEntities(writes, _) => k in WriteKeys(writes)
    case _ => false
  }

  /** Everything but a rerun leaves the history alone, keeps every entity, and a completed one unless patched. */
  lemma OtherEventsKeepRows(s: State, ev: Event)
    requires !ev.Rerun?
    ensures NextTables(s, ev).history == s.tables.history
    ensures s.tables.entities.Keys <= NextTables(s, ev).entities.Keys
    ensures forall k | k in s.tables.entities && s.tables.entities[k].status == EntityStatus.Completed
                       && !Patches(ev, k) ::
              NextTables(s, ev).entities[k].status == EntityStatus.Completed
  {
    var t := s.tables;
    match ev
    case PostEntities(fileId, requests) =>
      if CreateEntities(t, fileId, requests).Ok? {
        if HasReruns(t.syncs, t.files[fileId].syncId) {
          RerunCreationRows(t, fileId, requests);
        } else {
          FirstCreationAdds(t, fileId, requests);
        }
      }
    case PatchEntities(writes, emptyCount) =>
      if UpdateEntities(t, writes, emptyCount).Ok? {
        UpdateNeverInserts(t, writes, emptyCount);
      }
    case _ =>
  }

  lemma {:induction false} CompletedStaysOneStep(s: State, ev: Event, k: EntityKey)
    requires Inv(s.tables) && Admitted(s, ev) && !Patches(ev, k)
    requires k in s.tables.entities && s.tables.entities[k].status == EntityStatus.Completed
    ensures k in NextTables(s, ev).entities && NextTables(s, ev).entities[k].status == EntityStatus.Completed
  {
    if ev.Rerun? {
      if RerunSyncIfNeeded(s.tables, ev.base, ev.rerunId, ev.notSynced, ev.last, ev.latest).Ok? {
        RerunKeepsCompleted(s.tables, ev.base, ev.rerunId, ev.notSynced, ev.last, ev.latest, k);
      }
    } else {
      OtherEventsKeepRows(s, ev);
    }
  }

  lemma RerunKeepsCompleted(
    t: Tables, base: Id, id: Id, notSynced: bool, last: Option<Id>, latest: Option<Id>, k: EntityKey)
    requires Inv(t) && IsLastRerun(t.syncs, base, last) && IsLastRerun(t.syncs, base, latest)
    requires RerunSyncIfNeeded(t, base, id, notSynced, last, latest).Ok?
    requires k in t.entities && t.entities[k].status == EntityStatus.Completed
    ensures var t' := RerunSyncIfNeeded(t, base, id, notSynced, last, latest).value.tables;
            k in t'.entities && t'.entities[k] == t.entities[k]
  {
    EmptyFilesTakeNothingAlong(t, base);
    if RerunSyncIfNeeded(t, base, id, notSynced, last, latest).value.created {
      var t' := RerunSyncIfNeeded(t, base, id, notSynced, last, latest).value.tables;
      CreatedRerun(t, base, id, notSynced, last, latest, t');
      CreatedRerunEffect(t, base, id, notSynced, latest);
    }
  }

  /** Once completed, an entity stays present and completed until a patch addresses it. */
  lemma {:induction false} CompletedStays(s: State, evs: seq<Event>, k: EntityKey)
    requires Inv(s.tables) && AdmittedRun(s, evs)
    requires forall i | 0 <= i < |evs| :: !Patches(evs[i], k)
    requires k in s.tables.entities && s.tables.entities[k].status == EntityStatus.Completed
    ensures var t' := Run(s, evs).tables;
            k in t'.entities && t'.entities[k].status == EntityStatus.Completed
    decreases |evs|
  {
    if evs != [] {
      StepKeepsInv(s, evs[0]);
      CompletedStaysOneStep(s, evs[0], k);
      forall i | 0 <= i < |evs[1..]|
        ensures !Patches(evs[1..][i], k)
      {
        assert evs[1..][i] == evs[i + 1];
      }
      CompletedStays(Next(s, evs[0]), evs[1..], k);
    }
  }

  /** `new'` has every row of `old'` unchanged. */
  ghost predicate Extends<K, V>(old': map<K, V>, new': map<K, V>) {
    old'.Keys <= new'.Keys && forall k | k in old' :: new'[k] == old'[k]
  }

  lemma RerunKeepsRows(t: Tables, base: Id, id: Id, notSynced: bool, last: Option<Id>, latest: Option<Id>)
    requires Inv(t) && IsLastRerun(t.syncs, base, last) && IsLastRerun(t.syncs, base, latest)
    requires RerunSyncIfNeeded(t, base, id, notSynced, last, latest).Ok?
    ensures var t' := RerunSyncIfNeeded(t, base, id, notSynced, last, latest).value.tables;
            && Extends(t.history, t'.history)
            && t.entities.Keys <= t'.entities.Keys
            && (forall h | h in t'.history && h !in t.history ::
                  var k := EntityKey(h.entityId, h.fileId); k in t.entities && t.entities[k] == t'.history[h].row)
  {
    EmptyFilesTakeNothingAlong(t, base);
    if RerunSyncIfNeeded(t, base, id, notSynced, last, latest).value.created {
      var t' := RerunSyncIfNeeded(t, base, id, notSynced, last, latest).value.tables;
      CreatedRerun(t, base, id, notSynced, last, latest, t');
      CreatedRerunEffect(t, base, id, notSynced, latest);
      HistoryOnlyGrows(t, base, latest);
    }
  }

  lemma {:induction false} HistoryGrowsOneStep(s: State, ev: Event)
    requires Inv(s.tables) && Admitted(s, ev)
    ensures Extends(s.tables.history, NextTables(s, ev).history)
    ensures s.tables.entities.Keys <= NextTables(s, ev).entities.Keys
  {
    if ev.Rerun? {
      if RerunSyncIfNeeded(s.tables, ev.base, ev.rerunId, ev.notSynced, ev.last, ev.latest).Ok? {
        RerunKeepsRows(s.tables, ev.base, ev.rerunId, ev.notSynced, ev.last, ev.latest);
      }
    } else {
      OtherEventsKeepRows(s, ev);
    }
  }

  lemma HistoryOnlyGrows(t: Tables, base: Id, latest: Option<Id>)
    requires forall h | h in t.history :: h.syncId != LatestRun(base, latest)
    ensures Extends(t.history, t.history + HistoryRows(t, base, LatestRun(base, latest)))
    ensures forall h | h in HistoryRows(t, base, LatestRun(base, latest)) ::
              var k := EntityKey(h.entityId, h.fileId);
              k in t.entities && HistoryRows(t, base, LatestRun(base, latest))[h].row == t.entities[k]
  {
  }

  /** History is append-only, and no entity ever disappears, over whole runs. */
  lemma {:induction false} HistoryIsAppendOnly(s: State, evs: seq<Event>)
    requires Inv(s.tables) && AdmittedRun(s, evs)
    ensures Extends(s.tables.history, Run(s, evs).tables.history)
    ensures s.tables.entities.Keys <= Run(s, evs).tables.entities.Keys
    decreases |evs|
  {
    if evs != [] {
      StepKeepsInv(s, evs[0]);
      HistoryGrowsOneStep(s, evs[0]);
      HistoryIsAppendOnly(Next(s, evs[0]), evs[1..]);
    }
  }

  /******* Runs whose patches keep completed entities completed *******/

  ghost predicate CompletedKept(s: State, evs: seq<Event>)
    decreases |evs|
  {
    evs == []
    || (((evs[0].PatchEntity? || evs[0].PatchEntities?) ==> KeepsCompleted(s.tables, NextTables(s, evs[0])))
        && CompletedKept(Next(s, evs[0]), evs[1..]))
  }

  lemma {:induction false} StepKeepsRecorded(s: State, ev: Event)
    requires Inv(s.tables) && RecordedStays(s.tables) && Admitted(s, ev)
    requires ev.PatchEntity? || ev.PatchEntities? ==> KeepsCompleted(s.tables, NextTables(s, ev))
    ensures RecordedStays(NextTables(s, ev))
  {
    var t, t' := s.tables, NextTables(s, ev);
    forall k | k in t.entities && t.entities[k].status == EntityStatus.Completed
      ensures k in t'.entities && t'.entities[k].status == EntityStatus.Completed
    {
      if !Patches(ev, k) {
        CompletedStaysOneStep(s, ev, k);
      }
    }
    forall h | h in t'.history && t'.history[h].row.status == EntityStatus.Completed
      ensures var k := EntityKey(h.entityId, h.fileId);
              k in t'.entities && t'.entities[k].status == EntityStatus.Completed
    {
      if h !in t.history {
        NewRowsAreLive(s, ev, h);
      } else {
        HistoryGrowsOneStep(s, ev);
      }
    }
  }

  /** Only a rerun adds history rows, each a copy of a row of the entity table. */
  lemma NewRowsAreLive(s: State, ev: Event, h: HistoryKey)
    requires Inv(s.tables) && Admitted(s, ev)
    requires h in NextTables(s, ev).history && h !in s.tables.history
    ensures var k := EntityKey(h.entityId, h.fileId);
            k in s.tables.entities && s.tables.entities[k] == NextTables(s, ev).history[h].row
  {
    if ev.Rerun? {
      RerunKeepsRows(s.tables, ev.base, ev.rerunId, ev.notSynced, ev.last, ev.latest);
    } else {
      OtherEventsKeepRows(s, ev);
    }
  }

  lemma {:induction false} RunKeepsRecorded(s: State, evs: seq<Event>)
    requires Inv(s.tables) && RecordedStays(s.tables) && AdmittedRun(s, evs) && CompletedKept(s, evs)
    ensures RecordedStays(Run(s, evs).tables)
    decreases |evs|
  {
    if evs != [] {
      StepKeepsInv(s, evs[0]);
      StepKeepsRecorded(s, evs[0]);
      RunKeepsRecorded(Next(s, evs[0]), evs[1..]);
    }
  }
}
