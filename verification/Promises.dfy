/** The main promises, over every run of clients, reruns and jobs that meets the hypotheses. */
module Promises {
  import opened Types
  import opened Statements
  import opened Protocol
  import opened Invariant
  import opened Reachable
  import opened Safety
  import opened NoLoss
  import opened RerunSteps
  import opened Drain
  import opened BaseClosure

  /** Nothing open ever sits under a completed file, sync or rerun. */
  lemma {:induction false} CompletedIsClosedAlways(evs: seq<Event>)
    requires AdmittedRun(EMPTY, evs)
    ensures CompletedIsClosed(Run(EMPTY, evs).tables)
  {
    ReachableInv(evs);
    InvIsSafe(Run(EMPTY, evs).tables);
  }

  /** However the waiting jobs are ordered, they end in the one-pass tables, after at most the measure's number. */
  lemma {:induction false} DrainsAgreeAlways(evs: seq<Event>, jobs: seq<JobRef>)
    requires AdmittedRun(EMPTY, evs)
    requires Drains(Run(EMPTY, evs), jobs) && Idle(After(Run(EMPTY, evs), jobs))
    ensures After(Run(EMPTY, evs), jobs).tables == OnePass(Run(EMPTY, evs))
    ensures |jobs| <= Measure(Run(EMPTY, evs))
  {
    ReachableInv(evs);
    InvHasNoOvershoot(Run(EMPTY, evs).tables);
    NoOvershootIsSteady(Run(EMPTY, evs));
    DrainIsOnePass(Run(EMPTY, evs), jobs);
    DrainIsBounded(Run(EMPTY, evs), jobs);
  }

  /** A rerun is refused for its guards only: no insert of its transaction ever repeats a key. */
  lemma {:induction false} RerunNeverRepeatsKey(
    evs: seq<Event>, base: Id, id: Id, notSynced: bool, last: Option<Id>, latest: Option<Id>)
    requires AdmittedRun(EMPTY, evs)
    requires IsLastRerun(Run(EMPTY, evs).tables.syncs, base, last)
    requires IsLastRerun(Run(EMPTY, evs).tables.syncs, base, latest)
    ensures var t := Run(EMPTY, evs).tables;
            RerunSyncIfNeeded(t, base, id, notSynced, last, latest).Ok?
            <==> id !in t.syncs && Ready(t.syncs, base, last)
  {
    ReachableInv(evs);
    RefusedByGuardsOnly(Run(EMPTY, evs).tables, base, id, notSynced, last, latest);
  }

  /** With patches that keep completed entities, and unique ids in the base, a rerun wipes recorded outcomes only. */
  lemma {:induction false} RerunLosesNothingAlways(
    evs: seq<Event>, base: Id, id: Id, notSynced: bool, last: Option<Id>, latest: Option<Id>, t': Tables, k: EntityKey)
    requires AdmittedRun(EMPTY, evs) && CompletedKept(EMPTY, evs)
    requires var t := Run(EMPTY, evs).tables;
             && UniqueEntityIds(t, base) && k in t.entities
             && IsLastRerun(t.syncs, base, last) && IsLastRerun(t.syncs, base, latest)
             && RerunSyncIfNeeded(t, base, id, notSynced, last, latest) == Ok(RerunOutcome(t', true))
    ensures var t := Run(EMPTY, evs).tables;
            k in t'.entities
            && (t'.entities[k] != t.entities[k] ==> SnapshotTaken(t, t', base, LatestRun(base, latest), k))
  {
    ReachableInv(evs);
    assert Inv(EMPTY.tables) && RecordedStays(EMPTY.tables);
    RunKeepsRecorded(EMPTY, evs);
    WipedIsRecorded(Run(EMPTY, evs).tables, base, id, notSynced, last, latest, t', k);
  }

  /** What a run has recorded stays recorded, row by row, whatever happens later. */
  lemma {:induction false} HistoryStaysAlways(evs: seq<Event>, later: seq<Event>)
    requires AdmittedRun(EMPTY, evs) && AdmittedRun(Run(EMPTY, evs), later)
    ensures Extends(Run(EMPTY, evs).tables.history, Run(Run(EMPTY, evs), later).tables.history)
  {
    ReachableInv(evs);
    HistoryIsAppendOnly(Run(EMPTY, evs), later);
  }

  /** No entity of a file is recorded as completed twice, no row is in rerun, and each belongs to a live entity. */
  lemma {:induction false} HistoryIsSoundAlways(evs: seq<Event>, h: HistoryKey)
    requires AdmittedRun(EMPTY, evs) && h in Run(EMPTY, evs).tables.history
    ensures var t := Run(EMPTY, evs).tables;
            && EntityKey(h.entityId, h.fileId) in t.entities
            && t.history[h].row.status != EntityStatus.InRerun
            && (t.history[h].row.status == EntityStatus.Completed ==>
                  forall g | g in t.history && g.entityId == h.entityId && g.fileId == h.fileId
                             && t.history[g].row.status == EntityStatus.Completed :: g == h)
  {
    ReachableInv(evs);
    assert RowSound(Run(EMPTY, evs).tables, h);
  }

  /** The reruns of a base are numbered 1 to n; a new one is the n+1st and starts only when no other is in progress. */
  lemma {:induction false} RerunsAreOrderedAlways(
    evs: seq<Event>, base: Id, id: Id, notSynced: bool, last: Option<Id>, latest: Option<Id>, t': Tables)
    requires AdmittedRun(EMPTY, evs)
    requires IsLastRerun(Run(EMPTY, evs).tables.syncs, base, last)
    requires IsLastRerun(Run(EMPTY, evs).tables.syncs, base, latest)
    requires RerunSyncIfNeeded(Run(EMPTY, evs).tables, base, id, notSynced, last, latest) == Ok(RerunOutcome(t', true))
    ensures NextInOrder(Run(EMPTY, evs).tables.syncs, t'.syncs, base, id)
  {
    ReachableInv(evs);
    RerunIsNextInOrder(Run(EMPTY, evs).tables, base, id, notSynced, last, latest, t');
  }

  ghost predicate NextInOrder(syncs: map<Id, Sync>, syncs': map<Id, Sync>, base: Id, id: Id) {
    var reruns := RerunsOf(syncs, base);
    && Numbers(syncs, reruns) == Upto(|reruns|)
    && (forall x | x in reruns :: syncs[x].status != Status.InProgress)
    && id !in syncs && base in syncs
    && syncs' == syncs[id := Sync(
         Status.InProgress, syncs[base].totalFiles, Some(base), |reruns| + 1, syncs[base].details)]
  }

  lemma RerunIsNextInOrder(
    t: Tables, base: Id, id: Id, notSynced: bool, last: Option<Id>, latest: Option<Id>, t': Tables)
    requires Inv(t) && IsLastRerun(t.syncs, base, last) && IsLastRerun(t.syncs, base, latest)
    requires RerunSyncIfNeeded(t, base, id, notSynced, last, latest) == Ok(RerunOutcome(t', true))
    ensures NextInOrder(t.syncs, t'.syncs, base, id)
  {
    CreatedRerun(t, base, id, notSynced, last, latest, t');
    RerunsAreNumbered(t, base, latest);
    forall x | x in RerunsOf(t.syncs, base)
      ensures t.syncs[x].status != Status.InProgress
    {
      ReadyFamily(t, base, latest, x);
    }
  }

  /** A rerun created after its base got its total is never in progress under the completed base. */
  lemma {:induction false} RerunEndsWithBaseAlways(evs: seq<Event>, rerun: Event, later: seq<Event>, t': Tables)
    requires AdmittedRun(EMPTY, evs) && rerun.Rerun? && Admitted(Run(EMPTY, evs), rerun)
    requires var t := Run(EMPTY, evs).tables;
             && rerun.base in t.syncs && t.syncs[rerun.base].totalFiles.Some?
             && RerunSyncIfNeeded(t, rerun.base, rerun.rerunId, rerun.notSynced, rerun.last, rerun.latest)
                == Ok(RerunOutcome(t', true))
    requires AdmittedRun(Next(Run(EMPTY, evs), rerun), later)
    ensures var syncs := Run(Next(Run(EMPTY, evs), rerun), later).tables.syncs;
            && rerun.base in syncs && rerun.rerunId in syncs
            && (syncs[rerun.base].status == Status.Completed ==> syncs[rerun.rerunId].status != Status.InProgress)
  {
    var s := Run(EMPTY, evs);
    ReachableInv(evs);
    StepKeepsInv(s, rerun);
    NewRerunEndsWithBase(s, rerun, t');
    RunKeepsEnd(Next(s, rerun), later, rerun.base, rerun.rerunId);
  }

  lemma NewRerunEndsWithBase(s: State, rerun: Event, t': Tables)
    requires Inv(s.tables) && rerun.Rerun? && Admitted(s, rerun)
    requires rerun.base in s.tables.syncs && s.tables.syncs[rerun.base].totalFiles.Some?
    requires RerunSyncIfNeeded(s.tables, rerun.base, rerun.rerunId, rerun.notSynced, rerun.last, rerun.latest)
             == Ok(RerunOutcome(t', true))
    ensures EndsTogether(Next(s, rerun).tables.syncs, rerun.base, rerun.rerunId)
  {
    CreatedRerun(s.tables, rerun.base, rerun.rerunId, rerun.notSynced, rerun.last, rerun.latest, t');
  }
}
