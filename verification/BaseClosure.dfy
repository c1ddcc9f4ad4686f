/** A rerun that carries its base's total ends with its base, from its creation on. */
module BaseClosure {
  import opened Types
  import opened Statements
  import opened Requests
  import opened Protocol
  import opened Invariant
  import opened ClosureSteps
  import opened RerunSteps
  import opened Reachable

  /** Base and rerun have one total, and the rerun is not in progress under a completed base. */
  ghost predicate EndsTogether(syncs: map<Id, Sync>, base: Id, x: Id) {
    && base in syncs && x in syncs && syncs[x].baseSyncId == Some(base)
    && syncs[base].totalFiles.Some? && syncs[x].totalFiles == syncs[base].totalFiles
    && (syncs[base].status == Status.Completed ==> syncs[x].status != Status.InProgress)
  }

  lemma PatchKeepsEnd(s: State, ev: Event, base: Id, x: Id)
    requires Inv(s.tables) && Admitted(s, ev) && ev.PatchSync? && EndsTogether(s.tables.syncs, base, x)
    ensures EndsTogether(NextTables(s, ev).syncs, base, x)
  {
    NoOwnBase(s.tables.syncs, x);
    assert TotalsFixed(s.tables, NextTables(s, ev));
  }

  lemma AttemptKeepsEnd(t: Tables, y: Id, base: Id, x: Id)
    requires Inv(t) && EndsTogether(t.syncs, base, x)
    ensures EndsTogether(AttemptSyncClosure(t, y).syncs, base, x)
  {
    assert RerunSound(t.syncs, x);
  }

  lemma RerunKeepsEnd(
    t: Tables, b: Id, id: Id, notSynced: bool, last: Option<Id>, latest: Option<Id>, base: Id, x: Id)
    requires Inv(t) && EndsTogether(t.syncs, base, x)
    requires IsLastRerun(t.syncs, b, last) && RerunSyncIfNeeded(t, b, id, notSynced, last, latest).Ok?
    ensures EndsTogether(RerunSyncIfNeeded(t, b, id, notSynced, last, latest).value.tables.syncs, base, x)
  {
    assert RerunSound(t.syncs, x);
    if b == base {
      ReadyFamily(t, b, last, x);
    }
    RerunSyncs(t, b, id, notSynced, last, latest);
  }

  /** A rerun operation closes its base or adds the new rerun; it changes no other sync row. */
  lemma RerunSyncs(t: Tables, b: Id, id: Id, notSynced: bool, last: Option<Id>, latest: Option<Id>)
    requires last.Some? ==> last.value in t.syncs
    requires RerunSyncIfNeeded(t, b, id, notSynced, last, latest).Ok?
    ensures var syncs' := RerunSyncIfNeeded(t, b, id, notSynced, last, latest).value.tables.syncs;
            && b in t.syncs && t.syncs[b].runNumber == 0 && t.syncs[b].status == Status.Failed && id !in t.syncs
            && (syncs' == t.syncs[b := t.syncs[b].(status := Status.Completed)]
                || (id in syncs' && syncs' == t.syncs[id := syncs'[id]]))
  {
  }

  predicate WritesSyncs(ev: Event) {
    ev.PostSync? || ev.PatchSync? || ev.Rerun? || (ev.Process? && ev.job.SyncJob?)
  }

  lemma OthersKeepSyncs(s: State, ev: Event)
    requires !WritesSyncs(ev)
    ensures NextTables(s, ev).syncs == s.tables.syncs
  {
  }

  lemma {:induction false} StepKeepsEnd(s: State, ev: Event, base: Id, x: Id)
    requires Inv(s.tables) && Admitted(s, ev) && EndsTogether(s.tables.syncs, base, x)
    ensures EndsTogether(Next(s, ev).tables.syncs, base, x)
  {
    if ev.Rerun? {
      if RerunSyncIfNeeded(s.tables, ev.base, ev.rerunId, ev.notSynced, ev.last, ev.latest).Ok? {
        RerunKeepsEnd(s.tables, ev.base, ev.rerunId, ev.notSynced, ev.last, ev.latest, base, x);
      }
    } else if ev.PatchSync? {
      PatchKeepsEnd(s, ev, base, x);
    } else if ev.Process? && ev.job.SyncJob? {
      AttemptKeepsEnd(s.tables, ev.job.id, base, x);
    } else if !ev.PostSync? {
      OthersKeepSyncs(s, ev);
    }
  }

  lemma {:induction false} RunKeepsEnd(s: State, evs: seq<Event>, base: Id, x: Id)
    requires Inv(s.tables) && AdmittedRun(s, evs) && EndsTogether(s.tables.syncs, base, x)
    ensures EndsTogether(Run(s, evs).tables.syncs, base, x)
    decreases |evs|
  {
    if evs != [] {
      StepKeepsInv(s, evs[0]);
      StepKeepsEnd(s, evs[0], base, x);
      RunKeepsEnd(Next(s, evs[0]), evs[1..], base, x);
    }
  }
}
