/** One full base sync a layer and geometry, and the merge of metadata. */
module FullSyncs {
  import opened Types
  import opened Statements
  import opened Requests
  import opened Protocol
  import opened BaseClosure

  predicate FullBase(syncs: map<Id, Sync>, x: Id) {
    x in syncs && syncs[x].baseSyncId == None && syncs[x].details.isFull
  }

  /** No two full base syncs share their layer and geometry. */
  ghost predicate FullIsUnique(syncs: map<Id, Sync>) {
    forall x, y | FullBase(syncs, x) && FullBase(syncs, y) && SameLayer(syncs[x].details, syncs[y].details) :: x == y
  }

  /** The patch moves no full base sync to the layer and geometry of another. */
  ghost predicate PatchIsFree(syncs: map<Id, Sync>, id: Id, patch: SyncPatch) {
    FullBase(syncs, id) ==>
      forall x | FullBase(syncs, x) && x != id ::
        !SameLayer(syncs[x].details, PatchDetails(syncs[id].details, patch))
  }

  /** A patch keeps the full syncs unique if and only if it moves none to the place of another. */
  lemma {:induction false} PatchKeepsFullExactly(t: Tables, id: Id, patch: SyncPatch)
    requires FullIsUnique(t.syncs) && id in t.syncs
    ensures FullIsUnique(UpdateSync(t, id, patch).value.syncs) <==> PatchIsFree(t.syncs, id, patch)
  {
    var syncs, syncs' := t.syncs, UpdateSync(t, id, patch).value.syncs;
    assert forall x :: FullBase(syncs', x) == FullBase(syncs, x);
    if FullIsUnique(syncs') && FullBase(syncs, id) {
      forall x | FullBase(syncs, x) && x != id
        ensures !SameLayer(syncs[x].details, PatchDetails(syncs[id].details, patch))
      {
        assert FullBase(syncs', x) && FullBase(syncs', id);
      }
    }
    if PatchIsFree(syncs, id, patch) {
      forall x, y | FullBase(syncs', x) && FullBase(syncs', y) && SameLayer(syncs'[x].details, syncs'[y].details)
        ensures x == y
      {
        assert FullBase(syncs, x) && FullBase(syncs, y);
      }
    }
  }

  /** Rows keep base and details, and a new row is a rerun or passed the check. */
  lemma OthersKeepDetails(s: State, ev: Event)
    requires !ev.PatchSync?
    ensures var syncs, syncs' := s.tables.syncs, NextTables(s, ev).syncs;
            && (forall x | x in syncs ::
                  x in syncs' && syncs'[x].baseSyncId == syncs[x].baseSyncId && syncs'[x].details == syncs[x].details)
            && (forall x | FullBase(syncs', x) && x !in syncs ::
                  ev == PostSync(x, syncs'[x]) && !HasFullSync(syncs, syncs'[x].details))
  {
    if !WritesSyncs(ev) {
      OthersKeepSyncs(s, ev);
    } else if ev.Rerun? && (ev.last.Some? ==> ev.last.value in s.tables.syncs) {
      if RerunSyncIfNeeded(s.tables, ev.base, ev.rerunId, ev.notSynced, ev.last, ev.latest).Ok? {
        RerunSyncs(s.tables, ev.base, ev.rerunId, ev.notSynced, ev.last, ev.latest);
      }
    }
  }

  lemma {:induction false} StepKeepsFull(s: State, ev: Event)
    requires FullIsUnique(s.tables.syncs)
    requires ev.PatchSync? ==> PatchIsFree(s.tables.syncs, ev.id, ev.patch)
    ensures FullIsUnique(NextTables(s, ev).syncs)
  {
    if ev.PatchSync? {
      if ev.id in s.tables.syncs {
        PatchKeepsFullExactly(s.tables, ev.id, ev.patch);
      }
    } else {
      OthersKeepDetails(s, ev);
    }
  }

  ghost predicate PatchesAreFree(s: State, evs: seq<Event>)
    decreases |evs|
  {
    evs == []
    || ((evs[0].PatchSync? ==> PatchIsFree(s.tables.syncs, evs[0].id, evs[0].patch))
        && PatchesAreFree(Next(s, evs[0]), evs[1..]))
  }

  /** Over every run, admitted or not, whose patches move no full sync to the place of another. */
  lemma {:induction false} FullStaysUnique(s: State, evs: seq<Event>)
    requires FullIsUnique(s.tables.syncs) && PatchesAreFree(s, evs)
    ensures FullIsUnique(Run(s, evs).tables.syncs)
    decreases |evs|
  {
    if evs != [] {
      StepKeepsFull(s, evs[0]);
      FullStaysUnique(Next(s, evs[0]), evs[1..]);
    }
  }

  /** A patch sets its own metadata properties, keeps the others, and changes nothing when repeated. */
  lemma {:induction false} PatchMerges(t: Tables, id: Id, patch: SyncPatch)
    requires id in t.syncs
    ensures var t' := UpdateSync(t, id, patch).value;
            var before, given := Properties(t.syncs[id].details.metadata), Properties(patch.metadata);
            var after := Properties(t'.syncs[id].details.metadata);
            && after.Keys == before.Keys + given.Keys
            && (forall p | p in given :: after[p] == given[p])
            && (forall p | p in before && p !in given :: after[p] == before[p])
            && t'.syncs[id].details.isFull == t.syncs[id].details.isFull
            && UpdateSync(t', id, patch) == Ok(t')
  {
    var t' := UpdateSync(t, id, patch).value;
    var after := Properties(t'.syncs[id].details.metadata);
    assert after + Properties(patch.metadata) == after;
    assert UpdateSync(t', id, patch).value.syncs[id] == t'.syncs[id];
    assert UpdateSync(t', id, patch).value.syncs == t'.syncs;
  }
}
