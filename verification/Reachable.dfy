/** Every admitted step keeps the invariant, so every reachable state has it. */
module Reachable {
  import opened Types
  import opened Statements
  import opened Requests
  import opened Protocol
  import opened Invariant
  import opened ClientSteps
  import opened ClosureSteps
  import opened RerunSteps
  import opened EntityWrites

  /******* Entity requests *******/

  lemma BulkCreationIsSound(t: Tables, fileId: Id, requests: seq<NewEntity>)
    requires Inv(t) && CreateEntities(t, fileId, requests).Ok?
    requires FileCapacity(CreateEntities(t, fileId, requests).value.tables)
    ensures EntityWriteSound(t, CreateEntities(t, fileId, requests).value.tables)
  {
    var t' := CreateEntities(t, fileId, requests).value.tables;
    AddressedKeys(requests, fileId);
    if HasReruns(t.syncs, t.files[fileId].syncId) {
      RerunCreationRows(t, fileId, requests);
      forall k | k in t.entities && IsClosed(t.entities[k].status)
        ensures k in t'.entities && IsClosed(t'.entities[k].status)
      {
        assert !Writable(t.entities, k);
      }
    } else {
      FirstCreationAdds(t, fileId, requests);
    }
  }

  lemma PatchIsSound(t: Tables, writes: seq<EntityWrite>, emptyCount: nat)
    requires Inv(t) && UpdateEntities(t, writes, emptyCount).Ok?
    requires FileCapacity(UpdateEntities(t, writes, emptyCount).value)
    requires KeepsClosed(t, UpdateEntities(t, writes, emptyCount).value)
    ensures EntityWriteSound(t, UpdateEntities(t, writes, emptyCount).value)
  {
    UpdateNeverInserts(t, writes, emptyCount);
  }

  lemma ChangesetCompletionIsSound(t: Tables, changesetId: Id)
    requires Inv(t)
    ensures EntityWriteSound(t, CompleteChangeset(t, changesetId))
  {
    var t' := CompleteChangeset(t, changesetId);
    forall f
      ensures EntitiesOf(t'.entities, f) == EntitiesOf(t.entities, f)
    {
    }
  }

  /******* File requests *******/

  lemma {:induction false} InsertFilesEffect(files: map<Id, File>, syncId: Id, added: seq<NewFile>)
    requires forall i | 0 <= i < |added| :: added[i].fileId !in files
    requires NoDuplicates(FileIds(added))
    ensures var files' := InsertFiles(files, syncId, added);
            && files.Keys <= files'.Keys
            && (forall f | f in files :: files'[f] == files[f])
            && (forall i | 0 <= i < |added| ::
                  && added[i].fileId in files'
                  && files'[added[i].fileId] == File(syncId, added[i].status, added[i].totalEntities))
            && (forall f | f in files' && f !in files :: exists i | 0 <= i < |added| :: added[i].fileId == f)
    decreases |added|
  {
    if added != [] {
      var first := InsertFile(files, syncId, added[0]);
      var rest := added[1..];
      forall i | 0 <= i < |rest|
        ensures rest[i].fileId !in first
      {
        assert FileIds(added)[0] != FileIds(added)[i + 1];
      }
      assert FileIds(rest) == FileIds(added)[1..];
      InsertFilesEffect(first, syncId, rest);
      var files' := InsertFiles(files, syncId, added);
      forall i | 0 <= i < |added|
        ensures added[i].fileId in files'
        ensures files'[added[i].fileId] == File(syncId, added[i].status, added[i].totalEntities)
      {
        assert i > 0 ==> rest[i - 1] == added[i];
      }
      forall f | f in files' && f !in files
        ensures exists i | 0 <= i < |added| :: added[i].fileId == f
      {
        if f != added[0].fileId {
          var i :| 0 <= i < |rest| && rest[i].fileId == f;
          assert rest[i] == added[i + 1];
        }
      }
    }
  }

  lemma PostFileIsSound(t: Tables, syncId: Id, file: NewFile)
    requires Forest(t.syncs) && FilesHang(t) && FileCapacity(t) && SyncCapacity(t)
    requires CreateFile(t, syncId, file).Ok? && file.status == Status.InProgress
    requires FileCapacity(CreateFile(t, syncId, file).value) && SyncCapacity(CreateFile(t, syncId, file).value)
    ensures FileWriteSound(t, CreateFile(t, syncId, file).value)
  {
    assert t.syncs[syncId].baseSyncId.Some? ==> RerunSound(t.syncs, syncId);
    var root := Root(t.syncs, syncId);
    assert root in t.syncs && t.syncs[root].baseSyncId == None;
    assert CreateFile(t, syncId, file).value == t
           || CreateFile(t, syncId, file).value == t.(files := InsertFile(t.files, root, file));
  }

  lemma PostFilesIsSound(t: Tables, syncId: Id, files: seq<NewFile>)
    requires Inv(t) && CreateFiles(t, syncId, files).Ok?
    requires t.syncs[syncId].baseSyncId == None
    requires forall i | 0 <= i < |files| :: files[i].status == Status.InProgress
    requires FileCapacity(CreateFiles(t, syncId, files).value) && SyncCapacity(CreateFiles(t, syncId, files).value)
    ensures FileWriteSound(t, CreateFiles(t, syncId, files).value)
  {
    InsertFilesEffect(t.files, syncId, files);
  }

  /******* Every event *******/

  lemma ClientSyncKeepsInv(s: State, ev: Event)
    requires Inv(s.tables) && Admitted(s, ev) && (ev.PostSync? || ev.PatchSync?)
    ensures Inv(NextTables(s, ev))
  {
    var t, t' := s.tables, NextTables(s, ev);
    match ev
    case PostSync(id, row) =>
      if CreateSync(t, id, row).Ok? {
        PostSyncKeepsInv(t, id, row);
      }
    case PatchSync(id, patch) =>
      if id in t.syncs {
        assert SyncPatchSound(t, t', id);
        PatchSyncKeepsInv(t, t', id);
      }
  }

  lemma PostFileKeepsInv(t: Tables, r: Result<Tables>)
    requires Inv(t) && (r.Ok? ==> FileWriteSound(t, r.value))
    ensures Inv(Settle(t, r))
  {
    if r.Ok? {
      FileWriteKeepsInv(t, r.value);
    }
  }

  lemma ClientFileKeepsInv(s: State, ev: Event)
    requires Inv(s.tables) && Admitted(s, ev) && (ev.PostFile? || ev.PostFiles? || ev.PatchFile?)
    ensures Inv(NextTables(s, ev))
  {
    var t := s.tables;
    match ev
    case PostFile(syncId, file) =>
      if CreateFile(t, syncId, file).Ok? {
        PostFileIsSound(t, syncId, file);
      }
      PostFileKeepsInv(t, CreateFile(t, syncId, file));
    case PostFiles(syncId, files) =>
      if CreateFiles(t, syncId, files).Ok? {
        PostFilesIsSound(t, syncId, files);
      }
      PostFileKeepsInv(t, CreateFiles(t, syncId, files));
    case PatchFile(syncId, fileId, total) =>
      PostFileKeepsInv(t, UpdateFile(t, syncId, fileId, total));
  }

  lemma WriteKeepsInv(t: Tables, t': Tables)
    requires Inv(t) && (t' == t || EntityWriteSound(t, t'))
    ensures Inv(t')
  {
    if t' != t {
      EntityWriteKeepsInv(t, t');
    }
  }

  lemma SingleEntityKeepsInv(s: State, ev: Event)
    requires Inv(s.tables) && Admitted(s, ev) && (ev.PostEntity? || ev.PatchEntity?)
    ensures Inv(NextTables(s, ev))
  {
    WriteKeepsInv(s.tables, NextTables(s, ev));
  }

  lemma ManyEntitiesKeepInv(s: State, ev: Event)
    requires Inv(s.tables) && Admitted(s, ev)
    requires ev.PostEntities? || ev.PatchEntities? || ev.CompleteChangesetEntities?
    ensures Inv(NextTables(s, ev))
  {
    var t := s.tables;
    match ev
    case PostEntities(fileId, requests) =>
      if CreateEntities(t, fileId, requests).Ok? {
        BulkCreationIsSound(t, fileId, requests);
        WriteKeepsInv(t, NextTables(s, ev));
      }
    case PatchEntities(writes, emptyCount) =>
      if UpdateEntities(t, writes, emptyCount).Ok? {
        PatchIsSound(t, writes, emptyCount);
        WriteKeepsInv(t, NextTables(s, ev));
      }
    case CompleteChangesetEntities(c) =>
      ChangesetCompletionIsSound(t, c);
      WriteKeepsInv(t, NextTables(s, ev));
  }

  lemma JobKeepsInv(s: State, job: JobRef)
    requires Inv(s.tables) && Pending(s, job)
    ensures Inv(ProcessJob(s, job).tables)
  {
    match job
    case ChangesetJob(_) =>
    case FileJob(id) => FileClosureKeepsInv(s.tables, id);
    case SyncJob(id) => SyncClosureKeepsInv(s.tables, id);
  }

  lemma {:induction false} StepKeepsInv(s: State, ev: Event)
    requires Inv(s.tables) && Admitted(s, ev)
    ensures Inv(Next(s, ev).tables)
  {
    if ev.Rerun? {
      RerunKeepsInv(s.tables, ev.base, ev.rerunId, ev.notSynced, ev.last, ev.latest);
    } else if ev.Process? {
      JobKeepsInv(s, ev.job);
    } else if ev.PostSync? || ev.PatchSync? {
      ClientSyncKeepsInv(s, ev);
    } else if ev.PostFile? || ev.PostFiles? || ev.PatchFile? {
      ClientFileKeepsInv(s, ev);
    } else if ev.PostEntity? || ev.PatchEntity? {
      SingleEntityKeepsInv(s, ev);
    } else if ev.PostEntities? || ev.PatchEntities? || ev.CompleteChangesetEntities? {
      ManyEntitiesKeepInv(s, ev);
    }
  }

  lemma {:induction false} RunKeepsInv(s: State, evs: seq<Event>)
    requires Inv(s.tables) && AdmittedRun(s, evs)
    ensures Inv(Run(s, evs).tables)
    decreases |evs|
  {
    if evs != [] {
      StepKeepsInv(s, evs[0]);
      RunKeepsInv(Next(s, evs[0]), evs[1..]);
    }
  }

  /** Whatever clients that meet the hypotheses send, and however jobs and reruns interleave. */
  lemma {:induction false} ReachableInv(evs: seq<Event>)
    requires AdmittedRun(EMPTY, evs)
    ensures Inv(Run(EMPTY, evs).tables)
  {
    assert Inv(EMPTY.tables);
    RunKeepsInv(EMPTY, evs);
  }

  /** Some admitted run from the empty state ends here. */
  ghost predicate Reached(s: State) {
    exists evs :: AdmittedRun(EMPTY, evs) && Run(EMPTY, evs) == s
  }

  lemma EmptyIsReached()
    ensures Reached(EMPTY)
  {
    assert AdmittedRun(EMPTY, []) && Run(EMPTY, []) == EMPTY;
  }

  lemma ReachedHasInv(s: State)
    requires Reached(s)
    ensures Inv(s.tables)
  {
    var evs :| AdmittedRun(EMPTY, evs) && Run(EMPTY, evs) == s;
    ReachableInv(evs);
  }

  lemma NextIsReached(s: State, ev: Event)
    requires Reached(s) && Admitted(s, ev)
    ensures Reached(Next(s, ev))
  {
    var evs :| AdmittedRun(EMPTY, evs) && Run(EMPTY, evs) == s;
    RunOneMore(EMPTY, evs, ev);
    assert AdmittedRun(EMPTY, evs + [ev]) && Run(EMPTY, evs + [ev]) == Next(s, ev);
  }

  lemma {:induction false} RunOneMore(s: State, evs: seq<Event>, ev: Event)
    requires AdmittedRun(s, evs) && Admitted(Run(s, evs), ev)
    ensures AdmittedRun(s, evs + [ev]) && Run(s, evs + [ev]) == Next(Run(s, evs), ev)
    decreases |evs|
  {
    if evs == [] {
      assert [ev][1..] == [];
      assert AdmittedRun(Next(s, ev), []) && Run(Next(s, ev), []) == Next(s, ev);
      assert evs + [ev] == [ev];
    } else {
      RunOneMore(Next(s, evs[0]), evs[1..], ev);
      assert (evs + [ev])[1..] == evs[1..] + [ev];
    }
  }
}
