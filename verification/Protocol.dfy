/**
 The tracker as one state machine: the tables, the three queues, and every client request, rerun and
 job as an atomic step. The hypotheses on clients (H1 to H4 of README.md) are predicates on steps.
 */
module Protocol {
  import opened Types
  import opened Statements
  import opened Requests
  import opened Queue

  datatype Queues = Queues(changesets: Waiting, files: Waiting, syncs: Waiting)

  datatype State = State(tables: Tables, queues: Queues)

  datatype JobRef = ChangesetJob(id: Id) | FileJob(id: Id) | SyncJob(id: Id)

  datatype Event =
    | PostSync(id: Id, sync: Sync)
    | PatchSync(id: Id, patch: SyncPatch)
    | PostFile(syncId: Id, file: NewFile)
    | PostFiles(syncId: Id, files: seq<NewFile>)
    | PatchFile(syncId: Id, fileId: Id, totalEntities: Field<Option<int>>)
    | PostEntity(write: EntityWrite)
    | PostEntities(fileId: Id, requests: seq<NewEntity>)
    | PatchEntity(write: EntityWrite)
    | PatchEntities(writes: seq<EntityWrite>, emptyCount: nat)
    | CompleteChangesetEntities(changesetId: Id)
    | Rerun(base: Id, rerunId: Id, notSynced: bool, last: Option<Id>, latest: Option<Id>)
    | PushChangesets(jobs: seq<Job>)
    | PushFiles(jobs: seq<Job>)
    | PushSyncs(jobs: seq<Job>)
    | Process(job: JobRef)

  /******* The workers *******/

  predicate Pending(s: State, job: JobRef) {
    match job
    case ChangesetJob(id) => id in s.queues.changesets
    case FileJob(id) => id in s.queues.files
    case SyncJob(id) => id in s.queues.syncs
  }

  function ChangesetStep(s: State, id: Id): State
    requires id in s.queues.changesets
  {
    var found := FindFilesByChangesets(s.tables, ToSet(DecodeIds(s.queues.changesets[id])));
    s.(queues := s.queues.(changesets := s.queues.changesets - {id},
                           files := EnqueueIds(s.queues.files, found, FileKind)))
  }

  function FileStep(s: State, id: Id): State {
    var rest := s.queues.(files := s.queues.files - {id});
    if FileClosable(s.tables, id) then
      State(AttemptFileClosure(s.tables, id),
            rest.(syncs := Enqueue(rest.syncs, SingleJob(s.tables.files[id].syncId, SyncKind))))
    else s.(queues := rest)
  }

  function SyncStep(s: State, id: Id): State {
    State(AttemptSyncClosure(s.tables, id), s.queues.(syncs := s.queues.syncs - {id}))
  }

  function ProcessJob(s: State, job: JobRef): State
    requires Pending(s, job)
  {
    match job
    case ChangesetJob(id) => ChangesetStep(s, id)
    case FileJob(id) => FileStep(s, id)
    case SyncJob(id) => SyncStep(s, id)
  }

  /******* Steps *******/

  function Settle(t: Tables, r: Result<Tables>): Tables {
    match r case Err(_) => t case Ok(t') => t'
  }

  /** The tables after an event; a refused request leaves them unchanged. */
  function NextTables(s: State, ev: Event): Tables {
    var t := s.tables;
    match ev
    case PostSync(id, row) => Settle(t, CreateSync(t, id, row))
    case PatchSync(id, patch) => Settle(t, UpdateSync(t, id, patch))
    case PostFile(syncId, file) => Settle(t, CreateFile(t, syncId, file))
    case PostFiles(syncId, files) => Settle(t, CreateFiles(t, syncId, files))
    case PatchFile(syncId, fileId, total) => Settle(t, UpdateFile(t, syncId, fileId, total))
    case PostEntity(w) => Settle(t, CreateEntity(t, w))
    case PostEntities(fileId, requests) =>
      (match CreateEntities(t, fileId, requests) case Err(_) => t case Ok(outcome) => outcome.tables)
    case PatchEntity(w) => Settle(t, UpdateEntity(t, w))
    case PatchEntities(writes, emptyCount) => Settle(t, UpdateEntities(t, writes, emptyCount))
    case CompleteChangesetEntities(c) => CompleteChangeset(t, c)
    case Rerun(base, rerunId, notSynced, last, latest) =>
      if last.Some? && last.value !in t.syncs then t
      else
        (match RerunSyncIfNeeded(t, base, rerunId, notSynced, last, latest)
         case Err(_) => t case Ok(outcome) => outcome.tables)
    case PushChangesets(_) => t
    case PushFiles(_) => t
    case PushSyncs(_) => t
    case Process(job) => if Pending(s, job) then ProcessJob(s, job).tables else t
  }

  function NextQueues(s: State, ev: Event): Queues {
    var q := s.queues;
    match ev
    case PushChangesets(jobs) => q.(changesets := EnqueueSeq(q.changesets, jobs))
    case PushFiles(jobs) => q.(files := EnqueueSeq(q.files, jobs))
    case PushSyncs(jobs) => q.(syncs := EnqueueSeq(q.syncs, jobs))
    case Process(job) => if Pending(s, job) then ProcessJob(s, job).queues else q
    case _ => q
  }

  function Next(s: State, ev: Event): State {
    State(NextTables(s, ev), NextQueues(s, ev))
  }

  function Run(s: State, evs: seq<Event>): State
    decreases |evs|
  {
    if evs == [] then s else Run(Next(s, evs[0]), evs[1..])
  }

  const EMPTY := State(Tables(map[], map[], map[], map[]), Queues(map[], map[], map[]))

  /******* Hypotheses on clients *******/

  /** The base sync whose files count for sync or rerun `x`. */
  function Root(syncs: map<Id, Sync>, x: Id): Id
    requires x in syncs
  {
    match syncs[x].baseSyncId case None => x case Some(b) => b
  }

  ghost predicate FileCapacity(t: Tables) {
    forall f | f in t.files && t.files[f].totalEntities.Some? ::
      |EntitiesOf(t.entities, f)| <= t.files[f].totalEntities.value
  }

  ghost predicate SyncCapacity(t: Tables) {
    forall x | x in t.syncs && t.syncs[x].totalFiles.Some? ::
      |FilesOf(t.files, Root(t.syncs, x))| <= t.syncs[x].totalFiles.value
  }

  /** A total that is set stays. */
  ghost predicate TotalsFixed(t: Tables, t': Tables) {
    && (forall x | x in t.syncs && t.syncs[x].totalFiles.Some? ::
          x in t'.syncs && t'.syncs[x].totalFiles == t.syncs[x].totalFiles)
    && (forall f | f in t.files && t.files[f].totalEntities.Some? ::
          f in t'.files && t'.files[f].totalEntities == t.files[f].totalEntities)
  }

  ghost predicate KeepsTotals(t: Tables, t': Tables) {
    TotalsFixed(t, t') && FileCapacity(t') && SyncCapacity(t')
  }

  /** No closed entity is reopened. */
  ghost predicate KeepsClosed(t: Tables, t': Tables) {
    forall k | k in t.entities && IsClosed(t.entities[k].status) ::
      k in t'.entities && IsClosed(t'.entities[k].status)
  }

  /** No completed entity leaves completed. */
  ghost predicate KeepsCompleted(t: Tables, t': Tables) {
    forall k | k in t.entities && t.entities[k].status == EntityStatus.Completed ::
      k in t'.entities && t'.entities[k].status == EntityStatus.Completed
  }

  ghost predicate Admitted(s: State, ev: Event) {
    var t, t' := s.tables, NextTables(s, ev);
    match ev
    case PostSync(_, row) =>
      && row.baseSyncId == None && row.runNumber == 0 && row.status != Status.Completed
      && KeepsTotals(t, t')
    case PatchSync(id, patch) =>
      && (patch.status == Absent
          || (id in t.syncs && t.syncs[id].status == patch.status.value)
          || (id in t.syncs && t.syncs[id].status == Status.InProgress && patch.status.value == Status.Failed))
      && KeepsTotals(t, t')
    case PostFile(_, file) => file.status == Status.InProgress && KeepsTotals(t, t')
    case PostFiles(syncId, files) =>
      && (forall i | 0 <= i < |files| :: files[i].status == Status.InProgress)
      && (syncId in t.syncs ==> t.syncs[syncId].baseSyncId == None)
      && KeepsTotals(t, t')
    case PatchFile(_, _, _) => KeepsTotals(t, t')
    case PostEntity(_) => KeepsTotals(t, t')
    case PostEntities(_, _) => KeepsTotals(t, t')
    case PatchEntity(_) => KeepsTotals(t, t') && KeepsClosed(t, t')
    case PatchEntities(_, _) => KeepsTotals(t, t') && KeepsClosed(t, t')
    case Rerun(base, _, _, last, latest) => IsLastRerun(t.syncs, base, last) && IsLastRerun(t.syncs, base, latest)
    case Process(job) => Pending(s, job)
    case _ => true
  }

  ghost predicate AdmittedRun(s: State, evs: seq<Event>)
    decreases |evs|
  {
    evs == [] || (Admitted(s, evs[0]) && AdmittedRun(Next(s, evs[0]), evs[1..]))
  }
}
