/** The three workers and the retry wrapper, each proved against its step of the protocol. */
module Workers {
  import opened Types
  import opened Database
  import opened Queue
  import opened Batching
  import opened BullQueue
  import S = Statements
  import P = Protocol
  import Repositories
  import Retry

  class Tracker {
    const db: Database
    const changesets: BullQueue
    const files: BullQueue
    const syncs: BullQueue

    constructor (db: Database, changesets: BullQueue, files: BullQueue, syncs: BullQueue)
      requires changesets != files && changesets != syncs && files != syncs
      requires !files.config.batching && !syncs.config.batching
      ensures Valid() && this.db == db
      ensures this.changesets == changesets && this.files == files && this.syncs == syncs
    {
      this.db, this.changesets, this.files, this.syncs := db, changesets, files, syncs;
    }

    /** Three queues, of which the file and sync queues are not batched. */
    predicate Valid() {
      && changesets != files && changesets != syncs && files != syncs
      && !files.config.batching && !syncs.config.batching
    }

    function State(): P.State
      reads db, changesets, files, syncs
    {
      P.State(db.Rows(), P.Queues(changesets.waiting, files.waiting, syncs.waiting))
    }

    /******* The changesets worker *******/

    /** The distinct files holding an entity of one of the changesets and being in progress. */
    method FindFilesByChangesets(changesetIds: seq<Id>) returns (fileIds: seq<Id>)
      ensures Distinct(fileIds) && ToSet(fileIds) == S.FindFilesByChangesets(db.Rows(), ToSet(changesetIds))
    {
      fileIds := [];
      var todo := db.entities.Keys;
      assert ToSet(fileIds) == SeenFound(db.Rows(), todo, ToSet(changesetIds));
      while todo != {}
        invariant todo <= db.entities.Keys && Distinct(fileIds)
        invariant ToSet(fileIds) == SeenFound(db.Rows(), todo, ToSet(changesetIds))
        decreases todo
      {
        var k :| k in todo;
        ghost var seen, before := SeenFound(db.Rows(), todo, ToSet(changesetIds)), fileIds;
        todo := todo - {k};
        if k.fileId in db.files && db.files[k.fileId].status == Status.InProgress
           && db.entities[k].changesetId.Some? && db.entities[k].changesetId.value in changesetIds {
          if k.fileId !in fileIds {
            fileIds := fileIds + [k.fileId];
          }
          assert ToSet(fileIds) == ToSet(before) + {k.fileId};
          assert SeenFound(db.Rows(), todo, ToSet(changesetIds)) == seen + {k.fileId};
        } else {
          assert SeenFound(db.Rows(), todo, ToSet(changesetIds)) == seen;
        }
      }
      assert SeenFound(db.Rows(), {}, ToSet(changesetIds)) == S.FindFilesByChangesets(db.Rows(), ToSet(changesetIds));
    }

    method ProcessChangesetJob(id: Id)
      requires Valid() && id in changesets.waiting
      modifies changesets, files
      ensures State() == P.ChangesetStep(old(State()), id)
    {
      var fileIds := FindFilesByChangesets(DecodeIds(changesets.waiting[id]));
      if |fileIds| > 0 {
        var jobs := SingleJobs(fileIds, FileKind);
        PushedSingleJobs(fileIds, FileKind, files.config);
        EnqueueDistinct(files.waiting, fileIds, FileKind);
        files.Push(jobs);
      } else {
        EnqueueDistinct(files.waiting, fileIds, FileKind);
      }
      changesets.Finish(id);
    }

    /******* The files worker *******/

    method ProcessFileJob(id: Id)
      requires Valid() && id in files.waiting
      modifies db`files, files, syncs
      ensures State() == P.FileStep(old(State()), id)
    {
      var closed := Repositories.AttemptFileClosure(db, id);
      if closed.Some? {
        var job := SingleJob(closed.value, SyncKind);
        EnqueueOne(syncs.waiting, [job]);
        syncs.Push([job]);
      }
      files.Finish(id);
    }

    /******* The syncs worker *******/

    method ProcessSyncJob(id: Id) returns (closed: set<Id>)
      requires Valid() && id in syncs.waiting
      modifies db`syncs, syncs
      ensures State() == P.SyncStep(old(State()), id)
      ensures closed == set x | x in old(db.syncs) && S.SyncClosable(old(db.Rows()), id, x)
    {
      closed := Repositories.AttemptSyncClosure(db, id);
      syncs.Finish(id);
    }

    /******* The wrapper *******/

    /** Aborted: the failure is counted and the job delayed. Another error is rethrown. Otherwise the job is done. */
    method ProcessJobWrapper(job: P.JobRef, outcome: Retry.Outcome, random: real, minimum: int, maximum: int)
      returns (signal: Signal)
      requires Valid() && P.Pending(State(), job) && 0.0 <= random < 1.0
      modifies db`files, db`syncs, changesets, files, syncs
      ensures State() == Retry.Attempted(old(State()), Retry.Try(P.Process(job), outcome))
      ensures match outcome
              case Done => signal == Returned
              case Errored => signal == Rethrown
              case Aborted =>
                && signal.Delayed? && DelayOf(job) == Some(signal.delay)
                && (minimum <= maximum ==> minimum <= signal.delay <= maximum)
    {
      if outcome.Done? {
        match job {
          case ChangesetJob(id) => ProcessChangesetJob(id);
          case FileJob(id) => ProcessFileJob(id);
          case SyncJob(id) => var _ := ProcessSyncJob(id);
        }
        return Returned;
      }
      var delay := Retry.RandomInt(random, minimum, maximum);
      if outcome.Errored? { return Rethrown; }
      Retry.DelayIsWithinBounds(random, minimum, maximum);
      match job {
        case ChangesetJob(id) => CountAndDelay(changesets, id, delay);
        case FileJob(id) => CountAndDelay(files, id, delay);
        case SyncJob(id) => CountAndDelay(syncs, id, delay);
      }
      signal := Delayed(delay);
    }

    ghost function DelayOf(job: P.JobRef): Option<int>
      reads changesets, files, syncs
    {
      var (queue, id) :=
        match job
        case ChangesetJob(id) => (changesets, id)
        case FileJob(id) => (files, id)
        case SyncJob(id) => (syncs, id);
      if id in queue.delays then Some(queue.delays[id]) else None
    }
  }

  method CountAndDelay(queue: BullQueue, id: Id, delay: int)
    requires id in queue.waiting
    modifies queue`waiting, queue`delays
    ensures queue.waiting == Retry.Failed(old(queue.waiting), id)
    ensures queue.delays == old(queue.delays)[id := delay]
  {
    queue.UpdateJobCounter(id, TransactionFailure);
    queue.DelayJob(id, delay);
  }

  /** What the wrapper tells the queue. */
  datatype Signal = Returned | Delayed(delay: int) | Rethrown

  ghost predicate Distinct(ids: seq<Id>) {
    forall i, j | 0 <= i < j < |ids| :: ids[i] != ids[j]
  }

  function SeenFound(t: Tables, todo: set<EntityKey>, changesets: set<Id>): set<Id> {
    set k | k in t.entities && k !in todo && k.fileId in t.files && t.files[k.fileId].status == Status.InProgress
            && t.entities[k].changesetId.Some? && t.entities[k].changesetId.value in changesets
      :: k.fileId
  }

  lemma EnqueueThenRest(q: Waiting, first: Id, rest: set<Id>, kind: Kind)
    requires first !in rest
    ensures EnqueueIds(Enqueue(q, SingleJob(first, kind)), rest, kind) == EnqueueIds(q, {first} + rest, kind)
  {
    var q' := Enqueue(q, SingleJob(first, kind));
    assert EnqueueIds(q', rest, kind).Keys == EnqueueIds(q, {first} + rest, kind).Keys;
  }

  /** Pushing distinct ids one by one, in any order, is adding them as a set. */
  lemma {:induction false} EnqueueDistinct(q: Waiting, ids: seq<Id>, kind: Kind)
    requires Distinct(ids)
    ensures EnqueueSeq(q, SingleJobs(ids, kind)) == EnqueueIds(q, ToSet(ids), kind)
    decreases |ids|
  {
    if ids == [] {
      assert EnqueueIds(q, ToSet(ids), kind) == q;
    } else {
      assert SingleJobs(ids, kind)[1..] == SingleJobs(ids[1..], kind);
      EnqueueDistinct(Enqueue(q, SingleJob(ids[0], kind)), ids[1..], kind);
      EnqueueThenRest(q, ids[0], ToSet(ids[1..]), kind);
      assert ToSet(ids) == {ids[0]} + ToSet(ids[1..]);
    }
  }
}
