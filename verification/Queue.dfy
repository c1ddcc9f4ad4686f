/** Jobs, and a queue as the map from job id to waiting job. */
module Queue {
  import opened Types

  datatype Kind = ChangesetKind | FileKind | SyncKind

  datatype Counter = Deduplication | TransactionFailure

  /** A batch job carries the ids it stands for; `counters` holds the counts kept in its data. */
  datatype Job = Job(id: Id, kind: Kind, batchIds: Option<seq<Id>>, counters: map<Counter, nat>)

  type Waiting = map<Id, Job>

  function SingleJob(id: Id, kind: Kind): Job {
    Job(id, kind, None, map[])
  }

  function Increment(job: Job, counter: Counter): Job {
    var previous := if counter in job.counters then job.counters[counter] else 0;
    job.(counters := job.counters[counter := previous + 1])
  }

  /** Adding an id that is already waiting keeps the waiting job and counts the duplicate. */
  function Enqueue(q: Waiting, job: Job): Waiting {
    if job.id in q then q[job.id := Increment(q[job.id], Deduplication)] else q[job.id := job]
  }

  function EnqueueSeq(q: Waiting, jobs: seq<Job>): Waiting
    decreases |jobs|
  {
    if jobs == [] then q else EnqueueSeq(Enqueue(q, jobs[0]), jobs[1..])
  }

  /** Adds one single job for each id of a set, in whichever order. */
  function EnqueueIds(q: Waiting, ids: set<Id>, kind: Kind): Waiting {
    map id | id in q.Keys + ids ::
      if id !in q then SingleJob(id, kind)
      else if id in ids then Increment(q[id], Deduplication)
      else q[id]
  }

  /** The changesets a worker reads from a job. */
  function DecodeIds(job: Job): seq<Id> {
    match job.batchIds case None => [job.id] case Some(ids) => ids
  }

  function ToSet(ids: seq<Id>): set<Id> {
    set id | id in ids
  }
}
