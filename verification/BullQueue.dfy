/** The queue provider: hashing a batch in place, and pushing jobs one by one, in bulk or in batches. */
module BullQueue {
  import opened Types
  import opened Queue
  import opened Hashing
  import opened Batching

  /** Sorts the batch where it is stored and returns the digest of its joined ids. */
  method HashBatch(input: array<Id>, c: Config) returns (hash: string)
    modifies input
    ensures input[..] == Sorted(old(input[..]), c.leq)
    ensures hash == c.digest(BatchText(old(input[..]), c.leq))
  {
    var sorted := Sorted(input[..], c.leq);
    SortedSize(input[..], c.leq);
    for i := 0 to input.Length
      invariant input[..i] == sorted[..i]
    {
      input[i] := sorted[i];
    }
    hash := c.digest(Join(input[..]));
  }

  class BullQueue {
    const config: Config
    /** The jobs in the delayed state, and for how long. */
    var waiting: Waiting
    var delays: map<Id, int>
    /** The jobs that have left the delayed state and are still stored. */
    var processed: Waiting

    constructor (config: Config)
      ensures this.config == config && waiting == map[] && delays == map[] && processed == map[]
    {
      this.config := config;
      waiting, delays, processed := map[], map[], map[];
    }

    /** The waiting jobs after the delay of a job was to be changed. */
    ghost function AfterChange(id: Id): Waiting
      reads this
    {
      if id in waiting then waiting[id := Increment(waiting[id], Deduplication)]
      else if id in processed then Enqueue(waiting, processed[id])
      else waiting
    }

    /** A delayed job gets the new delay and a duplicate counted; one that has left is added again as it was. */
    method ChangeJobDelay(id: Id, delay: int)
      modifies this`waiting, this`delays
      ensures waiting == old(AfterChange(id))
      ensures id in old(waiting) ==> delays == old(delays)[id := delay]
      ensures id !in old(waiting) && id in processed ==> delays == old(DelaysWith(processed[id]))
      ensures id !in old(waiting) && id !in processed ==> delays == old(delays)
      decreases if id in waiting then 0 else 2
    {
      if id !in waiting && id !in processed { return; }
      if id !in waiting {
        AddJob(processed[id]);
        return;
      }
      DelayJob(id, delay);
      UpdateJobCounter(id, Deduplication);
    }

    /** The delays after adding a job: a new one waits the queue's delay, a duplicate sets the deduplication delay. */
    ghost function DelaysWith(job: Job): map<Id, int>
      reads this
    {
      delays[job.id := if job.id in waiting then config.deduplicationDelay else config.delay]
    }

    method AddJob(job: Job)
      modifies this`waiting, this`delays
      ensures waiting == Enqueue(old(waiting), job)
      ensures delays == old(DelaysWith(job))
      decreases 1
    {
      if job.id in waiting {
        ChangeJobDelay(job.id, config.deduplicationDelay);
      } else {
        delays := delays[job.id := config.delay];
        waiting := waiting[job.id := job];
      }
    }

    /** The job was processed. */
    method Finish(id: Id)
      requires id in waiting
      modifies this`waiting, this`delays, this`processed
      ensures waiting == old(waiting) - {id} && delays == old(delays) - {id}
      ensures processed == old(processed)[id := old(waiting)[id]]
    {
      processed := processed[id := waiting[id]];
      waiting, delays := waiting - {id}, delays - {id};
    }

    method DelayJob(id: Id, delay: int)
      requires id in waiting
      modifies this`delays
      ensures delays == old(delays)[id := delay]
    {
      delays := delays[id := delay];
    }

    method UpdateJobCounter(id: Id, counter: Counter)
      requires id in waiting
      modifies this`waiting
      ensures waiting == old(waiting)[id := Increment(old(waiting)[id], counter)]
    {
      waiting := waiting[id := Increment(waiting[id], counter)];
    }

    method AddBulk(bulk: seq<Job>)
      modifies this`waiting, this`delays
      ensures waiting == EnqueueSeq(old(waiting), bulk)
    {
      ghost var goal := EnqueueSeq(waiting, bulk);
      for i := 0 to |bulk|
        invariant EnqueueSeq(waiting, bulk[i..]) == goal
      {
        assert bulk[i..][1..] == bulk[i + 1..];
        AddJob(bulk[i]);
      }
    }

    method Push(jobs: seq<Job>)
      requires config.batching ==> 1 <= config.maxBatch
      modifies this`waiting, this`delays
      ensures waiting == EnqueueSeq(old(waiting), PushedJobs(jobs, config))
    {
      if |jobs| == 1 {
        EnqueueOne(waiting, jobs);
        AddJob(jobs[0]);
        return;
      }
      if !config.batching {
        AddBulk(jobs);
        return;
      }
      var bulk := MakeBatches(jobs);
      AddBulk(bulk);
    }

    /** The loop of `push`: one batch job for each slice of the jobs. */
    method MakeBatches(jobs: seq<Job>) returns (bulk: seq<Job>)
      requires config.batching && 1 <= config.maxBatch && |jobs| != 1
      ensures bulk == PushedJobs(jobs, config)
    {
      bulk := [];
      var max := config.maxBatch;
      ghost var ids, goal := JobIds(jobs), PushedJobs(jobs, config);
      ghost var chunks := Chunks(ids, max);
      PushedBatches(jobs, config);
      var i := 0;
      while i < |jobs|
        invariant 0 <= i
        invariant |bulk| <= |chunks| && Chunks(Rest(ids, i), max) == chunks[|bulk|..]
        invariant bulk == goal[..|bulk|]
        decreases |jobs| - i
      {
        var end := if i + max <= |jobs| then i + max else |jobs|;
        NextChunk(ids, i, max, chunks, |bulk|);
        var batchJob := MakeBatch(jobs, i, end);
        assert batchJob == goal[|bulk|];
        bulk := bulk + [batchJob];
        i := i + max;
      }
    }

    /** Copies the first job's data under the digest of the sliced ids; the stored ids are the sorted ones. */
    method MakeBatch(jobs: seq<Job>, i: nat, end: nat) returns (job: Job)
      requires i < end <= |jobs|
      ensures job == BatchFrom(jobs[0], JobIds(jobs)[i..end], config)
    {
      var ids := JobIds(jobs[i..end]);
      SlicedIds(jobs, i, end);
      var batchIds := new Id[|ids|](n requires 0 <= n < |ids| => ids[n]);
      assert batchIds[..] == ids;
      var batchId := HashBatch(batchIds, config);
      job := jobs[0].(id := batchId, batchIds := Some(batchIds[..]));
    }

    /** Queues one closure for each distinct id. */
    method CreateClosures(ids: seq<Id>, kind: Kind)
      requires config.batching ==> 1 <= config.maxBatch
      modifies this`waiting, this`delays
      ensures waiting == Batching.CreateClosures(old(waiting), ids, kind, config)
    {
      var unique := Dedupe(ids);
      PushedSingleJobs(unique, kind, config);
      Push(SingleJobs(unique, kind));
    }
  }

  lemma EnqueueOne(q: Waiting, jobs: seq<Job>)
    requires |jobs| == 1
    ensures EnqueueSeq(q, jobs) == Enqueue(q, jobs[0])
  {
    assert jobs[1..] == [];
    assert EnqueueSeq(Enqueue(q, jobs[0]), []) == Enqueue(q, jobs[0]);
  }

  lemma SlicedIds(jobs: seq<Job>, i: nat, end: nat)
    requires i <= end <= |jobs|
    ensures JobIds(jobs[i..end]) == JobIds(jobs)[i..end]
  {
  }

  lemma PushedBatches(jobs: seq<Job>, c: Config)
    requires c.batching && 1 <= c.maxBatch && |jobs| != 1
    ensures var chunks, pushed := Chunks(JobIds(jobs), c.maxBatch), PushedJobs(jobs, c);
            && |pushed| == |chunks|
            && forall n | 0 <= n < |chunks| :: |jobs| > 0 && pushed[n] == BatchFrom(jobs[0], chunks[n], c)
  {
  }

  /** The ids from index `i` on, none beyond the end. */
  function Rest(ids: seq<Id>, i: nat): seq<Id> {
    if i <= |ids| then ids[i..] else []
  }

  /** The loop's slice is the next chunk. */
  lemma NextChunk(ids: seq<Id>, i: nat, max: int, chunks: seq<seq<Id>>, n: nat)
    requires 1 <= max && i < |ids| && n <= |chunks| && Chunks(Rest(ids, i), max) == chunks[n..]
    ensures n < |chunks| && chunks[n] == ids[i..if i + max <= |ids| then i + max else |ids|]
    ensures Chunks(Rest(ids, i + max), max) == chunks[n + 1..]
  {
    var rest := ids[i..];
    if |rest| <= max {
      assert chunks[n..] == [rest];
      assert Rest(ids, i + max) == [];
    } else {
      assert chunks[n..] == [rest[..max]] + Chunks(rest[max..], max);
      assert rest[max..] == Rest(ids, i + max);
    }
    assert chunks[n] == chunks[n..][0] && chunks[n + 1..] == chunks[n..][1..];
  }
}
