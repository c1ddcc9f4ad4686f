/** Queuing changeset closures: deduplication, batches, and what the waiting jobs stand for. */
module Batching {
  import opened Types
  import opened Statements
  import opened Requests
  import opened Queue
  import opened Protocol
  import opened Invariant
  import opened Hashing
  import opened Drain

  /** The queue's options; `digest` is the hash function, of which nothing is known here. */
  datatype Config = Config(
    batching: bool, maxBatch: int, delay: int, deduplicationDelay: int, leq: Order, digest: string -> string)

  /** The ids without repetitions, in the order of their first occurrence. */
  function Dedupe(ids: seq<Id>): seq<Id> {
    if ids == [] then []
    else
      var before := Dedupe(ids[..|ids| - 1]);
      if ids[|ids| - 1] in before then before else before + [ids[|ids| - 1]]
  }

  function Chunks(ids: seq<Id>, max: int): seq<seq<Id>>
    requires 1 <= max
    decreases |ids|
  {
    if ids == [] then []
    else if |ids| <= max then [ids]
    else [ids[..max]] + Chunks(ids[max..], max)
  }

  function BatchJob(chunk: seq<Id>, kind: Kind, c: Config): Job {
    Job(c.digest(BatchText(chunk, c.leq)), kind, Some(Sorted(chunk, c.leq)), map[])
  }

  function SingleJobs(ids: seq<Id>, kind: Kind): seq<Job> {
    seq(|ids|, i requires 0 <= i < |ids| => SingleJob(ids[i], kind))
  }

  function BatchJobs(chunks: seq<seq<Id>>, kind: Kind, c: Config): seq<Job> {
    seq(|chunks|, i requires 0 <= i < |chunks| => BatchJob(chunks[i], kind, c))
  }

  /** The jobs `push` adds for a list of ids. */
  function JobsFor(ids: seq<Id>, kind: Kind, c: Config): seq<Job>
    requires c.batching ==> 1 <= c.maxBatch
  {
    if |ids| == 1 || !c.batching then SingleJobs(ids, kind)
    else BatchJobs(Chunks(ids, c.maxBatch), kind, c)
  }

  /** What `push` adds for any list of jobs: batches copy the data of the first job. */
  function PushedJobs(jobs: seq<Job>, c: Config): seq<Job>
    requires c.batching ==> 1 <= c.maxBatch
  {
    if |jobs| <= 1 || !c.batching then jobs
    else
      var chunks := Chunks(JobIds(jobs), c.maxBatch);
      seq(|chunks|, i requires 0 <= i < |chunks| => BatchFrom(jobs[0], chunks[i], c))
  }

  function JobIds(jobs: seq<Job>): seq<Id> {
    seq(|jobs|, i requires 0 <= i < |jobs| => jobs[i].id)
  }

  function BatchFrom(first: Job, chunk: seq<Id>, c: Config): Job {
    first.(id := c.digest(BatchText(chunk, c.leq)), batchIds := Some(Sorted(chunk, c.leq)))
  }

  lemma PushedSingleJobs(ids: seq<Id>, kind: Kind, c: Config)
    requires c.batching ==> 1 <= c.maxBatch
    ensures PushedJobs(SingleJobs(ids, kind), c) == JobsFor(ids, kind, c)
  {
    assert JobIds(SingleJobs(ids, kind)) == ids;
  }

  /** The queue after a request to close changesets, files or syncs. */
  function CreateClosures(q: Waiting, ids: seq<Id>, kind: Kind, c: Config): Waiting
    requires c.batching ==> 1 <= c.maxBatch
  {
    EnqueueSeq(q, JobsFor(Dedupe(ids), kind, c))
  }

  /******* Deduplication *******/

  lemma {:induction false} DedupeKeepsFirsts(ids: seq<Id>)
    ensures NoDuplicates(Dedupe(ids)) && ToSet(Dedupe(ids)) == ToSet(ids)
    ensures forall n | 0 <= n <= |ids| :: Dedupe(ids[..n]) <= Dedupe(ids)
  {
    if ids != [] {
      var n := |ids| - 1;
      DedupeKeepsFirsts(ids[..n]);
      assert ids == ids[..n] + [ids[n]];
      assert Dedupe(ids) == if ids[n] in Dedupe(ids[..n]) then Dedupe(ids[..n]) else Dedupe(ids[..n]) + [ids[n]];
      forall m | 0 <= m <= |ids|
        ensures Dedupe(ids[..m]) <= Dedupe(ids)
      {
        if m == |ids| {
          assert ids[..m] == ids;
        } else {
          assert ids[..n][..m] == ids[..m];
        }
      }
      assert ToSet(ids) == ToSet(ids[..n]) + {ids[n]};
      forall id
        ensures id in ToSet(Dedupe(ids)) <==> id in ToSet(Dedupe(ids[..n])) || id == ids[n]
      {
      }
    } else {
      assert Dedupe(ids) == [];
    }
  }

  /******* Batches *******/

  function Flatten(chunks: seq<seq<Id>>): seq<Id> {
    if chunks == [] then [] else chunks[0] + Flatten(chunks[1..])
  }

  /** The batches cut the list into non-empty pieces of at most `max`, as few as possible. */
  lemma {:induction false} ChunksCut(ids: seq<Id>, max: int)
    requires 1 <= max
    ensures Flatten(Chunks(ids, max)) == ids
    ensures forall i | 0 <= i < |Chunks(ids, max)| :: 1 <= |Chunks(ids, max)[i]| <= max
    ensures |Chunks(ids, max)| == (|ids| + max - 1) / max
    decreases |ids|
  {
    if ids == [] {
      NoChunk(max);
    } else if |ids| <= max {
      assert Chunks(ids, max) == [ids];
      assert Flatten([ids]) == ids + Flatten([]);
      OneChunk(|ids|, max);
    } else {
      ChunksCut(ids[max..], max);
      var rest := Chunks(ids[max..], max);
      assert ([ids[..max]] + rest)[1..] == rest;
      assert ids == ids[..max] + ids[max..];
      MoreChunks(|ids|, max);
    }
  }

  lemma NoChunk(max: int)
    requires 1 <= max
    ensures (max - 1) / max == 0
  {
  }

  lemma OneChunk(n: int, max: int)
    requires 1 <= n <= max
    ensures (n + max - 1) / max == 1
  {
    assert n + max - 1 == max * 1 + (n - 1);
  }

  lemma MoreChunks(n: int, max: int)
    requires 1 <= max < n
    ensures (n + max - 1) / max == (n - max + max - 1) / max + 1
  {
    var q := (n - 1) / max;
    assert n - max + max - 1 == n - 1;
    Quotient(n - 1, max, q);
    assert (q + 1) * max == q * max + max;
    QuotientIsUnique(n - 1 + max, max, q + 1);
  }

  lemma Quotient(x: int, m: int, q: int)
    requires 0 < m && q == x / m
    ensures q * m <= x < q * m + m
  {
  }

  lemma QuotientIsUnique(x: int, m: int, q: int)
    requires 0 < m && q * m <= x < q * m + m
    ensures x / m == q
  {
    var p := x / m;
    Quotient(x, m, p);
    assert (p + 1) * m == p * m + m && (q + 1) * m == q * m + m;
    if p < q {
      Scaled(p + 1, q, m);
    } else if q < p {
      Scaled(q + 1, p, m);
    }
  }

  lemma Scaled(a: int, b: int, m: int)
    requires a <= b && 0 < m
    ensures a * m <= b * m
  {
  }

  function DecodeAll(jobs: seq<Job>): seq<Id> {
    if jobs == [] then [] else DecodeIds(jobs[0]) + DecodeAll(jobs[1..])
  }

  lemma {:induction false} SingleJobsDecode(ids: seq<Id>, kind: Kind)
    ensures DecodeAll(SingleJobs(ids, kind)) == ids
  {
    if ids != [] {
      SingleJobsDecode(ids[1..], kind);
      assert SingleJobs(ids, kind)[1..] == SingleJobs(ids[1..], kind);
      assert ids == [ids[0]] + ids[1..];
    }
  }

  lemma {:induction false} BatchJobsDecode(chunks: seq<seq<Id>>, kind: Kind, c: Config)
    requires TotalPreorder(c.leq)
    ensures multiset(DecodeAll(BatchJobs(chunks, kind, c))) == multiset(Flatten(chunks))
  {
    if chunks != [] {
      var jobs := BatchJobs(chunks, kind, c);
      BatchJobsDecode(chunks[1..], kind, c);
      assert jobs[1..] == BatchJobs(chunks[1..], kind, c);
      assert DecodeAll(jobs) == Sorted(chunks[0], c.leq) + DecodeAll(jobs[1..]);
      SortedSorts(chunks[0], c.leq);
    }
  }

  /** The workers read each distinct requested id exactly once from the jobs of a request. */
  lemma {:induction false} JobsDecodeToRequest(ids: seq<Id>, kind: Kind, c: Config)
    requires TotalPreorder(c.leq) && (c.batching ==> 1 <= c.maxBatch)
    ensures var decoded := DecodeAll(JobsFor(Dedupe(ids), kind, c));
            && multiset(decoded) == multiset(Dedupe(ids))
            && (forall id :: multiset(decoded)[id] == if id in ids then 1 else 0)
  {
    var unique := Dedupe(ids);
    DedupeKeepsFirsts(ids);
    if |unique| == 1 || !c.batching {
      SingleJobsDecode(unique, kind);
    } else {
      BatchJobsDecode(Chunks(unique, c.maxBatch), kind, c);
      ChunksCut(unique, c.maxBatch);
    }
    forall id
      ensures multiset(unique)[id] == if id in ids then 1 else 0
    {
      assert id in ToSet(unique) <==> id in ToSet(ids);
      OccursOnce(unique, id);
    }
  }

  lemma {:induction false} OccursOnce(ids: seq<Id>, id: Id)
    requires NoDuplicates(ids)
    ensures multiset(ids)[id] == if id in ids then 1 else 0
  {
    if ids != [] {
      assert ids == [ids[0]] + ids[1..];
      OccursOnce(ids[1..], id);
    }
  }

  /** The files for which the jobs of a request send file jobs, each job queried on its own. */
  function ScheduledFiles(t: Tables, jobs: seq<Job>): set<Id> {
    if jobs == [] then {}
    else FindFilesByChangesets(t, ToSet(DecodeIds(jobs[0]))) + ScheduledFiles(t, jobs[1..])
  }

  lemma {:induction false} ScheduledIsOneQuery(t: Tables, jobs: seq<Job>)
    ensures ScheduledFiles(t, jobs) == FindFilesByChangesets(t, ToSet(DecodeAll(jobs)))
  {
    if jobs != [] {
      ScheduledIsOneQuery(t, jobs[1..]);
      FindFilesSplits(t, ToSet(DecodeIds(jobs[0])), ToSet(DecodeAll(jobs[1..])));
      assert ToSet(DecodeAll(jobs)) == ToSet(DecodeIds(jobs[0])) + ToSet(DecodeAll(jobs[1..]));
    }
  }

  /** However the request is batched, its jobs reach the files of one query over all requested changesets. */
  lemma {:induction false} BatchesReachSameFiles(t: Tables, ids: seq<Id>, kind: Kind, c: Config)
    requires TotalPreorder(c.leq) && (c.batching ==> 1 <= c.maxBatch)
    ensures ScheduledFiles(t, JobsFor(Dedupe(ids), kind, c)) == FindFilesByChangesets(t, ToSet(ids))
  {
    var jobs := JobsFor(Dedupe(ids), kind, c);
    JobsDecodeToRequest(ids, kind, c);
    ScheduledIsOneQuery(t, jobs);
    forall id
      ensures id in DecodeAll(jobs) <==> id in ids
    {
      assert id in multiset(DecodeAll(jobs)) <==> id in ids;
    }
    assert ToSet(DecodeAll(jobs)) == ToSet(ids);
  }

  /** More than one id with batching on: the number of jobs is the ceiling of the quotient. */
  lemma {:induction false} BatchCount(ids: seq<Id>, kind: Kind, c: Config)
    requires c.batching && 1 <= c.maxBatch && |ids| > 1
    ensures |JobsFor(ids, kind, c)| == (|ids| + c.maxBatch - 1) / c.maxBatch
  {
    ChunksCut(ids, c.maxBatch);
  }

  /******* Merging with waiting jobs *******/

  /** The texts whose digests are the ids of the batch jobs in a list. */
  function TextsOf(jobs: seq<Job>, leq: Order): set<string> {
    set i | 0 <= i < |jobs| && jobs[i].batchIds.Some? :: BatchText(jobs[i].batchIds.value, leq)
  }

  /** The same of the waiting jobs. */
  function WaitingTexts(q: Waiting, leq: Order): set<string> {
    set id | id in q && q[id].batchIds.Some? :: BatchText(q[id].batchIds.value, leq)
  }

  /** The digest tells the given texts apart, and none of their digests is as long as an id. */
  ghost predicate Collisionless(c: Config, n: nat, texts: set<string>) {
    && 0 < n
    && (forall x | x in texts :: |c.digest(x)| != n)
    && (forall x, y | x in texts && y in texts && c.digest(x) == c.digest(y) :: x == y)
  }

  /** A job whose id tells what it stands for. */
  ghost predicate Honest(job: Job, c: Config, n: nat) {
    match job.batchIds
    case None => |job.id| == n
    case Some(ids) => OfLength(ids, n) && job.id == c.digest(BatchText(ids, c.leq))
  }

  ghost predicate HonestQueue(q: Waiting, c: Config, n: nat) {
    forall id | id in q :: q[id].id == id && Honest(q[id], c, n)
  }

  lemma SameIdSameContents(a: Job, b: Job, c: Config, n: nat)
    requires TotalPreorder(c.leq) && Collisionless(c, n, TextsOf([a, b], c.leq))
    requires Honest(a, c, n) && Honest(b, c, n) && a.id == b.id
    ensures ToSet(DecodeIds(a)) == ToSet(DecodeIds(b))
  {
    assert a.batchIds.Some? ==> BatchText([a, b][0].batchIds.value, c.leq) in TextsOf([a, b], c.leq);
    assert b.batchIds.Some? ==> BatchText([a, b][1].batchIds.value, c.leq) in TextsOf([a, b], c.leq);
    if a.batchIds.Some? && b.batchIds.Some? {
      TextDeterminesBatch(a.batchIds.value, b.batchIds.value, c.leq, n);
      forall id
        ensures id in a.batchIds.value <==> id in b.batchIds.value
      {
        assert id in multiset(a.batchIds.value) <==> id in multiset(b.batchIds.value);
      }
    }
  }

  /** Adding an honest job to an honest queue adds what it stands for, merged or not. */
  lemma EnqueueCovers(q: Waiting, job: Job, c: Config, n: nat, texts: set<string>)
    requires TotalPreorder(c.leq) && Collisionless(c, n, texts)
    requires WaitingTexts(q, c.leq) + TextsOf([job], c.leq) <= texts
    requires HonestQueue(q, c, n) && Honest(job, c, n)
    ensures HonestQueue(Enqueue(q, job), c, n)
    ensures Covered(Enqueue(q, job)) == Covered(q) + ToSet(DecodeIds(job))
  {
    var q' := Enqueue(q, job);
    if job.id in q {
      PairTexts(q, job, c.leq);
      SameIdSameContents(q[job.id], job, c, n);
      forall id
        ensures id in Covered(q') <==> id in Covered(q)
      {
        if id in Covered(q) {
          var j :| j in q && id in DecodeIds(q[j]);
          assert j in q' && id in DecodeIds(q'[j]);
        }
      }
      forall id | id in ToSet(DecodeIds(job))
        ensures id in Covered(q)
      {
        assert id in ToSet(DecodeIds(q[job.id]));
      }
    } else {
      assert q'[job.id] == job;
      forall id | id in Covered(q) + ToSet(DecodeIds(job))
        ensures id in Covered(q')
      {
        if id in Covered(q) {
          var j :| j in q && id in DecodeIds(q[j]);
          assert j in q' && id in DecodeIds(q'[j]);
        } else {
          assert id in DecodeIds(q'[job.id]);
        }
      }
    }
  }

  lemma PairTexts(q: Waiting, job: Job, leq: Order)
    requires job.id in q
    ensures TextsOf([q[job.id], job], leq) <= WaitingTexts(q, leq) + TextsOf([job], leq)
  {
    assert job.batchIds.Some? ==> BatchText([job][0].batchIds.value, leq) in TextsOf([job], leq);
  }

  /** Adding a job adds its text at most. */
  lemma EnqueueTexts(q: Waiting, job: Job, leq: Order)
    ensures WaitingTexts(Enqueue(q, job), leq) <= WaitingTexts(q, leq) + TextsOf([job], leq)
  {
    assert job.batchIds.Some? ==> BatchText([job][0].batchIds.value, leq) in TextsOf([job], leq);
    var q' := Enqueue(q, job);
    forall id | id in q' && q'[id].batchIds.Some?
      ensures BatchText(q'[id].batchIds.value, leq) in WaitingTexts(q, leq) + TextsOf([job], leq)
    {
      if id in q {
        assert q[id].batchIds == q'[id].batchIds;
      }
    }
  }

  lemma TextsSplit(jobs: seq<Job>, leq: Order)
    requires jobs != []
    ensures TextsOf(jobs, leq) == TextsOf([jobs[0]], leq) + TextsOf(jobs[1..], leq)
  {
    forall i | 0 <= i < |jobs| && jobs[i].batchIds.Some?
      ensures BatchText(jobs[i].batchIds.value, leq) in TextsOf([jobs[0]], leq) + TextsOf(jobs[1..], leq)
    {
      if i == 0 {
        assert [jobs[0]][0] == jobs[0];
      } else {
        assert jobs[1..][i - 1] == jobs[i];
      }
    }
    forall i | 0 <= i < |jobs[1..]| && jobs[1..][i].batchIds.Some?
      ensures BatchText(jobs[1..][i].batchIds.value, leq) in TextsOf(jobs, leq)
    {
      assert jobs[i + 1] == jobs[1..][i];
    }
  }

  lemma {:induction false} EnqueueSeqCovers(q: Waiting, jobs: seq<Job>, c: Config, n: nat, texts: set<string>)
    requires TotalPreorder(c.leq) && Collisionless(c, n, texts)
    requires WaitingTexts(q, c.leq) + TextsOf(jobs, c.leq) <= texts
    requires HonestQueue(q, c, n) && forall i | 0 <= i < |jobs| :: Honest(jobs[i], c, n)
    ensures HonestQueue(EnqueueSeq(q, jobs), c, n)
    ensures Covered(EnqueueSeq(q, jobs)) == Covered(q) + ToSet(DecodeAll(jobs))
    decreases |jobs|
  {
    if jobs != [] {
      TextsSplit(jobs, c.leq);
      EnqueueTexts(q, jobs[0], c.leq);
      EnqueueCovers(q, jobs[0], c, n, texts);
      EnqueueSeqCovers(Enqueue(q, jobs[0]), jobs[1..], c, n, texts);
    }
  }

  lemma {:induction false} ChunksKeepLength(ids: seq<Id>, max: int, n: nat)
    requires 1 <= max && OfLength(ids, n)
    ensures forall i | 0 <= i < |Chunks(ids, max)| :: OfLength(Chunks(ids, max)[i], n)
    decreases |ids|
  {
    if |ids| > max {
      ChunksKeepLength(ids[max..], max, n);
    }
  }

  lemma SortedTwice(ids: seq<Id>, leq: Order)
    requires TotalPreorder(leq)
    ensures Sorted(Sorted(ids, leq), leq) == Sorted(ids, leq)
  {
    SortedSorts(ids, leq);
    SortedStays(Sorted(ids, leq), leq);
  }

  lemma {:induction false} SortedStays(ids: seq<Id>, leq: Order)
    requires TotalPreorder(leq) && InOrder(ids, leq)
    ensures Sorted(ids, leq) == ids
  {
    if ids != [] {
      SortedStays(ids[1..], leq);
      assert ids == [ids[0]] + ids[1..];
    }
  }

  lemma JobsAreHonest(ids: seq<Id>, kind: Kind, c: Config, n: nat)
    requires TotalPreorder(c.leq) && (c.batching ==> 1 <= c.maxBatch) && OfLength(ids, n)
    ensures forall i | 0 <= i < |JobsFor(ids, kind, c)| :: Honest(JobsFor(ids, kind, c)[i], c, n)
  {
    if |ids| != 1 && c.batching {
      var chunks := Chunks(ids, c.maxBatch);
      ChunksKeepLength(ids, c.maxBatch, n);
      forall i | 0 <= i < |chunks|
        ensures Honest(BatchJob(chunks[i], kind, c), c, n)
      {
        SortedKeepsLength(chunks[i], c.leq, n);
        SortedTwice(chunks[i], c.leq);
      }
    }
  }

  /** The texts of the batches that wait and of those that a request makes. */
  function RequestTexts(q: Waiting, ids: seq<Id>, kind: Kind, c: Config): set<string>
    requires c.batching ==> 1 <= c.maxBatch
  {
    WaitingTexts(q, c.leq) + TextsOf(JobsFor(Dedupe(ids), kind, c), c.leq)
  }

  /** Whatever waits already and however the ids are batched, the queue stands for the requested ids too. */
  lemma {:induction false} RequestIsCovered(q: Waiting, ids: seq<Id>, kind: Kind, c: Config, n: nat)
    requires TotalPreorder(c.leq) && (c.batching ==> 1 <= c.maxBatch)
    requires Collisionless(c, n, RequestTexts(q, ids, kind, c))
    requires HonestQueue(q, c, n) && OfLength(ids, n)
    ensures HonestQueue(CreateClosures(q, ids, kind, c), c, n)
    ensures Covered(CreateClosures(q, ids, kind, c)) == Covered(q) + ToSet(ids)
  {
    var unique := Dedupe(ids);
    DedupeKeepsFirsts(ids);
    forall i | 0 <= i < |unique|
      ensures |unique[i]| == n
    {
      assert unique[i] in ToSet(unique);
    }
    JobsAreHonest(unique, kind, c, n);
    EnqueueSeqCovers(q, JobsFor(unique, kind, c), c, n, RequestTexts(q, ids, kind, c));
    JobsDecodeToRequest(ids, kind, c);
    forall id
      ensures id in DecodeAll(JobsFor(unique, kind, c)) <==> id in ids
    {
      assert id in multiset(DecodeAll(JobsFor(unique, kind, c))) <==> id in ids;
    }
  }

  /** The state after a request to close changesets. */
  function Requested(s: State, ids: seq<Id>, c: Config): State
    requires c.batching ==> 1 <= c.maxBatch
  {
    s.(queues := s.queues.(changesets := CreateClosures(s.queues.changesets, ids, ChangesetKind, c)))
  }

  /** Batched or not, and for every batch size, draining ends in the same tables. */
  lemma {:induction false} BatchingIsTransparent(
    s: State, ids: seq<Id>, c: Config, c': Config, n: nat, jobs: seq<JobRef>, jobs': seq<JobRef>)
    requires TotalPreorder(c.leq) && c'.leq == c.leq && c'.digest == c.digest
    requires (c.batching ==> 1 <= c.maxBatch) && (c'.batching ==> 1 <= c'.maxBatch)
    requires Collisionless(c, n, RequestTexts(s.queues.changesets, ids, ChangesetKind, c))
    requires Collisionless(c', n, RequestTexts(s.queues.changesets, ids, ChangesetKind, c'))
    requires Inv(s.tables) && HonestQueue(s.queues.changesets, c, n) && OfLength(ids, n)
    requires var a := Requested(s, ids, c);
             Drains(a, jobs) && Idle(After(a, jobs))
    requires var b := Requested(s, ids, c');
             Drains(b, jobs') && Idle(After(b, jobs'))
    ensures var a := Requested(s, ids, c);
            var b := Requested(s, ids, c');
            After(a, jobs).tables == After(b, jobs').tables
  {
    var a := Requested(s, ids, c);
    var b := Requested(s, ids, c');
    RequestIsCovered(s.queues.changesets, ids, ChangesetKind, c, n);
    assert HonestQueue(s.queues.changesets, c', n);
    RequestIsCovered(s.queues.changesets, ids, ChangesetKind, c', n);
    SameWill(a, b);
    InvHasNoOvershoot(s.tables);
    NoOvershootIsSteady(a);
    NoOvershootIsSteady(b);
    DrainIsOnePass(a, jobs);
    DrainIsOnePass(b, jobs');
  }
}
