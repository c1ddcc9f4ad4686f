/** Ids of any length: when the batches of one request keep apart, and what is lost when they do not. */
module Merging {
  import opened Types
  import opened Requests
  import opened Queue
  import opened Hashing
  import opened Drain
  import opened Batching

  ghost predicate DistinctJobs(jobs: seq<Job>) {
    forall i, j | 0 <= i < j < |jobs| :: jobs[i].id != jobs[j].id
  }

  /** New job ids, all different: nothing is merged away. */
  lemma {:induction false} DistinctJobsCover(q: Waiting, jobs: seq<Job>)
    requires DistinctJobs(jobs) && forall i | 0 <= i < |jobs| :: jobs[i].id !in q
    ensures Covered(EnqueueSeq(q, jobs)) == Covered(q) + ToSet(DecodeAll(jobs))
    decreases |jobs|
  {
    if jobs != [] {
      var q' := Enqueue(q, jobs[0]);
      forall i | 0 <= i < |jobs[1..]|
        ensures jobs[1..][i].id !in q'
      {
        assert jobs[1..][i] == jobs[i + 1] && jobs[0].id != jobs[i + 1].id;
      }
      assert DistinctJobs(jobs[1..]) by {
        assert forall i | 0 <= i < |jobs[1..]| :: jobs[1..][i] == jobs[i + 1];
      }
      DistinctJobsCover(q', jobs[1..]);
      AddedCovers(q, jobs[0]);
      assert ToSet(DecodeAll(jobs)) == ToSet(DecodeIds(jobs[0])) + ToSet(DecodeAll(jobs[1..]));
    }
  }

  lemma AddedCovers(q: Waiting, job: Job)
    requires job.id !in q
    ensures Covered(Enqueue(q, job)) == Covered(q) + ToSet(DecodeIds(job))
  {
    var q' := Enqueue(q, job);
    assert q'[job.id] == job;
    forall id | id in Covered(q) + ToSet(DecodeIds(job))
      ensures id in Covered(q')
    {
      if id in Covered(q) {
        var j :| j in q && id in DecodeIds(q[j]);
        assert j in q' && id in DecodeIds(q'[j]);
      } else {
        assert id in DecodeIds(q'[job.id]);
      }
    }
  }

  /** Every job that stands for the id has the id of a waiting or of an earlier job. */
  ghost predicate Shadowed(q: Waiting, jobs: seq<Job>, id: Id) {
    forall k | 0 <= k < |jobs| && id in DecodeIds(jobs[k]) ::
      jobs[k].id in q || exists i | 0 <= i < k :: jobs[i].id == jobs[k].id
  }

  /** Then merging loses it. */
  lemma {:induction false} ShadowedIsLost(q: Waiting, jobs: seq<Job>, id: Id)
    requires id !in Covered(q) && Shadowed(q, jobs, id)
    ensures id !in Covered(EnqueueSeq(q, jobs))
    decreases |jobs|
  {
    if jobs != [] {
      var q', rest := Enqueue(q, jobs[0]), jobs[1..];
      forall j | j in q'
        ensures id !in DecodeIds(q'[j])
      {
        assert j in q ==> DecodeIds(q'[j]) == DecodeIds(q[j]);
      }
      forall k | 0 <= k < |rest| && id in DecodeIds(rest[k])
        ensures rest[k].id in q' || exists i | 0 <= i < k :: rest[i].id == rest[k].id
      {
        assert rest[k] == jobs[k + 1];
        if jobs[k + 1].id !in q {
          var i :| 0 <= i < k + 1 && jobs[i].id == jobs[k + 1].id;
          if i > 0 {
            assert rest[i - 1].id == rest[k].id;
          }
        }
      }
      ShadowedIsLost(q', rest, id);
    }
  }

  /** An id that two jobs stand for is decoded twice. */
  lemma {:induction false} DecodedByTwo(jobs: seq<Job>, i: nat, j: nat, id: Id)
    requires i < j < |jobs| && id in DecodeIds(jobs[i]) && id in DecodeIds(jobs[j])
    ensures multiset(DecodeAll(jobs))[id] >= 2
  {
    assert multiset(DecodeAll(jobs)) == multiset(DecodeIds(jobs[0])) + multiset(DecodeAll(jobs[1..]));
    if i == 0 {
      DecodedByOne(jobs[1..], j - 1, id);
      assert id in multiset(DecodeIds(jobs[0]));
    } else {
      DecodedByTwo(jobs[1..], i - 1, j - 1, id);
    }
  }

  lemma {:induction false} DecodedByOne(jobs: seq<Job>, j: nat, id: Id)
    requires j < |jobs| && id in DecodeIds(jobs[j])
    ensures id in multiset(DecodeAll(jobs))
  {
    if j > 0 {
      DecodedByOne(jobs[1..], j - 1, id);
    }
  }

  /** No two batches of a request have one text. */
  ghost predicate TextsDiffer(jobs: seq<Job>, leq: Order) {
    forall i, j | 0 <= i < j < |jobs| && jobs[i].batchIds.Some? && jobs[j].batchIds.Some? ::
      BatchText(jobs[i].batchIds.value, leq) != BatchText(jobs[j].batchIds.value, leq)
  }

  /** The digest tells the texts of the batches apart. */
  ghost predicate Separates(digest: string -> string, texts: set<string>) {
    forall x, y | x in texts && y in texts && digest(x) == digest(y) :: x == y
  }

  /** A batch job named by the digest of its text. */
  predicate Named(job: Job, c: Config) {
    job.batchIds.Some? && job.id == c.digest(BatchText(job.batchIds.value, c.leq))
  }

  /** What the jobs of a request look like: single jobs with distinct ids, or batches named by their digest. */
  lemma JobShapes(ids: seq<Id>, kind: Kind, c: Config)
    requires TotalPreorder(c.leq) && (c.batching ==> 1 <= c.maxBatch) && NoDuplicates(ids)
    ensures var jobs := JobsFor(ids, kind, c);
            && (forall i | 0 <= i < |jobs| :: DecodeIds(jobs[i]) != [])
            && ((DistinctJobs(jobs) && forall i | 0 <= i < |jobs| :: jobs[i].batchIds.None?)
                || forall i | 0 <= i < |jobs| :: Named(jobs[i], c))
  {
    if |ids| != 1 && c.batching {
      var chunks := Chunks(ids, c.maxBatch);
      ChunksCut(ids, c.maxBatch);
      forall i | 0 <= i < |chunks|
        ensures Sorted(chunks[i], c.leq) != []
        ensures BatchText(Sorted(chunks[i], c.leq), c.leq) == BatchText(chunks[i], c.leq)
      {
        SortedSize(chunks[i], c.leq);
        SortedTwice(chunks[i], c.leq);
      }
    }
  }

  lemma NamesDiffer(jobs: seq<Job>, c: Config)
    requires Separates(c.digest, TextsOf(jobs, c.leq)) && TextsDiffer(jobs, c.leq)
    requires forall i | 0 <= i < |jobs| :: Named(jobs[i], c)
    ensures DistinctJobs(jobs)
  {
    forall i, j | 0 <= i < j < |jobs|
      ensures jobs[i].id != jobs[j].id
    {
      assert Named(jobs[i], c) && Named(jobs[j], c);
      assert BatchText(jobs[i].batchIds.value, c.leq) in TextsOf(jobs, c.leq);
      assert BatchText(jobs[j].batchIds.value, c.leq) in TextsOf(jobs, c.leq);
    }
  }

  /** Of two jobs with one id the later one loses all it stands for, when each id is decoded once. */
  lemma LaterIsLost(jobs: seq<Job>, i: nat, j: nat, id: Id)
    requires i < j < |jobs| && jobs[i].id == jobs[j].id && id in DecodeIds(jobs[j])
    requires multiset(DecodeAll(jobs))[id] <= 1
    ensures id !in Covered(EnqueueSeq(map[], jobs))
  {
    forall k | 0 <= k < |jobs| && id in DecodeIds(jobs[k])
      ensures k == j
    {
      if k < j {
        DecodedByTwo(jobs, k, j, id);
      } else if j < k {
        DecodedByTwo(jobs, j, k, id);
      }
    }
    ShadowedIsLost(map[], jobs, id);
  }

  lemma DifferentTextsCover(ids: seq<Id>, kind: Kind, c: Config)
    requires TotalPreorder(c.leq) && (c.batching ==> 1 <= c.maxBatch)
    requires Separates(c.digest, TextsOf(JobsFor(Dedupe(ids), kind, c), c.leq))
    requires TextsDiffer(JobsFor(Dedupe(ids), kind, c), c.leq)
    ensures Covered(CreateClosures(map[], ids, kind, c)) == ToSet(ids)
  {
    var jobs := JobsFor(Dedupe(ids), kind, c);
    DedupeKeepsFirsts(ids);
    JobShapes(Dedupe(ids), kind, c);
    if forall i | 0 <= i < |jobs| :: Named(jobs[i], c) {
      NamesDiffer(jobs, c);
    }
    DistinctJobsCover(map[], jobs);
    assert Covered(map[]) == {};
    DecodedIsRequested(ids, kind, c);
  }

  lemma DecodedIsRequested(ids: seq<Id>, kind: Kind, c: Config)
    requires TotalPreorder(c.leq) && (c.batching ==> 1 <= c.maxBatch)
    ensures ToSet(DecodeAll(JobsFor(Dedupe(ids), kind, c))) == ToSet(ids)
    ensures forall id :: multiset(DecodeAll(JobsFor(Dedupe(ids), kind, c)))[id] <= 1
  {
    var decoded := DecodeAll(JobsFor(Dedupe(ids), kind, c));
    JobsDecodeToRequest(ids, kind, c);
    forall id
      ensures id in decoded <==> id in ids
    {
      assert id in multiset(decoded) <==> id in ids;
    }
  }

  lemma EqualTextsLose(ids: seq<Id>, kind: Kind, c: Config) returns (id: Id)
    requires TotalPreorder(c.leq) && (c.batching ==> 1 <= c.maxBatch)
    requires !TextsDiffer(JobsFor(Dedupe(ids), kind, c), c.leq)
    ensures id in ToSet(ids) && id !in Covered(CreateClosures(map[], ids, kind, c))
  {
    var jobs := JobsFor(Dedupe(ids), kind, c);
    DedupeKeepsFirsts(ids);
    JobShapes(Dedupe(ids), kind, c);
    DecodedIsRequested(ids, kind, c);
    var i, j :| 0 <= i < j < |jobs| && jobs[i].batchIds.Some? && jobs[j].batchIds.Some?
                && BatchText(jobs[i].batchIds.value, c.leq) == BatchText(jobs[j].batchIds.value, c.leq);
    assert Named(jobs[i], c) && Named(jobs[j], c);
    id := DecodeIds(jobs[j])[0];
    LaterIsLost(jobs, i, j, id);
    DecodedByOne(jobs, j, id);
    assert id in ToSet(DecodeAll(jobs));
  }

  /** The ids the service accepts have one length, and then the texts always differ. */
  lemma {:induction false} OneLengthKeepsApart(ids: seq<Id>, kind: Kind, c: Config, n: nat)
    requires TotalPreorder(c.leq) && (c.batching ==> 1 <= c.maxBatch)
    requires 0 < n && OfLength(Dedupe(ids), n)
    ensures TextsDiffer(JobsFor(Dedupe(ids), kind, c), c.leq)
  {
    var jobs := JobsFor(Dedupe(ids), kind, c);
    DedupeKeepsFirsts(ids);
    JobShapes(Dedupe(ids), kind, c);
    DecodedIsRequested(ids, kind, c);
    JobsAreHonest(Dedupe(ids), kind, c, n);
    forall i, j | 0 <= i < j < |jobs| && jobs[i].batchIds.Some? && jobs[j].batchIds.Some?
      ensures BatchText(jobs[i].batchIds.value, c.leq) != BatchText(jobs[j].batchIds.value, c.leq)
    {
      if BatchText(jobs[i].batchIds.value, c.leq) == BatchText(jobs[j].batchIds.value, c.leq) {
        SharedByTwo(jobs, i, j, c, n);
      }
    }
  }

  lemma SharedByTwo(jobs: seq<Job>, i: nat, j: nat, c: Config, n: nat)
    requires TotalPreorder(c.leq) && 0 < n && i < j < |jobs|
    requires Honest(jobs[i], c, n) && Honest(jobs[j], c, n) && jobs[i].batchIds.Some? && jobs[j].batchIds.Some?
    requires BatchText(jobs[i].batchIds.value, c.leq) == BatchText(jobs[j].batchIds.value, c.leq)
    requires DecodeIds(jobs[j]) != []
    ensures exists id :: multiset(DecodeAll(jobs))[id] >= 2
  {
    TextDeterminesBatch(jobs[i].batchIds.value, jobs[j].batchIds.value, c.leq, n);
    var id := DecodeIds(jobs[j])[0];
    assert id in multiset(jobs[i].batchIds.value);
    DecodedByTwo(jobs, i, j, id);
  }

  /** On an empty queue a request is covered if and only if the texts of its batches differ. */
  lemma {:induction false} RequestIsCoveredExactly(ids: seq<Id>, kind: Kind, c: Config)
    requires TotalPreorder(c.leq) && (c.batching ==> 1 <= c.maxBatch)
    requires Separates(c.digest, TextsOf(JobsFor(Dedupe(ids), kind, c), c.leq))
    ensures Covered(CreateClosures(map[], ids, kind, c)) == ToSet(ids)
            <==> TextsDiffer(JobsFor(Dedupe(ids), kind, c), c.leq)
  {
    if TextsDiffer(JobsFor(Dedupe(ids), kind, c), c.leq) {
      DifferentTextsCover(ids, kind, c);
    } else {
      var lost := EqualTextsLose(ids, kind, c);
    }
  }

  /** For instance, ids of different lengths can make one text; the second batch is then lost. */
  lemma {:induction false} MixedLengthsLoseChangesets(c: Config)
    requires c.batching && c.maxBatch == 2
    requires c.leq("a", "bc") && c.leq("ab", "c")
    ensures var ids := ["a", "bc", "ab", "c"];
            Covered(EnqueueSeq(map[], JobsFor(ids, ChangesetKind, c))) == {"a", "bc"}
  {
    var ids := ["a", "bc", "ab", "c"];
    assert ids[..2] == ["a", "bc"] && ids[2..] == ["ab", "c"];
    assert Chunks(ids, 2) == [["a", "bc"], ["ab", "c"]];
    PairSorted("a", "bc", c.leq);
    PairSorted("ab", "c", c.leq);
    var first, second := BatchJob(["a", "bc"], ChangesetKind, c), BatchJob(["ab", "c"], ChangesetKind, c);
    assert "a" + "bc" == "abc" && "ab" + "c" == "abc";
    assert first.id == c.digest("abc") && second.id == c.digest("abc");
    var jobs := JobsFor(ids, ChangesetKind, c);
    assert jobs == [first, second];
    assert jobs[1..] == [second] && jobs[1..][1..] == [];
    var one := Enqueue(map[], first);
    var q := EnqueueSeq(map[], jobs);
    assert q == EnqueueSeq(one, [second]);
    assert EnqueueSeq(one, [second]) == EnqueueSeq(Enqueue(one, second), []);
    assert q.Keys == {first.id};
    assert DecodeIds(q[first.id]) == ["a", "bc"];
    forall id
      ensures id in Covered(q) <==> id in {"a", "bc"}
    {
      assert id in Covered(q) <==> id in DecodeIds(q[first.id]);
    }
  }

  lemma PairSorted(x: Id, y: Id, leq: Order)
    requires leq(x, y)
    ensures Sorted([x, y], leq) == [x, y] && Join([x, y]) == x + y
  {
    assert [x, y][1..] == [y] && [y][1..] == [];
    assert Sorted([y], leq) == [y];
    assert Join([y]) == y;
  }

  /******* How many jobs a request makes *******/

  /** The n-th batch is the n-th slice: all but the last have the full size. */
  lemma {:induction false} ChunkIsSlice(ids: seq<Id>, max: int, n: nat)
    requires 1 <= max && n < |Chunks(ids, max)|
    ensures 0 <= n * max < |ids|
    ensures Chunks(ids, max)[n] == ids[n * max..if (n + 1) * max <= |ids| then (n + 1) * max else |ids|]
    decreases n
  {
    if n > 0 {
      var rest := ids[max..];
      ChunkIsSlice(rest, max, n - 1);
      assert (n - 1) * max == n * max - max && (n + 1) * max == n * max + max;
      assert Chunks(ids, max)[n] == Chunks(rest, max)[n - 1];
    }
  }

  lemma {:induction false} DistinctSize(ids: seq<Id>)
    requires NoDuplicates(ids)
    ensures |ids| == |ToSet(ids)|
  {
    if ids != [] {
      DistinctSize(ids[1..]);
      assert ToSet(ids) == {ids[0]} + ToSet(ids[1..]);
      assert ids[0] !in ToSet(ids[1..]);
    }
  }

  /** Distinct new jobs are stored as they are, each once. */
  lemma {:induction false} DistinctJobsStored(q: Waiting, jobs: seq<Job>)
    requires DistinctJobs(jobs) && forall i | 0 <= i < |jobs| :: jobs[i].id !in q
    ensures |EnqueueSeq(q, jobs)| == |q| + |jobs|
    ensures forall id | id in q :: id in EnqueueSeq(q, jobs) && EnqueueSeq(q, jobs)[id] == q[id]
    ensures forall i | 0 <= i < |jobs| ::
              jobs[i].id in EnqueueSeq(q, jobs) && EnqueueSeq(q, jobs)[jobs[i].id] == jobs[i]
    decreases |jobs|
  {
    if jobs != [] {
      var q', rest := Enqueue(q, jobs[0]), jobs[1..];
      assert forall i | 0 <= i < |rest| :: rest[i] == jobs[i + 1];
      forall i | 0 <= i < |rest|
        ensures rest[i].id !in q'
      {
        assert jobs[0].id != jobs[i + 1].id;
      }
      DistinctJobsStored(q', rest);
      forall i | 0 <= i < |jobs|
        ensures jobs[i].id in EnqueueSeq(q, jobs) && EnqueueSeq(q, jobs)[jobs[i].id] == jobs[i]
      {
        assert i > 0 ==> rest[i - 1] == jobs[i];
      }
    }
  }

  /** Nothing is stored but what waited or was pushed. */
  lemma {:induction false} StoredOnly(q: Waiting, jobs: seq<Job>)
    ensures forall id | id in EnqueueSeq(q, jobs) :: id in q || exists i | 0 <= i < |jobs| :: jobs[i].id == id
    decreases |jobs|
  {
    if jobs != [] {
      StoredOnly(Enqueue(q, jobs[0]), jobs[1..]);
      forall id | id in EnqueueSeq(q, jobs) && id !in q
        ensures exists i | 0 <= i < |jobs| :: jobs[i].id == id
      {
        if id != jobs[0].id {
          assert id in EnqueueSeq(Enqueue(q, jobs[0]), jobs[1..]) && id !in Enqueue(q, jobs[0]);
          var i :| 0 <= i < |jobs[1..]| && jobs[1..][i].id == id;
          assert jobs[i + 1].id == id;
        }
      }
    }
  }

  lemma JobsKeepApart(ids: seq<Id>, kind: Kind, c: Config, n: nat)
    requires TotalPreorder(c.leq) && (c.batching ==> 1 <= c.maxBatch)
    requires 0 < n && OfLength(Dedupe(ids), n)
    requires Separates(c.digest, TextsOf(JobsFor(Dedupe(ids), kind, c), c.leq))
    ensures DistinctJobs(JobsFor(Dedupe(ids), kind, c))
  {
    var jobs := JobsFor(Dedupe(ids), kind, c);
    DedupeKeepsFirsts(ids);
    JobShapes(Dedupe(ids), kind, c);
    OneLengthKeepsApart(ids, kind, c, n);
    if forall i | 0 <= i < |jobs| :: Named(jobs[i], c) {
      NamesDiffer(jobs, c);
    }
  }

  lemma JobsOfRequest(unique: seq<Id>, kind: Kind, c: Config)
    requires c.batching ==> 1 <= c.maxBatch
    ensures var jobs := JobsFor(unique, kind, c);
            && |jobs| == (if c.batching && |unique| > 1 then (|unique| + c.maxBatch - 1) / c.maxBatch else |unique|)
            && (forall i | 0 <= i < |jobs| :: jobs[i].kind == kind && jobs[i].counters == map[])
            && (!c.batching || |unique| == 1 ==> forall i | 0 <= i < |unique| :: jobs[i] == SingleJob(unique[i], kind))
  {
    if c.batching && |unique| != 1 {
      ChunksCut(unique, c.maxBatch);
    }
  }

  lemma StoredJobs(unique: seq<Id>, kind: Kind, c: Config)
    requires (c.batching ==> 1 <= c.maxBatch) && DistinctJobs(JobsFor(unique, kind, c))
    ensures var q := EnqueueSeq(map[], JobsFor(unique, kind, c));
            && |q| == |JobsFor(unique, kind, c)|
            && (forall id | id in q :: q[id].kind == kind && q[id].counters == map[])
            && (!c.batching || |unique| == 1 ==>
                  forall i | 0 <= i < |unique| :: unique[i] in q && q[unique[i]].batchIds == None)
  {
    var jobs := JobsFor(unique, kind, c);
    JobsOfRequest(unique, kind, c);
    DistinctJobsStored(map[], jobs);
    StoredOnly(map[], jobs);
    forall i | 0 <= i < |unique| && (!c.batching || |unique| == 1)
      ensures unique[i] in EnqueueSeq(map[], jobs) && EnqueueSeq(map[], jobs)[unique[i]].batchIds == None
    {
      assert jobs[i] == SingleJob(unique[i], kind);
    }
  }

  /** On an empty queue ids of one length make one job each, or with batching as few batches as they fill. */
  lemma {:induction false} RequestMakesJobs(ids: seq<Id>, kind: Kind, c: Config, n: nat)
    requires TotalPreorder(c.leq) && (c.batching ==> 1 <= c.maxBatch)
    requires 0 < n && OfLength(Dedupe(ids), n)
    requires Separates(c.digest, TextsOf(JobsFor(Dedupe(ids), kind, c), c.leq))
    ensures var q, distinct := CreateClosures(map[], ids, kind, c), |ToSet(ids)|;
            && |q| == (if c.batching && distinct > 1 then (distinct + c.maxBatch - 1) / c.maxBatch else distinct)
            && (forall id | id in q :: q[id].kind == kind && q[id].counters == map[])
            && (!c.batching || distinct == 1 ==> forall id | id in ids :: id in q && q[id].batchIds == None)
  {
    DedupeKeepsFirsts(ids);
    DistinctSize(Dedupe(ids));
    JobsKeepApart(ids, kind, c, n);
    JobsOfRequest(Dedupe(ids), kind, c);
    StoredJobs(Dedupe(ids), kind, c);
    forall id | id in ids
      ensures id in Dedupe(ids)
    {
      assert id in ToSet(Dedupe(ids));
    }
  }

  /** One job is pushed as it is, and without batching all are. */
  lemma {:induction false} PushedPlainly(jobs: seq<Job>, c: Config)
    requires c.batching ==> 1 <= c.maxBatch
    ensures |jobs| == 1 || !c.batching ==> PushedJobs(jobs, c) == jobs
  {
  }
}
