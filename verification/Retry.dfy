/** Aborted transactions: the job stays, its failure is counted, the tables do not change. */
module Retry {
  import opened Types
  import opened Queue
  import opened Protocol
  import opened Drain

  /******* The delay *******/

  /** `random` stands for the drawn number, at least 0 and below 1. */
  function RandomInt(random: real, min: int, max: int): int {
    if min != max then (random * (max - min + 1) as real).Floor + min else min
  }

  lemma ScaledIsBelow(random: real, n: real)
    requires 0.0 <= random < 1.0 && 0.0 < n
    ensures 0.0 <= random * n < n
  {
  }

  /** The delay lies between the bounds, if and only if the bounds are in order. */
  lemma {:induction false} DelayIsWithinBounds(random: real, min: int, max: int)
    requires 0.0 <= random < 1.0
    ensures min <= RandomInt(random, min, max) <= max <==> min <= max
  {
    if min < max {
      ScaledIsBelow(random, (max - min + 1) as real);
    }
  }

  /** Every delay between the bounds can be drawn. */
  lemma {:induction false} EveryDelayIsDrawn(delay: int, min: int, max: int) returns (random: real)
    requires min <= delay <= max
    ensures 0.0 <= random < 1.0 && RandomInt(random, min, max) == delay
  {
    var n := (max - min + 1) as real;
    random := (delay - min) as real / n;
    assert random * n == (delay - min) as real;
    assert random < 1.0 by {
      assert random >= 1.0 ==> random * n >= n;
    }
  }

  /******* Attempts *******/

  /** How one attempt at an event ends: done, its transaction aborted, or failed with another error. */
  datatype Outcome = Done | Aborted | Errored

  datatype Try = Try(event: Event, outcome: Outcome)

  function Failed(q: Waiting, id: Id): Waiting
    requires id in q
  {
    q[id := Increment(q[id], TransactionFailure)]
  }

  /** The failure of an aborted job is counted on the job. */
  function Abort(s: State, job: JobRef): State
    requires Pending(s, job)
  {
    match job
    case ChangesetJob(id) => s.(queues := s.queues.(changesets := Failed(s.queues.changesets, id)))
    case FileJob(id) => s.(queues := s.queues.(files := Failed(s.queues.files, id)))
    case SyncJob(id) => s.(queues := s.queues.(syncs := Failed(s.queues.syncs, id)))
  }

  /** An attempt that is not done changes no table; an aborted job is counted, an aborted request is refused. */
  function Attempted(s: State, y: Try): State {
    match y.outcome
    case Done => Next(s, y.event)
    case Aborted => if y.event.Process? && Pending(s, y.event.job) then Abort(s, y.event.job) else s
    case Errored => s
  }

  function AfterTries(s: State, tries: seq<Try>): State
    decreases |tries|
  {
    if tries == [] then s else AfterTries(Attempted(s, tries[0]), tries[1..])
  }

  /** The events of the attempts that were done. */
  function Survivors(tries: seq<Try>): seq<Event>
    decreases |tries|
  {
    if tries == [] then []
    else if tries[0].outcome == Done then [tries[0].event] + Survivors(tries[1..])
    else Survivors(tries[1..])
  }

  predicate SameButCounters(a: Job, b: Job) {
    a.id == b.id && a.kind == b.kind && a.batchIds == b.batchIds
  }

  ghost predicate SameQueue(q: Waiting, q': Waiting) {
    q.Keys == q'.Keys && forall id | id in q :: SameButCounters(q[id], q'[id])
  }

  ghost predicate SameState(s: State, s': State) {
    && s.tables == s'.tables
    && SameQueue(s.queues.changesets, s'.queues.changesets)
    && SameQueue(s.queues.files, s'.queues.files)
    && SameQueue(s.queues.syncs, s'.queues.syncs)
  }

  lemma UndoneIsStutter(s: State, y: Try)
    requires y.outcome != Done
    ensures SameState(s, Attempted(s, y))
  {
  }

  lemma ChangesetIgnoresCounters(s: State, s': State, id: Id)
    requires SameState(s, s') && id in s.queues.changesets
    ensures SameState(ChangesetStep(s, id), ChangesetStep(s', id))
  {
    assert SameButCounters(s.queues.changesets[id], s'.queues.changesets[id]);
  }

  lemma FileIgnoresCounters(s: State, s': State, id: Id)
    requires SameState(s, s') && id in s.queues.files
    ensures SameState(FileStep(s, id), FileStep(s', id))
  {
  }

  lemma ProcessIgnoresCounters(s: State, s': State, job: JobRef)
    requires SameState(s, s') && Pending(s, job)
    ensures Pending(s', job) && SameState(ProcessJob(s, job), ProcessJob(s', job))
  {
    match job
    case ChangesetJob(id) => ChangesetIgnoresCounters(s, s', id);
    case FileJob(id) => FileIgnoresCounters(s, s', id);
    case SyncJob(id) =>
  }

  lemma {:induction false} PushIgnoresCounters(q: Waiting, q': Waiting, jobs: seq<Job>)
    requires SameQueue(q, q')
    ensures SameQueue(EnqueueSeq(q, jobs), EnqueueSeq(q', jobs))
    decreases |jobs|
  {
    if jobs != [] {
      PushIgnoresCounters(Enqueue(q, jobs[0]), Enqueue(q', jobs[0]), jobs[1..]);
    }
  }

  /** A client request reads and writes the tables only. */
  lemma RequestIgnoresQueues(s: State, s': State, ev: Event)
    requires s.tables == s'.tables && !ev.Process?
    ensures NextTables(s, ev) == NextTables(s', ev)
  {
  }

  lemma NextIgnoresCounters(s: State, s': State, ev: Event)
    requires SameState(s, s')
    ensures SameState(Next(s, ev), Next(s', ev))
  {
    match ev
    case Process(job) =>
      if Pending(s, job) {
        ProcessIgnoresCounters(s, s', job);
      }
    case PushChangesets(jobs) => PushIgnoresCounters(s.queues.changesets, s'.queues.changesets, jobs);
    case PushFiles(jobs) => PushIgnoresCounters(s.queues.files, s'.queues.files, jobs);
    case PushSyncs(jobs) => PushIgnoresCounters(s.queues.syncs, s'.queues.syncs, jobs);
    case _ => RequestIgnoresQueues(s, s', ev);
  }

  lemma {:induction false} AbortsStutterFrom(s: State, s': State, tries: seq<Try>)
    requires SameState(s, s')
    ensures SameState(Run(s, Survivors(tries)), AfterTries(s', tries))
    decreases |tries|
  {
    if tries != [] {
      var y, rest := tries[0], tries[1..];
      if y.outcome == Done {
        NextIgnoresCounters(s, s', y.event);
        AbortsStutterFrom(Next(s, y.event), Next(s', y.event), rest);
        assert Survivors(tries)[1..] == Survivors(rest);
      } else {
        UndoneIsStutter(s', y);
        AbortsStutterFrom(s, Attempted(s', y), rest);
      }
    }
  }

  /** Any run of requests, reruns and jobs with attempts undone among them ends as the run without these. */
  lemma {:induction false} AbortsStutter(s: State, tries: seq<Try>)
    ensures SameState(Run(s, Survivors(tries)), AfterTries(s, tries))
  {
    AbortsStutterFrom(s, s, tries);
  }

  /** The hypotheses on clients, asked of the attempts that are done. */
  ghost predicate AdmittedTries(s: State, tries: seq<Try>)
    decreases |tries|
  {
    tries == []
    || ((tries[0].outcome == Done ==> Admitted(s, tries[0].event))
        && AdmittedTries(Attempted(s, tries[0]), tries[1..]))
  }

  lemma AdmittedIgnoresCounters(s: State, s': State, ev: Event)
    requires SameState(s, s')
    ensures Admitted(s, ev) == Admitted(s', ev)
  {
    if !ev.Process? {
      RequestIgnoresQueues(s, s', ev);
    }
  }

  lemma {:induction false} SurvivorsAreAdmitted(s: State, s': State, tries: seq<Try>)
    requires SameState(s, s') && AdmittedTries(s', tries)
    ensures AdmittedRun(s, Survivors(tries))
    decreases |tries|
  {
    if tries != [] {
      var y, rest := tries[0], tries[1..];
      if y.outcome == Done {
        AdmittedIgnoresCounters(s, s', y.event);
        NextIgnoresCounters(s, s', y.event);
        SurvivorsAreAdmitted(Next(s, y.event), Next(s', y.event), rest);
        assert Survivors(tries)[1..] == Survivors(rest);
      } else {
        UndoneIsStutter(s', y);
        SurvivorsAreAdmitted(s, Attempted(s', y), rest);
      }
    }
  }

  /** So attempts that are undone reach no tables that an admitted run without them does not reach. */
  lemma {:induction false} AbortsReachNothingNew(tries: seq<Try>) returns (evs: seq<Event>)
    requires AdmittedTries(EMPTY, tries)
    ensures AdmittedRun(EMPTY, evs) && SameState(Run(EMPTY, evs), AfterTries(EMPTY, tries))
  {
    evs := Survivors(tries);
    SurvivorsAreAdmitted(EMPTY, EMPTY, tries);
    AbortsStutter(EMPTY, tries);
  }

  /******* Drains *******/

  ghost predicate OnlyJobs(evs: seq<Event>) {
    forall i | 0 <= i < |evs| :: evs[i].Process?
  }

  /** A run of jobs is a drain by those that were pending. */
  lemma {:induction false} RunIsDrain(s: State, evs: seq<Event>) returns (jobs: seq<JobRef>)
    requires OnlyJobs(evs)
    ensures Drains(s, jobs) && After(s, jobs) == Run(s, evs)
    decreases |evs|
  {
    jobs := [];
    if evs != [] {
      var rest := RunIsDrain(Next(s, evs[0]), evs[1..]);
      if Pending(s, evs[0].job) {
        jobs := [evs[0].job] + rest;
        assert jobs[1..] == rest;
      } else {
        jobs := rest;
      }
    }
  }

  lemma {:induction false} SurvivingJobs(tries: seq<Try>)
    requires forall i | 0 <= i < |tries| :: tries[i].event.Process?
    ensures OnlyJobs(Survivors(tries))
    decreases |tries|
  {
    if tries != [] {
      SurvivingJobs(tries[1..]);
    }
  }

  /** Aborts and other errors change nothing about the result of a drain. */
  lemma {:induction false} DrainDespiteAborts(s: State, tries: seq<Try>)
    requires Steady(s) && Idle(AfterTries(s, tries))
    requires forall i | 0 <= i < |tries| :: tries[i].event.Process?
    ensures AfterTries(s, tries).tables == OnePass(s)
  {
    AbortsStutter(s, tries);
    SurvivingJobs(tries);
    var jobs := RunIsDrain(s, Survivors(tries));
    var s' := After(s, jobs);
    assert s'.queues.changesets.Keys == {} && s'.queues.files.Keys == {} && s'.queues.syncs.Keys == {};
    assert s'.queues.changesets == map[] && s'.queues.files == map[] && s'.queues.syncs == map[];
    DrainIsOnePass(s, jobs);
  }

  /******* The failure counter *******/

  function JobOf(s: State, job: JobRef): Job
    requires Pending(s, job)
  {
    match job
    case ChangesetJob(id) => s.queues.changesets[id]
    case FileJob(id) => s.queues.files[id]
    case SyncJob(id) => s.queues.syncs[id]
  }

  function Failures(job: Job): nat {
    if TransactionFailure in job.counters then job.counters[TransactionFailure] else 0
  }

  function CountAborts(tries: seq<Try>, job: JobRef): nat
    decreases |tries|
  {
    if tries == [] then 0
    else (if tries[0] == Try(Process(job), Aborted) then 1 else 0) + CountAborts(tries[1..], job)
  }

  /** The job is there after the step, with the given number of failures more and its data unchanged. */
  ghost predicate StaysPending(s: State, s': State, job: JobRef, failures: nat)
    requires Pending(s, job)
  {
    && Pending(s', job) && SameButCounters(JobOf(s, job), JobOf(s', job))
    && Failures(JobOf(s', job)) == Failures(JobOf(s, job)) + failures
  }

  ghost predicate KeepsJobs(q: Waiting, q': Waiting) {
    forall id | id in q :: id in q' && SameButCounters(q[id], q'[id]) && Failures(q'[id]) == Failures(q[id])
  }

  lemma {:induction false} PushKeepsJobs(q: Waiting, jobs: seq<Job>)
    ensures KeepsJobs(q, EnqueueSeq(q, jobs))
    decreases |jobs|
  {
    if jobs != [] {
      assert KeepsJobs(q, Enqueue(q, jobs[0]));
      PushKeepsJobs(Enqueue(q, jobs[0]), jobs[1..]);
    }
  }

  lemma OtherEventsKeepJob(s: State, ev: Event, job: JobRef)
    requires Pending(s, job) && ev != Process(job)
    ensures StaysPending(s, Next(s, ev), job, 0)
  {
    match ev
    case PushChangesets(jobs) => PushKeepsJobs(s.queues.changesets, jobs);
    case PushFiles(jobs) => PushKeepsJobs(s.queues.files, jobs);
    case PushSyncs(jobs) => PushKeepsJobs(s.queues.syncs, jobs);
    case _ =>
  }

  lemma OtherTriesKeepJob(s: State, y: Try, job: JobRef)
    requires Pending(s, job) && y != Try(Process(job), Done)
    ensures StaysPending(s, Attempted(s, y), job, if y == Try(Process(job), Aborted) then 1 else 0)
  {
    if y.outcome == Done {
      OtherEventsKeepJob(s, y.event, job);
    }
  }

  /** Until it is processed a job stays pending whatever happens, and its counter grows by exactly its aborts. */
  lemma {:induction false} FailuresAreCounted(s: State, tries: seq<Try>, job: JobRef)
    requires Pending(s, job)
    requires forall i | 0 <= i < |tries| :: tries[i] != Try(Process(job), Done)
    ensures StaysPending(s, AfterTries(s, tries), job, CountAborts(tries, job))
    decreases |tries|
  {
    if tries != [] {
      OtherTriesKeepJob(s, tries[0], job);
      forall i | 0 <= i < |tries[1..]|
        ensures tries[1..][i] != Try(Process(job), Done)
      {
        assert tries[1..][i] == tries[i + 1];
      }
      FailuresAreCounted(Attempted(s, tries[0]), tries[1..], job);
    }
  }
}
