/** A state with overshoot, whose drains disagree. */
module Counterexamples {
  import opened Types
  import opened Statements
  import opened Queue
  import opened Protocol
  import opened Drain
  import opened CounterRuns

  /******* Overshoot makes the drain depend on the order of the jobs *******/

  function TwoFiles(f: Id, g: Id, x: Id): Tables {
    var file := File(x, Status.InProgress, Some(0));
    Tables(map[x := NewRow(Status.InProgress, Some(1))], map[f := file, g := file], map[], map[])
  }

  function TwoFileJobs(f: Id, g: Id, x: Id): State {
    State(TwoFiles(f, g, x), Queues(map[], map[f := SingleJob(f, FileKind), g := SingleJob(g, FileKind)], map[]))
  }

  lemma ZeroFileCloses(t: Tables, f: Id)
    requires t.entities == map[] && f in t.files
    requires t.files[f].status != Status.Completed && t.files[f].totalEntities == Some(0)
    ensures FileClosable(t, f)
  {
    assert ClosedOf(t.entities, f) == {};
  }

  predicate SyncIs(s: State, x: Id, status: Status) {
    x in s.tables.syncs && s.tables.syncs[x].status == status
  }

  /** One sync of one total file that was given two: closing it between the files, or after both. */
  lemma {:induction false} OvershootDependsOnOrder(f: Id, g: Id, x: Id)
    requires f != g
    ensures var s := TwoFileJobs(f, g, x);
            var early := [FileJob(f), SyncJob(x), FileJob(g), SyncJob(x)];
            var late := [FileJob(f), FileJob(g), SyncJob(x)];
            && Drains(s, early) && Idle(After(s, early)) && SyncIs(After(s, early), x, Status.Completed)
            && Drains(s, late) && Idle(After(s, late)) && SyncIs(After(s, late), x, Status.InProgress)
  {
    var s := TwoFileJobs(f, g, x);
    ZeroFileCloses(s.tables, f);
    var a1 := FileStep(s, f);
    assert a1.queues.syncs.Keys == {x} && a1.queues.files.Keys == {g};
    assert CompletedOf(a1.tables.files, x) == {f};
    Early(a1, f, g, x);
    Late(a1, f, g, x);
    var early := [FileJob(f), SyncJob(x), FileJob(g), SyncJob(x)];
    assert early[1..] == [SyncJob(x), FileJob(g), SyncJob(x)];
    var late := [FileJob(f), FileJob(g), SyncJob(x)];
    assert late[1..] == [FileJob(g), SyncJob(x)];
    assert ProcessJob(s, FileJob(f)) == a1;
  }

  ghost predicate OneClosed(s: State, f: Id, g: Id, x: Id) {
    && f != g && s.tables.entities == map[]
    && s.tables.syncs == map[x := NewRow(Status.InProgress, Some(1))]
    && s.tables.files == map[f := File(x, Status.Completed, Some(0)), g := File(x, Status.InProgress, Some(0))]
    && s.queues.changesets == map[] && s.queues.files.Keys == {g} && s.queues.syncs.Keys == {x}
  }

  lemma Early(s: State, f: Id, g: Id, x: Id)
    requires OneClosed(s, f, g, x)
    ensures var jobs := [SyncJob(x), FileJob(g), SyncJob(x)];
            Drains(s, jobs) && Idle(After(s, jobs)) && SyncIs(After(s, jobs), x, Status.Completed)
  {
    var jobs := [SyncJob(x), FileJob(g), SyncJob(x)];
    assert CompletedOf(s.tables.files, x) == {f};
    var s1 := ProcessJob(s, jobs[0]);
    assert s1.tables.syncs[x].status == Status.Completed;
    assert s1.queues.syncs == map[];
    ZeroFileCloses(s1.tables, g);
    var s2 := ProcessJob(s1, jobs[1]);
    assert s2.queues.files == map[] && s2.queues.syncs.Keys == {x};
    var s3 := ProcessJob(s2, jobs[2]);
    assert s3.queues.syncs == map[];
    assert jobs[1..] == [FileJob(g), SyncJob(x)] && jobs[1..][1..] == [SyncJob(x)] && jobs[1..][1..][1..] == [];
    assert Drains(s3, []) && Drains(s2, [SyncJob(x)]) && Drains(s1, [FileJob(g), SyncJob(x)]);
    assert After(s2, [SyncJob(x)]) == s3;
    assert After(s1, [FileJob(g), SyncJob(x)]) == s3;
    assert After(s, jobs) == s3;
  }

  lemma Late(s: State, f: Id, g: Id, x: Id)
    requires OneClosed(s, f, g, x)
    ensures var jobs := [FileJob(g), SyncJob(x)];
            Drains(s, jobs) && Idle(After(s, jobs)) && SyncIs(After(s, jobs), x, Status.InProgress)
  {
    var jobs := [FileJob(g), SyncJob(x)];
    ZeroFileCloses(s.tables, g);
    var s1 := ProcessJob(s, jobs[0]);
    assert s1.queues.files == map[] && s1.queues.syncs.Keys == {x};
    assert CompletedOf(s1.tables.files, x) == {f, g};
    assert |{f, g}| == 2;
    var s2 := ProcessJob(s1, jobs[1]);
    assert s2.queues.syncs == map[];
    assert jobs[1..] == [SyncJob(x)] && jobs[1..][1..] == [];
    assert Drains(s2, []) && Drains(s1, [SyncJob(x)]);
    assert After(s1, [SyncJob(x)]) == s2;
    assert After(s, jobs) == s2;
  }
}
