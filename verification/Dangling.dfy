/** The set-at-a-time update of dangling files against one closure attempt a file. */
module Dangling {
  import opened Types
  import opened Statements
  import opened Protocol
  import opened Invariant
  import opened RerunSteps

  function AttemptEach(t: Tables, files: seq<Id>): Tables
    decreases |files|
  {
    if files == [] then t else AttemptEach(AttemptFileClosure(t, files[0]), files[1..])
  }

  /** The files after closing every closable one of a set. */
  function ClosedAmong(t: Tables, files: set<Id>): map<Id, File> {
    map f | f in t.files ::
      if f in files && FileClosable(t, f) then t.files[f].(status := Status.Completed) else t.files[f]
  }

  lemma AttemptThenRest(t: Tables, first: Id, rest: set<Id>)
    ensures ClosedAmong(AttemptFileClosure(t, first), rest) == ClosedAmong(t, {first} + rest)
  {
    var t' := AttemptFileClosure(t, first);
    assert !FileClosable(t', first);
    forall f | f in t.files
      ensures ClosedAmong(t', rest)[f] == ClosedAmong(t, {first} + rest)[f]
    {
      assert f != first ==> FileClosable(t', f) == FileClosable(t, f);
    }
  }

  /** Attempts do not influence one another: each closes its file if and only if it could at the start. */
  lemma {:induction false} AttemptsAreIndependent(t: Tables, files: seq<Id>)
    ensures AttemptEach(t, files) == t.(files := ClosedAmong(t, set f | f in files))
    decreases |files|
  {
    if files == [] {
      assert ClosedAmong(t, {}) == t.files;
    } else {
      AttemptsAreIndependent(AttemptFileClosure(t, files[0]), files[1..]);
      AttemptThenRest(t, files[0], set f | f in files[1..]);
      assert files == [files[0]] + files[1..];
      assert (set f | f in files) == {files[0]} + (set f | f in files[1..]);
    }
  }

  predicate OpenFile(t: Tables, base: Id, f: Id) {
    f in t.files && t.files[f].syncId == base && t.files[f].status == Status.InProgress
  }

  /** A file only the attempt closes: its total is zero and none of its entities is closed. */
  predicate ZeroOpenFile(t: Tables, base: Id, f: Id) {
    OpenFile(t, base, f) && t.files[f].totalEntities == Some(0) && ClosedOf(t.entities, f) == {}
  }

  lemma DanglingIsClosable(t: Tables, base: Id, f: Id)
    requires OpenFile(t, base, f)
    ensures Dangling(t, base, f) <==> FileClosable(t, f) && !ZeroOpenFile(t, base, f)
  {
  }

  /** One update equals one attempt, in any order, on each open file whose total is not zero. */
  lemma {:induction false} UpdateIsAttempts(t: Tables, base: Id, files: seq<Id>)
    requires forall f :: f in files <==> OpenFile(t, base, f) && t.files[f].totalEntities != Some(0)
    ensures UpdateDanglingFiles(t, base) == AttemptEach(t, files)
  {
    AttemptsAreIndependent(t, files);
    forall f | f in t.files
      ensures Dangling(t, base, f) <==> f in files && FileClosable(t, f)
    {
      if OpenFile(t, base, f) {
        DanglingIsClosable(t, base, f);
      }
    }
    assert UpdateDanglingFiles(t, base).files == AttemptEach(t, files).files;
  }

  /** With all open files attempted, the two agree if and only if no open file has a zero total and none closed. */
  lemma {:induction false} UpdateIsAllAttemptsExactly(t: Tables, base: Id, files: seq<Id>)
    requires forall f :: f in files <==> OpenFile(t, base, f)
    ensures UpdateDanglingFiles(t, base) == AttemptEach(t, files) <==> forall f :: !ZeroOpenFile(t, base, f)
  {
    AttemptsAreIndependent(t, files);
    var updated, attempted := UpdateDanglingFiles(t, base).files, AttemptEach(t, files).files;
    forall f | f in t.files
      ensures updated[f] == attempted[f] <==> !ZeroOpenFile(t, base, f)
    {
      if OpenFile(t, base, f) {
        DanglingIsClosable(t, base, f);
      }
    }
    if forall f :: !ZeroOpenFile(t, base, f) {
      assert updated == attempted;
    }
  }

  /** After the sweep of a rerun no such file is left, so there the update is exactly the attempts. */
  lemma {:induction false} SweptUpdateIsAllAttempts(t: Tables, base: Id, files: seq<Id>)
    requires FileCapacity(t) && HistorySound(t)
    requires forall f :: f in files <==> OpenFile(DeleteEmptyFiles(t, base), base, f)
    ensures UpdateDanglingFiles(DeleteEmptyFiles(t, base), base) == AttemptEach(DeleteEmptyFiles(t, base), files)
  {
    var swept := DeleteEmptyFiles(t, base);
    EmptyFilesTakeNothingAlong(t, base);
    forall f
      ensures !ZeroOpenFile(swept, base, f)
    {
      if OpenFile(swept, base, f) {
        assert EntitiesOf(t.entities, f) != {};
        assert f in t.files && t.files[f] == swept.files[f];
      }
    }
    UpdateIsAllAttemptsExactly(swept, base, files);
  }
}
