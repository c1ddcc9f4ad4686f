/** The canonical text of a batch: its ids sorted by the locale order and joined. */
module Hashing {
  import opened Types

  /** `leq(a, b)` says that the locale comparison does not put `a` after `b`. */
  type Order = (Id, Id) -> bool

  ghost predicate TotalPreorder(leq: Order) {
    && (forall a, b :: leq(a, b) || leq(b, a))
    && (forall a, b, c :: leq(a, b) && leq(b, c) ==> leq(a, c))
  }

  /** Different ids that the comparison does not tell apart. */
  predicate Tied(leq: Order, a: Id, b: Id) {
    a != b && leq(a, b) && leq(b, a)
  }

  /** Puts `x` before the first element it does not come after. */
  function Insert(x: Id, xs: seq<Id>, leq: Order): seq<Id> {
    if xs == [] || leq(x, xs[0]) then [x] + xs else [xs[0]] + Insert(x, xs[1..], leq)
  }

  /** A stable sort: elements that tie keep their order. */
  function Sorted(ids: seq<Id>, leq: Order): seq<Id> {
    if ids == [] then [] else Insert(ids[0], Sorted(ids[1..], leq), leq)
  }

  function Join(ids: seq<Id>): string {
    if ids == [] then "" else ids[0] + Join(ids[1..])
  }

  function BatchText(ids: seq<Id>, leq: Order): string {
    Join(Sorted(ids, leq))
  }

  predicate InOrder(ids: seq<Id>, leq: Order) {
    forall i, j :: 0 <= i < j < |ids| ==> leq(ids[i], ids[j])
  }

  ghost predicate OfLength(ids: seq<Id>, n: nat) {
    forall i | 0 <= i < |ids| :: |ids[i]| == n
  }

  /******* Sorting *******/

  lemma {:induction false} InsertSize(x: Id, xs: seq<Id>, leq: Order)
    ensures |Insert(x, xs, leq)| == |xs| + 1
  {
    if xs != [] && !leq(x, xs[0]) {
      InsertSize(x, xs[1..], leq);
    }
  }

  lemma {:induction false} SortedSize(ids: seq<Id>, leq: Order)
    ensures |Sorted(ids, leq)| == |ids|
  {
    if ids != [] {
      SortedSize(ids[1..], leq);
      InsertSize(ids[0], Sorted(ids[1..], leq), leq);
    }
  }

  lemma {:induction false} InsertSorts(x: Id, xs: seq<Id>, leq: Order)
    requires TotalPreorder(leq) && InOrder(xs, leq)
    ensures InOrder(Insert(x, xs, leq), leq)
    ensures multiset(Insert(x, xs, leq)) == multiset{x} + multiset(xs)
  {
    if xs != [] {
      assert xs == [xs[0]] + xs[1..];
      if !leq(x, xs[0]) {
        var rest := Insert(x, xs[1..], leq);
        InsertSorts(x, xs[1..], leq);
        forall j | 0 <= j < |rest|
          ensures leq(xs[0], rest[j])
        {
          assert rest[j] in multiset(rest);
          assert rest[j] == x || rest[j] in xs[1..];
        }
      }
    }
  }

  /** The stored batch is a sorted permutation of its slice. */
  lemma {:induction false} SortedSorts(ids: seq<Id>, leq: Order)
    requires TotalPreorder(leq)
    ensures InOrder(Sorted(ids, leq), leq) && multiset(Sorted(ids, leq)) == multiset(ids)
  {
    if ids != [] {
      SortedSorts(ids[1..], leq);
      InsertSorts(ids[0], Sorted(ids[1..], leq), leq);
      assert ids == [ids[0]] + ids[1..];
    }
  }

  lemma SameFirst(a: seq<Id>, b: seq<Id>, leq: Order)
    requires InOrder(a, leq) && InOrder(b, leq) && multiset(a) == multiset(b) && a != [] && b != []
    requires forall x, y | x in a && y in a :: !Tied(leq, x, y)
    ensures a[0] == b[0]
  {
    assert a[0] in multiset(b) && b[0] in multiset(a);
    var i :| 0 <= i < |b| && b[i] == a[0];
    var j :| 0 <= j < |a| && a[j] == b[0];
    assert !Tied(leq, a[0], a[j]);
  }

  lemma {:induction false} SortedIsUnique(a: seq<Id>, b: seq<Id>, leq: Order)
    requires InOrder(a, leq) && InOrder(b, leq) && multiset(a) == multiset(b)
    requires forall x, y | x in a && y in a :: !Tied(leq, x, y)
    ensures a == b
  {
    assert |multiset(a)| == |multiset(b)|;
    if a != [] {
      SameFirst(a, b, leq);
      assert a == [a[0]] + a[1..] && b == [b[0]] + b[1..];
      assert multiset(a[1..]) == multiset(a) - multiset{a[0]};
      assert multiset(b[1..]) == multiset(b) - multiset{b[0]};
      SortedIsUnique(a[1..], b[1..], leq);
    }
  }

  /******* Joining *******/

  lemma {:induction false} JoinIsInjective(a: seq<Id>, b: seq<Id>, n: nat)
    requires 0 < n && OfLength(a, n) && OfLength(b, n) && Join(a) == Join(b)
    ensures a == b
  {
    if a != [] && b != [] {
      var text := Join(a);
      assert text[..n] == a[0] && text[..n] == b[0];
      assert text[n..] == Join(a[1..]) && text[n..] == Join(b[1..]);
      JoinIsInjective(a[1..], b[1..], n);
    }
  }

  lemma SortedKeepsLength(ids: seq<Id>, leq: Order, n: nat)
    requires TotalPreorder(leq) && OfLength(ids, n)
    ensures OfLength(Sorted(ids, leq), n)
  {
    SortedSorts(ids, leq);
    forall i | 0 <= i < |Sorted(ids, leq)|
      ensures |Sorted(ids, leq)[i]| == n
    {
      assert Sorted(ids, leq)[i] in multiset(ids);
    }
  }

  /******* The text is canonical *******/

  /** Ids of one length: equal texts come from the same ids only. */
  lemma {:induction false} TextDeterminesBatch(a: seq<Id>, b: seq<Id>, leq: Order, n: nat)
    requires TotalPreorder(leq) && 0 < n && OfLength(a, n) && OfLength(b, n)
    requires BatchText(a, leq) == BatchText(b, leq)
    ensures multiset(a) == multiset(b)
  {
    SortedKeepsLength(a, leq, n);
    SortedKeepsLength(b, leq, n);
    JoinIsInjective(Sorted(a, leq), Sorted(b, leq), n);
    SortedSorts(a, leq);
    SortedSorts(b, leq);
  }

  lemma {:induction false} PermutedBatchSameText(a: seq<Id>, b: seq<Id>, leq: Order)
    requires TotalPreorder(leq) && multiset(a) == multiset(b)
    requires forall x, y | x in a && y in a :: !Tied(leq, x, y)
    ensures Sorted(a, leq) == Sorted(b, leq)
  {
    SortedSorts(a, leq);
    SortedSorts(b, leq);
    forall x | x in Sorted(a, leq)
      ensures x in a
    {
      assert x in multiset(a);
    }
    SortedIsUnique(Sorted(a, leq), Sorted(b, leq), leq);
  }

  /** For ids of one length that the order tells apart, texts are equal exactly when the batches hold the same ids. */
  lemma {:induction false} TextIsCanonical(a: seq<Id>, b: seq<Id>, leq: Order, n: nat)
    requires TotalPreorder(leq) && 0 < n && OfLength(a, n) && OfLength(b, n)
    requires forall x, y | x in a && y in a :: !Tied(leq, x, y)
    ensures BatchText(a, leq) == BatchText(b, leq) <==> multiset(a) == multiset(b)
  {
    if multiset(a) == multiset(b) {
      PermutedBatchSameText(a, b, leq);
    } else if BatchText(a, leq) == BatchText(b, leq) {
      TextDeterminesBatch(a, b, leq, n);
    }
  }

  /** Two tied ids land in the order in which they came. */
  lemma {:induction false} TiedKeepOrder(x: Id, y: Id, xs: seq<Id>, leq: Order)
    requires TotalPreorder(leq) && Tied(leq, x, y)
    ensures Insert(x, Insert(y, xs, leq), leq) != Insert(y, Insert(x, xs, leq), leq)
  {
    assert xs != [] ==> (leq(x, xs[0]) <==> leq(y, xs[0]));
    if xs != [] && !leq(y, xs[0]) {
      var yx, xy := [xs[0]] + Insert(y, xs[1..], leq), [xs[0]] + Insert(x, xs[1..], leq);
      assert yx[1..] == Insert(y, xs[1..], leq) && xy[1..] == Insert(x, xs[1..], leq);
      TiedKeepOrder(x, y, xs[1..], leq);
      var a, b := Insert(x, Insert(y, xs, leq), leq), Insert(y, Insert(x, xs, leq), leq);
      assert a[1..] == Insert(x, Insert(y, xs[1..], leq), leq);
      assert b[1..] == Insert(y, Insert(x, xs[1..], leq), leq);
    } else {
      assert ([y] + xs)[0] == y && ([x] + xs)[0] == x;
      assert Insert(x, Insert(y, xs, leq), leq)[0] == x;
      assert Insert(y, Insert(x, xs, leq), leq)[0] == y;
    }
  }

  /** A batch of one id length has one text for all its permutations if and only if no two of its ids tie. */
  lemma {:induction false} CanonicalExactly(ids: seq<Id>, leq: Order, n: nat)
    requires TotalPreorder(leq) && 0 < n && OfLength(ids, n)
    ensures (forall p, q :: multiset(p) == multiset(ids) && multiset(q) == multiset(ids)
                            ==> BatchText(p, leq) == BatchText(q, leq))
            <==> (forall x, y | x in ids && y in ids :: !Tied(leq, x, y))
  {
    if x, y :| x in ids && y in ids && Tied(leq, x, y) {
      var p, q := TiedPermutations(ids, x, y, leq, n);
    } else {
      forall p, q | multiset(p) == multiset(ids) && multiset(q) == multiset(ids)
        ensures BatchText(p, leq) == BatchText(q, leq)
      {
        forall x | x in p
          ensures x in ids
        {
          assert x in multiset(p);
        }
        PermutedBatchSameText(p, q, leq);
      }
    }
  }

  lemma {:induction false} TiedPermutations(ids: seq<Id>, x: Id, y: Id, leq: Order, n: nat)
    returns (p: seq<Id>, q: seq<Id>)
    requires TotalPreorder(leq) && 0 < n && OfLength(ids, n)
    requires x in ids && y in ids && Tied(leq, x, y)
    ensures multiset(p) == multiset(ids) && multiset(q) == multiset(ids)
    ensures BatchText(p, leq) != BatchText(q, leq)
  {
    var without := PullFront(ids, x);
    assert y in multiset(ids) && y in multiset(without);
    var rest := PullFront(without, y);
    p, q := [x, y] + rest, [y, x] + rest;
    assert multiset(p) == multiset{x, y} + multiset(rest) == multiset(q);
    SameIdsSameLength(p, ids, n);
    SameIdsSameLength(q, ids, n);
    TiedTextsDiffer(x, y, rest, leq, n);
  }

  lemma PullFront(ids: seq<Id>, x: Id) returns (rest: seq<Id>)
    requires x in ids
    ensures multiset(ids) == multiset{x} + multiset(rest)
  {
    var i :| 0 <= i < |ids| && ids[i] == x;
    rest := ids[..i] + ids[i + 1..];
    assert ids == ids[..i] + [x] + ids[i + 1..];
  }

  lemma TiedTextsDiffer(x: Id, y: Id, rest: seq<Id>, leq: Order, n: nat)
    requires TotalPreorder(leq) && Tied(leq, x, y) && 0 < n
    requires OfLength([x, y] + rest, n) && OfLength([y, x] + rest, n)
    ensures BatchText([x, y] + rest, leq) != BatchText([y, x] + rest, leq)
  {
    var p, q := [x, y] + rest, [y, x] + rest;
    assert p[1..] == [y] + rest && q[1..] == [x] + rest;
    assert p[1..][1..] == rest && q[1..][1..] == rest;
    assert Sorted(p, leq) == Insert(x, Insert(y, Sorted(rest, leq), leq), leq);
    assert Sorted(q, leq) == Insert(y, Insert(x, Sorted(rest, leq), leq), leq);
    TiedKeepOrder(x, y, Sorted(rest, leq), leq);
    SortedKeepsLength(p, leq, n);
    SortedKeepsLength(q, leq, n);
    if BatchText(p, leq) == BatchText(q, leq) {
      JoinIsInjective(Sorted(p, leq), Sorted(q, leq), n);
    }
  }

  lemma SameIdsSameLength(p: seq<Id>, ids: seq<Id>, n: nat)
    requires multiset(p) == multiset(ids) && OfLength(ids, n)
    ensures OfLength(p, n)
  {
    forall i | 0 <= i < |p|
      ensures |p[i]| == n
    {
      assert p[i] in multiset(ids);
    }
  }
}
