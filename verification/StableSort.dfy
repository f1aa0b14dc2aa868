/**
 The array sort the services rely on: a stable sort by a comparator.  It is written as insertion, which is no
 loss: the order, with ties left as they were, has only one result (StableOrderIsUnique).
 */
module StableSort {

  ghost predicate TotalPreorder<T(!new)>(leq: (T, T) -> bool) {
    && (forall a, b :: leq(a, b) || leq(b, a))
    && (forall a, b, c :: leq(a, b) && leq(b, c) ==> leq(a, c))
  }

  ghost predicate Ordered<T>(s: seq<T>, leq: (T, T) -> bool) {
    forall i, j :: 0 <= i < j < |s| ==> leq(s[i], s[j])
  }

  /** Puts x behind every element that may stand before it. */
  function Insert<T>(s: seq<T>, x: T, leq: (T, T) -> bool): (r: seq<T>)
    ensures |r| == |s| + 1
  {
    if s == [] then [x]
    else if leq(s[|s| - 1], x) then s + [x]
    else Insert(s[..|s| - 1], x, leq) + [s[|s| - 1]]
  }

  function Sort<T>(s: seq<T>, leq: (T, T) -> bool): (r: seq<T>)
    ensures |r| == |s|
  {
    if s == [] then [] else Insert(Sort(s[..|s| - 1], leq), s[|s| - 1], leq)
  }

  lemma {:induction false} InsertKeepsElements<T>(s: seq<T>, x: T, leq: (T, T) -> bool)
    ensures multiset(Insert(s, x, leq)) == multiset(s) + multiset{x}
  {
    if s != [] && !leq(s[|s| - 1], x) {
      InsertKeepsElements(s[..|s| - 1], x, leq);
      assert s == s[..|s| - 1] + [s[|s| - 1]];
    }
  }

  lemma {:induction false} InsertKeepsOrder<T(!new)>(s: seq<T>, x: T, leq: (T, T) -> bool)
    requires TotalPreorder(leq) && Ordered(s, leq)
    ensures Ordered(Insert(s, x, leq), leq)
  {
    if s != [] {
      var last, rest := s[|s| - 1], s[..|s| - 1];
      if leq(last, x) {
        var r := s + [x];
        forall i, j | 0 <= i < j < |r| ensures leq(r[i], r[j]) {
          if j == |s| && i < |s| - 1 { assert leq(s[i], last); }
        }
      } else {
        var inner := Insert(rest, x, leq);
        InsertKeepsOrder(rest, x, leq);
        InsertKeepsElements(rest, x, leq);
        forall i | 0 <= i < |inner| ensures leq(inner[i], last) {
          assert inner[i] in multiset(inner);
          assert inner[i] == x || inner[i] in rest;
        }
      }
    }
  }

  lemma {:induction false} SortContract<T(!new)>(s: seq<T>, leq: (T, T) -> bool)
    requires TotalPreorder(leq)
    ensures Ordered(Sort(s, leq), leq)
    ensures multiset(Sort(s, leq)) == multiset(s)
  {
    hide TotalPreorder, Ordered, Insert;
    if s == [] {
      NothingIsOrdered(leq);
    } else {
      var rest, last := s[..|s| - 1], s[|s| - 1];
      SortContract(rest, leq);
      InsertKeepsOrder(Sort(rest, leq), last, leq);
      InsertKeepsElements(Sort(rest, leq), last, leq);
      AllButLast(s);
    }
  }

  lemma AllButLast<T>(s: seq<T>)
    requires s != []
    ensures multiset(s) == multiset(s[..|s| - 1]) + multiset{s[|s| - 1]}
  {
    assert s == s[..|s| - 1] + [s[|s| - 1]];
  }

  lemma NothingIsOrdered<T>(leq: (T, T) -> bool)
    ensures Ordered([], leq)
  {
  }

  // ----- stability -----

  predicate Tied<T>(a: T, b: T, leq: (T, T) -> bool) {
    leq(a, b) && leq(b, a)
  }

  /** The elements the comparator does not tell from x, in their order. */
  ghost function Ties<T>(s: seq<T>, x: T, leq: (T, T) -> bool): (r: seq<T>)
    ensures forall y :: y in r ==> y in s && Tied(y, x, leq)
    ensures forall y :: y in s && Tied(y, x, leq) ==> y in r
  {
    if s == [] then []
    else Ties(s[..|s| - 1], x, leq) + (if Tied(s[|s| - 1], x, leq) then [s[|s| - 1]] else [])
  }

  lemma TiesWithOneMore<T>(s: seq<T>, last: T, x: T, leq: (T, T) -> bool)
    ensures Ties(s + [last], x, leq) == Ties(s, x, leq) + (if Tied(last, x, leq) then [last] else [])
  {
    assert (s + [last])[..|s|] == s;
  }

  lemma TiesAreTied<T(!new)>(a: T, b: T, x: T, leq: (T, T) -> bool)
    requires TotalPreorder(leq) && Tied(a, x, leq) && Tied(b, x, leq)
    ensures Tied(a, b, leq)
  {
  }

  lemma {:induction false} InsertIsStable<T(!new)>(s: seq<T>, x: T, leq: (T, T) -> bool, y: T)
    requires TotalPreorder(leq)
    ensures Ties(Insert(s, x, leq), y, leq) == Ties(s, y, leq) + (if Tied(x, y, leq) then [x] else [])
  {
    hide TotalPreorder, Ties;
    if s == [] || leq(s[|s| - 1], x) {
      assert Insert(s, x, leq) == s + [x];
      TiesWithOneMore(s, x, y, leq);
    } else {
      var rest, last := s[..|s| - 1], s[|s| - 1];
      InsertIsStable(rest, x, leq, y);
      TiesWithOneMore(Insert(rest, x, leq), last, y, leq);
      TiesWithOneMore(rest, last, y, leq);
      assert rest + [last] == s;
      if Tied(x, y, leq) && Tied(last, y, leq) { TiesAreTied(last, x, y, leq); }
    }
  }

  /** Elements the comparator does not tell apart keep their order. */
  lemma {:induction false} SortIsStable<T(!new)>(s: seq<T>, leq: (T, T) -> bool, x: T)
    requires TotalPreorder(leq)
    ensures Ties(Sort(s, leq), x, leq) == Ties(s, x, leq)
  {
    hide TotalPreorder;
    if s != [] {
      SortIsStable(s[..|s| - 1], leq, x);
      InsertIsStable(Sort(s[..|s| - 1], leq), s[|s| - 1], leq, x);
    }
  }

  /** An ordered sequence with the same ties is the sorted one: no other stable sort exists. */
  lemma StableOrderIsUnique<T(!new)>(s: seq<T>, t: seq<T>, leq: (T, T) -> bool)
    requires TotalPreorder(leq) && Ordered(t, leq)
    requires forall x :: Ties(t, x, leq) == Ties(s, x, leq)
    ensures t == Sort(s, leq)
  {
    hide TotalPreorder, Ordered, Ties;
    SortContract(s, leq);
    forall x ensures Ties(t, x, leq) == Ties(Sort(s, leq), x, leq) { SortIsStable(s, leq, x); }
    SameTiesSameOrder(t, Sort(s, leq), leq);
  }

  lemma {:induction false} SameTiesSameOrder<T(!new)>(a: seq<T>, b: seq<T>, leq: (T, T) -> bool)
    requires TotalPreorder(leq) && Ordered(a, leq) && Ordered(b, leq)
    requires forall x :: Ties(a, x, leq) == Ties(b, x, leq)
    ensures a == b
    decreases |a|
  {
    hide TotalPreorder, Ordered, Ties;
    if a != [] && b != [] {
      LastsAreTied(a, b, leq);
      LastsAreEqual(a, b, leq);
      assert a[..|a| - 1] + [a[|a| - 1]] == a && b[..|b| - 1] + [a[|a| - 1]] == b;
      SameTiesBefore(a[..|a| - 1], b[..|b| - 1], a[|a| - 1], leq);
      StillOrdered(a, leq);
      StillOrdered(b, leq);
      SameTiesSameOrder(a[..|a| - 1], b[..|b| - 1], leq);
    } else if a != [] {
      TiedWithItself(a, leq);
      NoTies(a[0], leq);
    } else if b != [] {
      TiedWithItself(b, leq);
      NoTies(b[0], leq);
    }
  }

  lemma NoTies<T>(x: T, leq: (T, T) -> bool)
    ensures Ties([], x, leq) == []
  {
  }

  lemma StillOrdered<T>(s: seq<T>, leq: (T, T) -> bool)
    requires s != [] && Ordered(s, leq)
    ensures Ordered(s[..|s| - 1], leq)
  {
  }

  lemma SameTiesBefore<T(!new)>(a: seq<T>, b: seq<T>, last: T, leq: (T, T) -> bool)
    requires forall x :: Ties(a + [last], x, leq) == Ties(b + [last], x, leq)
    ensures forall x :: Ties(a, x, leq) == Ties(b, x, leq)
  {
    forall x ensures Ties(a, x, leq) == Ties(b, x, leq) {
      hide Ties;
      TiesWithOneMore(a, last, x, leq);
      TiesWithOneMore(b, last, x, leq);
      assert Ties(a + [last], x, leq) == Ties(b + [last], x, leq);
      SameInit(Ties(a, x, leq), Ties(b, x, leq), if Tied(last, x, leq) then [last] else []);
    }
  }

  lemma TiedWithItself<T(!new)>(s: seq<T>, leq: (T, T) -> bool)
    requires TotalPreorder(leq) && s != []
    ensures s[0] in Ties(s, s[0], leq)
  {
    assert Tied(s[0], s[0], leq);
  }

  lemma TiesBeforeLast<T>(s: seq<T>, x: T, leq: (T, T) -> bool)
    requires s != []
    ensures Ties(s, x, leq) == Ties(s[..|s| - 1], x, leq) + (if Tied(s[|s| - 1], x, leq) then [s[|s| - 1]] else [])
  {
  }

  lemma SameInit<T>(a: seq<T>, b: seq<T>, c: seq<T>)
    requires a + c == b + c
    ensures a == b
  {
    assert a == (a + c)[..|a + c| - |c|] && b == (b + c)[..|b + c| - |c|];
  }

  lemma LastsAreEqual<T(!new)>(a: seq<T>, b: seq<T>, leq: (T, T) -> bool)
    requires a != [] && b != [] && Tied(a[|a| - 1], a[|a| - 1], leq) && Tied(b[|b| - 1], a[|a| - 1], leq)
    requires forall x :: Ties(a, x, leq) == Ties(b, x, leq)
    ensures a[|a| - 1] == b[|b| - 1]
  {
    hide Ties, Tied;
    var x, y := a[|a| - 1], b[|b| - 1];
    TiesBeforeLast(a, x, leq);
    TiesBeforeLast(b, x, leq);
    assert Ties(a, x, leq) == Ties(b, x, leq);
    SameEnd(Ties(a[..|a| - 1], x, leq), x, Ties(b[..|b| - 1], x, leq), y);
  }

  lemma SameEnd<T>(a: seq<T>, x: T, b: seq<T>, y: T)
    requires a + [x] == b + [y]
    ensures x == y
  {
    assert (a + [x])[|a + [x]| - 1] == x && (b + [y])[|b + [y]| - 1] == y;
  }

  lemma LastsAreTied<T(!new)>(a: seq<T>, b: seq<T>, leq: (T, T) -> bool)
    requires TotalPreorder(leq) && Ordered(a, leq) && Ordered(b, leq) && a != [] && b != []
    requires forall x :: Ties(a, x, leq) == Ties(b, x, leq)
    ensures Tied(a[|a| - 1], a[|a| - 1], leq) && Tied(b[|b| - 1], a[|a| - 1], leq)
  {
    var x, y := a[|a| - 1], b[|b| - 1];
    assert Tied(x, x, leq) && Tied(y, y, leq);
    assert x in Ties(b, x, leq);
    assert y in Ties(b, y, leq) && y in Ties(a, y, leq);
    assert x in b && y in a;
    assert leq(x, y) && leq(y, x);
  }

  // ----- sequences with the same elements -----

  lemma SameElements<T>(a: seq<T>, b: seq<T>, x: T)
    requires multiset(a) == multiset(b)
    ensures |a| == |b| && (x in a <==> x in b)
  {
    assert |multiset(a)| == |a| && |multiset(b)| == |b|;
    assert x in a <==> x in multiset(a);
    assert x in b <==> x in multiset(b);
  }

  lemma TakenOut<T>(s: seq<T>, j: nat)
    requires j < |s|
    ensures multiset(s) == multiset(s[..j] + s[j + 1..]) + multiset{s[j]}
  {
    assert s == s[..j] + [s[j]] + s[j + 1..];
  }

  lemma Cancel<T>(a: multiset<T>, b: multiset<T>, x: T)
    requires a + multiset{x} == b + multiset{x}
    ensures a == b
  {
    assert a == (a + multiset{x}) - multiset{x};
    assert b == (b + multiset{x}) - multiset{x};
  }

  /** Where the comparator tells all elements apart, the order and the elements decide the sequence. */
  lemma {:induction false} OrderIsUnique<T(!new)>(a: seq<T>, b: seq<T>, leq: (T, T) -> bool)
    requires TotalPreorder(leq) && Ordered(a, leq) && Ordered(b, leq) && multiset(a) == multiset(b)
    requires forall x, y :: x in a && y in a && leq(x, y) && leq(y, x) ==> x == y
    ensures a == b
    decreases |a|
  {
    assert |multiset(a)| == |a| && |multiset(b)| == |b|;
    if a != [] {
      var n := |a| - 1;
      LastOfBoth(a, b, leq);
      TakenOut(a, n);
      TakenOut(b, n);
      assert a[..n] + a[n + 1..] == a[..n] && b[..n] + b[n + 1..] == b[..n];
      Cancel(multiset(a[..n]), multiset(b[..n]), a[n]);
      OrderIsUnique(a[..n], b[..n], leq);
    }
  }

  lemma LastOfBoth<T(!new)>(a: seq<T>, b: seq<T>, leq: (T, T) -> bool)
    requires TotalPreorder(leq) && Ordered(a, leq) && Ordered(b, leq) && multiset(a) == multiset(b)
    requires forall x, y :: x in a && y in a && leq(x, y) && leq(y, x) ==> x == y
    requires a != []
    ensures |a| == |b| && a[|a| - 1] == b[|b| - 1]
  {
    var n := |a| - 1;
    SameElements(a, b, a[n]);
    SameElements(a, b, b[n]);
    assert leq(a[n], b[n]) && leq(b[n], a[n]);
  }
}
