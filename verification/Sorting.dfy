/** Insertion into a sorted sequence by a strict order given as a function, and why the result is unique. */
module Sorting {

  function Insert<T>(before: (T, T) -> bool, x: T, xs: seq<T>): seq<T> {
    if xs == [] then [x]
    else if before(xs[0], x) then [xs[0]] + Insert(before, x, xs[1..])
    else [x] + xs
  }

  function Sort<T>(before: (T, T) -> bool, xs: seq<T>): seq<T> {
    if xs == [] then [] else Insert(before, xs[0], Sort(before, xs[1..]))
  }

  ghost predicate StrictlySorted<T(!new)>(before: (T, T) -> bool, xs: seq<T>) {
    forall i, j :: 0 <= i < j < |xs| ==> before(xs[i], xs[j])
  }

  /** `before` is a strict total order on the members of `xs`, and none of them occurs twice. */
  ghost predicate Orders<T(!new)>(before: (T, T) -> bool, xs: seq<T>) {
    && (forall i, j :: 0 <= i < j < |xs| ==> before(xs[i], xs[j]) || before(xs[j], xs[i]))
    && (forall x, y, z :: before(x, y) && before(y, z) ==> before(x, z))
    && (forall x :: !before(x, x))
  }

  lemma PrependSorted<T(!new)>(before: (T, T) -> bool, x: T, xs: seq<T>)
    requires StrictlySorted(before, xs) && forall y :: y in xs ==> before(x, y)
    ensures StrictlySorted(before, [x] + xs)
  {
  }

  lemma {:induction false} InsertSorts<T(!new)>(before: (T, T) -> bool, x: T, xs: seq<T>)
    requires StrictlySorted(before, xs)
    requires forall y :: y in xs ==> before(x, y) || before(y, x)
    requires forall a, b, c :: before(a, b) && before(b, c) ==> before(a, c)
    ensures StrictlySorted(before, Insert(before, x, xs))
    ensures forall y :: y in Insert(before, x, xs) <==> y == x || y in xs
  {
    if xs != [] {
      if before(xs[0], x) {
        InsertSorts(before, x, xs[1..]);
        PrependSorted(before, xs[0], Insert(before, x, xs[1..]));
      } else {
        forall y | y in xs ensures before(x, y) {
          var i :| 0 <= i < |xs| && xs[i] == y;
          assert before(x, xs[0]) && (i > 0 ==> before(xs[0], xs[i]));
        }
        PrependSorted(before, x, xs);
      }
    }
  }

  lemma {:induction false} SortSorts<T(!new)>(before: (T, T) -> bool, xs: seq<T>)
    requires Orders(before, xs)
    ensures StrictlySorted(before, Sort(before, xs))
    ensures forall x :: x in Sort(before, xs) <==> x in xs
  {
    if xs != [] {
      SortSorts(before, xs[1..]);
      InsertSorts(before, xs[0], Sort(before, xs[1..]));
    }
  }

  lemma {:induction false} SortKeepsMembers<T>(before: (T, T) -> bool, xs: seq<T>)
    ensures forall x :: x in Sort(before, xs) <==> x in xs
  {
    if xs != [] {
      SortKeepsMembers(before, xs[1..]);
      InsertKeepsMembers(before, xs[0], Sort(before, xs[1..]));
    }
  }

  lemma {:induction false} InsertKeepsMembers<T>(before: (T, T) -> bool, x: T, xs: seq<T>)
    ensures forall y :: y in Insert(before, x, xs) <==> y == x || y in xs
  {
    if xs != [] {
      InsertKeepsMembers(before, x, xs[1..]);
    }
  }

  /** A set has one strictly sorted listing. */
  lemma {:induction false} SortedIsUnique<T(!new)>(before: (T, T) -> bool, a: seq<T>, b: seq<T>)
    requires StrictlySorted(before, a) && StrictlySorted(before, b)
    requires forall x, y, z :: before(x, y) && before(y, z) ==> before(x, z)
    requires forall x :: !before(x, x)
    requires forall x :: x in a <==> x in b
    ensures a == b
  {
    assert |b| > 0 ==> b[0] in b;
    if a != [] {
      HeadsAgree(before, a, b);
      forall x ensures x in a[1..] <==> x in b[1..] {
        assert x in a[1..] <==> x in a && x != a[0];
        assert x in b[1..] <==> x in b && x != b[0];
      }
      SortedIsUnique(before, a[1..], b[1..]);
    }
  }

  lemma HeadsAgree<T(!new)>(before: (T, T) -> bool, a: seq<T>, b: seq<T>)
    requires StrictlySorted(before, a) && StrictlySorted(before, b) && a != []
    requires forall x, y, z :: before(x, y) && before(y, z) ==> before(x, z)
    requires forall x :: !before(x, x)
    requires forall x :: x in a <==> x in b
    ensures b != [] && a[0] == b[0]
  {
    assert a[0] in b;
    assert b[0] in a;
    var i :| 0 <= i < |b| && b[i] == a[0];
    var j :| 0 <= j < |a| && a[j] == b[0];
  }

  /** Sorting depends only on which members there are. */
  lemma SortIsCanonical<T(!new)>(before: (T, T) -> bool, a: seq<T>, b: seq<T>)
    requires Orders(before, a) && Orders(before, b)
    requires forall x :: x in a <==> x in b
    ensures Sort(before, a) == Sort(before, b)
  {
    SortSorts(before, a);
    SortSorts(before, b);
    SortedIsUnique(before, Sort(before, a), Sort(before, b));
  }

  /** A strict total order on the members of a set. */
  ghost predicate OrdersSet<T(!new)>(before: (T, T) -> bool, xs: set<T>) {
    && (forall x, y :: x in xs && y in xs ==> x == y || before(x, y) || before(y, x))
    && (forall x, y, z :: before(x, y) && before(y, z) ==> before(x, z))
    && (forall x :: !before(x, x))
  }

  /** sorted(xs): the members of a set in order. */
  method SortSet<T(==, !new)>(before: (T, T) -> bool, xs: set<T>) returns (ys: seq<T>)
    requires OrdersSet(before, xs)
    ensures StrictlySorted(before, ys)
    ensures forall x :: x in ys <==> x in xs
  {
    ys := [];
    var left := xs;
    while left != {}
      invariant left <= xs
      invariant StrictlySorted(before, ys)
      invariant forall x :: x in ys <==> x in xs && x !in left
      decreases left
    {
      var x :| x in left;
      InsertSorts(before, x, ys);
      ys := Insert(before, x, ys);
      left := left - {x};
    }
  }
}
