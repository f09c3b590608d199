/** Python's `list.sort(key=...)` and `sorted(..., key=...)`: a stable sort.
    The order is given as a strict "comes before" relation `lt`; for a key
    function `key` it is `lt(a, b) == key(a) < key(b)`. The model is an
    insertion sort on sequences. */
module Sorting {

  /** `lt` is a strict weak order: irreflexive, transitive, and its
      incomparability is transitive too (as for any `key(a) < key(b)`). */
  ghost predicate StrictWeakOrder<T(!new)>(lt: (T, T) -> bool) {
    && (forall a :: !lt(a, a))
    && (forall a, b, c :: lt(a, b) && lt(b, c) ==> lt(a, c))
    && (forall a, b, c :: !lt(a, b) && !lt(b, c) ==> !lt(a, c))
  }

  /** No element comes strictly before an element to its left. */
  predicate SortedBy<T>(xs: seq<T>, lt: (T, T) -> bool) {
    forall i, j :: 0 <= i < j < |xs| ==> !lt(xs[j], xs[i])
  }

  /** Neither comes before the other: equal keys. */
  predicate Tied<T>(lt: (T, T) -> bool, a: T, b: T) {
    !lt(a, b) && !lt(b, a)
  }

  /** The elements of `xs` whose key equals that of `k`, in their order in `xs`. */
  function Ties<T>(xs: seq<T>, k: T, lt: (T, T) -> bool): seq<T> {
    if xs == [] then []
    else (if Tied(lt, xs[0], k) then [xs[0]] else []) + Ties(xs[1..], k, lt)
  }

  /** Inserts `x`, which came before every element of `xs` in the input,
      ahead of the first element that does not come strictly before it. */
  function Insert<T>(x: T, xs: seq<T>, lt: (T, T) -> bool): (r: seq<T>)
    ensures multiset(r) == multiset(xs) + multiset{x}
    ensures |r| == |xs| + 1
  {
    if xs == [] || !lt(xs[0], x) then [x] + xs
    else
      assert xs == [xs[0]] + xs[1..];
      [xs[0]] + Insert(x, xs[1..], lt)
  }

  /** The stable sort of `xs` by `lt`. */
  function SortBy<T>(xs: seq<T>, lt: (T, T) -> bool): (r: seq<T>)
    ensures multiset(r) == multiset(xs)
    ensures |r| == |xs|
  {
    if xs == [] then []
    else
      assert xs == [xs[0]] + xs[1..];
      Insert(xs[0], SortBy(xs[1..], lt), lt)
  }

  lemma {:induction false} InsertKeepsSorted<T(!new)>(x: T, xs: seq<T>, lt: (T, T) -> bool)
    requires StrictWeakOrder(lt) && SortedBy(xs, lt)
    ensures SortedBy(Insert(x, xs, lt), lt)
  {
    if xs != [] && lt(xs[0], x) {
      InsertKeepsSorted(x, xs[1..], lt);
      InsertedNotBefore(x, xs, lt);
      ConsSorted(xs[0], Insert(x, xs[1..], lt), lt);
    } else if xs != [] {
      forall e | e in xs ensures !lt(e, x) {
        var k :| 0 <= k < |xs| && xs[k] == e;
        assert k > 0 ==> !lt(xs[k], xs[0]);
      }
      ConsSorted(x, xs, lt);
    }
  }

  /** Nothing in the insertion into the tail comes before the head it
      passed. */
  lemma InsertedNotBefore<T(!new)>(x: T, xs: seq<T>, lt: (T, T) -> bool)
    requires StrictWeakOrder(lt) && SortedBy(xs, lt) && xs != [] && lt(xs[0], x)
    ensures forall e :: e in Insert(x, xs[1..], lt) ==> !lt(e, xs[0])
  {
    var rest := Insert(x, xs[1..], lt);
    forall e | e in rest ensures !lt(e, xs[0]) {
      assert e in multiset(rest);
      if e != x {
        assert e in multiset(xs[1..]);
        var j :| 0 <= j < |xs[1..]| && xs[1..][j] == e;
        assert xs[j + 1] == e;
      }
    }
  }

  /** A head that no element of a sorted tail comes before keeps it sorted. */
  lemma ConsSorted<T>(h: T, rest: seq<T>, lt: (T, T) -> bool)
    requires SortedBy(rest, lt) && forall e :: e in rest ==> !lt(e, h)
    ensures SortedBy([h] + rest, lt)
  {
    var r := [h] + rest;
    forall i, j | 0 <= i < j < |r| ensures !lt(r[j], r[i]) {
      assert r[j] == rest[j - 1];
      if i > 0 {
        assert r[i] == rest[i - 1];
      }
    }
  }


  /** The result of `SortBy` is sorted. */
  lemma {:induction false} SortBySorted<T(!new)>(xs: seq<T>, lt: (T, T) -> bool)
    requires StrictWeakOrder(lt)
    ensures SortedBy(SortBy(xs, lt), lt)
  {
    if xs != [] {
      SortBySorted(xs[1..], lt);
      InsertKeepsSorted(xs[0], SortBy(xs[1..], lt), lt);
    }
  }

  lemma {:induction false} TiesAppend<T>(a: seq<T>, b: seq<T>, k: T, lt: (T, T) -> bool)
    ensures Ties(a + b, k, lt) == Ties(a, k, lt) + Ties(b, k, lt)
  {
    if a == [] {
      assert a + b == b;
    } else {
      var h := if Tied(lt, a[0], k) then [a[0]] else [];
      assert (a + b)[0] == a[0];
      assert (a + b)[1..] == a[1..] + b;
      TiesAppend(a[1..], b, k, lt);
      calc {
        Ties(a + b, k, lt);
        h + Ties(a[1..] + b, k, lt);
        h + (Ties(a[1..], k, lt) + Ties(b, k, lt));
        (h + Ties(a[1..], k, lt)) + Ties(b, k, lt);
      }
    }
  }

  /** The ties in a prefix are a prefix of the ties. */
  lemma TiesPrefix<T>(top: seq<T>, xs: seq<T>, k: T, lt: (T, T) -> bool)
    requires top <= xs
    ensures Ties(top, k, lt) <= Ties(xs, k, lt)
  {
    assert xs == top + xs[|top|..];
    TiesAppend(top, xs[|top|..], k, lt);
  }

  lemma {:induction false} InsertTies<T(!new)>(x: T, xs: seq<T>, k: T, lt: (T, T) -> bool)
    requires StrictWeakOrder(lt)
    ensures Ties(Insert(x, xs, lt), k, lt)
         == (if Tied(lt, x, k) then [x] else []) + Ties(xs, k, lt)
  {
    var hx := if Tied(lt, x, k) then [x] else [];
    if xs == [] || !lt(xs[0], x) {
      assert Insert(x, xs, lt) == [x] + xs;
      TiesAppend([x], xs, k, lt);
      assert Ties([x], k, lt) == hx;
    } else {
      var rest := Insert(x, xs[1..], lt);
      var h0 := if Tied(lt, xs[0], k) then [xs[0]] else [];
      assert Insert(x, xs, lt) == [xs[0]] + rest;
      InsertTies(x, xs[1..], k, lt);
      TiesAppend([xs[0]], rest, k, lt);
      assert Ties([xs[0]], k, lt) == h0;
      assert Ties(xs, k, lt) == h0 + Ties(xs[1..], k, lt);
      if Tied(lt, x, k) {
        assert lt(xs[0], k);
        assert h0 == [];
      }
    }
  }

  /** Stability: elements with equal keys keep their input order. */
  lemma {:induction false} SortByStable<T(!new)>(xs: seq<T>, k: T, lt: (T, T) -> bool)
    requires StrictWeakOrder(lt)
    ensures Ties(SortBy(xs, lt), k, lt) == Ties(xs, k, lt)
  {
    if xs != [] {
      SortByStable(xs[1..], k, lt);
      InsertTies(xs[0], SortBy(xs[1..], lt), k, lt);
    }
  }
}
