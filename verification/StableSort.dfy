/** The stable sort behind `sorted(xs, key=...)` and `list.sort(key=...)`. A descending sort
    (`reverse=True`) is the ascending sort by the negated key: both leave equal keys in input order. */
module StableSort {

  ghost predicate SortedBy<T>(xs: seq<T>, key: T -> real) {
    forall i, j :: 0 <= i < j < |xs| ==> key(xs[i]) <= key(xs[j])
  }

  /** Inserts `x` before the first element whose key is at least its own. */
  function Insert<T>(x: T, xs: seq<T>, key: T -> real): (r: seq<T>)
    ensures |r| == |xs| + 1
    ensures multiset(r) == multiset(xs) + multiset{x}
  {
    if xs == [] || key(x) <= key(xs[0]) then [x] + xs
    else
      var rest := Insert(x, xs[1..], key);
      assert multiset([xs[0]] + rest) == multiset([xs[0]]) + multiset(rest);
      assert xs == [xs[0]] + xs[1..];
      [xs[0]] + rest
  }

  function Sort<T>(xs: seq<T>, key: T -> real): (r: seq<T>)
    ensures |r| == |xs|
    ensures multiset(r) == multiset(xs)
  {
    if xs == [] then []
    else
      assert xs == [xs[0]] + xs[1..];
      Insert(xs[0], Sort(xs[1..], key), key)
  }

  lemma {:induction false} InsertSorted<T>(x: T, xs: seq<T>, key: T -> real)
    requires SortedBy(xs, key)
    ensures SortedBy(Insert(x, xs, key), key)
  {
    if xs == [] || key(x) <= key(xs[0]) {
    } else {
      var rest := Insert(x, xs[1..], key);
      InsertSorted(x, xs[1..], key);
      forall j | 0 <= j < |rest| ensures key(xs[0]) <= key(rest[j]) {
        InsertMember(x, xs[1..], key, rest[j]);
      }
      hide Insert;
    }
  }

  lemma InsertMember<T>(x: T, xs: seq<T>, key: T -> real, y: T)
    requires y in Insert(x, xs, key)
    ensures y == x || y in xs
  {
    assert y in multiset(Insert(x, xs, key));
    if y != x {
      assert y in multiset(xs);
    }
    hide Insert;
  }

  lemma {:induction false} SortSorted<T>(xs: seq<T>, key: T -> real)
    ensures SortedBy(Sort(xs, key), key)
  {
    if xs == [] {
    } else {
      SortSorted(xs[1..], key);
      InsertSorted(xs[0], Sort(xs[1..], key), key);
    }
  }

  /** The elements whose key is exactly `k`, in order. */
  ghost function WithKey<T>(xs: seq<T>, key: T -> real, k: real): seq<T> {
    if xs == [] then []
    else (if key(xs[0]) == k then [xs[0]] else []) + WithKey(xs[1..], key, k)
  }

  lemma {:induction false} InsertStable<T>(x: T, xs: seq<T>, key: T -> real, k: real)
    requires SortedBy(xs, key)
    ensures WithKey(Insert(x, xs, key), key, k) == WithKey([x] + xs, key, k)
  {
    hide SortedBy, Insert, WithKey;
    InsertFirst(x, xs, key);
    if xs == [] || key(x) <= key(xs[0]) {
    } else {
      var y, ys := xs[0], xs[1..];
      TailSorted(xs, key);
      InsertStable(x, ys, key, k);
      WithKeyCons(y, Insert(x, ys, key), key, k);
      WithKeyCons(x, ys, key, k);
      WithKeyCons(y, ys, key, k);
      WithKeyCons(x, xs, key, k);
      assert [y] + ys == xs;
      var same := WithKey(ys, key, k);
      assert [] + same == same && [] + ([x] + same) == [x] + same && [] + ([y] + same) == [y] + same;
    }
  }

  lemma InsertFirst<T>(x: T, xs: seq<T>, key: T -> real)
    ensures Insert(x, xs, key)
            == if xs == [] || key(x) <= key(xs[0]) then [x] + xs else [xs[0]] + Insert(x, xs[1..], key)
  {}

  lemma TailSorted<T>(xs: seq<T>, key: T -> real)
    requires xs != [] && SortedBy(xs, key)
    ensures SortedBy(xs[1..], key)
  {}

  lemma WithKeyCons<T>(x: T, xs: seq<T>, key: T -> real, k: real)
    ensures WithKey([x] + xs, key, k) == (if key(x) == k then [x] else []) + WithKey(xs, key, k)
  {
    assert ([x] + xs)[1..] == xs;
  }

  /** Stability: elements with equal keys keep their input order. */
  lemma {:induction false} SortStable<T>(xs: seq<T>, key: T -> real, k: real)
    ensures WithKey(Sort(xs, key), key, k) == WithKey(xs, key, k)
  {
    if xs == [] {
    } else {
      SortStable(xs[1..], key, k);
      SortSorted(xs[1..], key);
      var tail := Sort(xs[1..], key);
      InsertStable(xs[0], tail, key, k);
      assert ([xs[0]] + tail)[1..] == tail;
    }
  }

  /** Membership is unchanged by sorting. */
  lemma SortMembers<T>(xs: seq<T>, key: T -> real)
    ensures forall x :: x in Sort(xs, key) <==> x in xs
  {
    forall x ensures x in Sort(xs, key) <==> x in xs {
      assert x in Sort(xs, key) <==> x in multiset(Sort(xs, key));
      assert x in xs <==> x in multiset(xs);
    }
  }
}
