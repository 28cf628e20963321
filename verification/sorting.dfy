/** `[...xs].sort((a, b) => key(b) - key(a))`: the stable sort by a numeric key,
    largest first, used for the admin result rows and the "other nominees"
    list. Array.prototype.sort is stable, so rows with equal keys keep their
    input order. */
module Sorting {

  predicate SortedDesc<T>(xs: seq<T>, key: T -> int)
  {
    forall i, j :: 0 <= i < j < |xs| ==> key(xs[i]) >= key(xs[j])
  }

  /** The elements whose key is `k`, in order. */
  function WithKey<T>(xs: seq<T>, key: T -> int, k: int): seq<T>
  {
    if xs == [] then []
    else (if key(xs[0]) == k then [xs[0]] else []) + WithKey(xs[1..], key, k)
  }

  /** Every key is at most `b`. */
  predicate AllAtMost<T>(xs: seq<T>, key: T -> int, b: int)
  {
    forall i :: 0 <= i < |xs| ==> key(xs[i]) <= b
  }

  /** Places `x` in front of the first element whose key does not exceed its
      own, so it precedes every element with an equal key. */
  function Insert<T>(x: T, xs: seq<T>, key: T -> int): (r: seq<T>)
    ensures |r| == |xs| + 1
  {
    if xs == [] || key(xs[0]) <= key(x) then [x] + xs
    else [xs[0]] + Insert(x, xs[1..], key)
  }

  lemma {:induction false} InsertPermutes<T>(x: T, xs: seq<T>, key: T -> int)
    ensures multiset(Insert(x, xs, key)) == multiset(xs) + multiset{x}
    decreases |xs|
  {
    if !(xs == [] || key(xs[0]) <= key(x)) {
      InsertPermutes(x, xs[1..], key);
      assert xs == [xs[0]] + xs[1..];
    }
  }

  lemma {:induction false} InsertAtMost<T>(x: T, xs: seq<T>, key: T -> int, b: int)
    requires AllAtMost(xs, key, b) && key(x) <= b
    ensures AllAtMost(Insert(x, xs, key), key, b)
    decreases |xs|
  {
    if !(xs == [] || key(xs[0]) <= key(x)) {
      InsertAtMost(x, xs[1..], key, b);
    }
  }

  lemma {:induction false} InsertSorted<T>(x: T, xs: seq<T>, key: T -> int)
    requires SortedDesc(xs, key)
    ensures SortedDesc(Insert(x, xs, key), key)
    decreases |xs|
  {
    if !(xs == [] || key(xs[0]) <= key(x)) {
      InsertSorted(x, xs[1..], key);
      InsertAtMost(x, xs[1..], key, key(xs[0]));
    }
  }

  function SortDesc<T>(xs: seq<T>, key: T -> int): (r: seq<T>)
    ensures SortedDesc(r, key)
    ensures multiset(r) == multiset(xs)
    ensures |r| == |xs|
  {
    if xs == [] then []
    else
      assert xs == [xs[0]] + xs[1..];
      var rest := SortDesc(xs[1..], key);
      InsertSorted(xs[0], rest, key);
      InsertPermutes(xs[0], rest, key);
      Insert(xs[0], rest, key)
  }

  lemma {:induction false} InsertWithKey<T>(x: T, xs: seq<T>, key: T -> int, k: int)
    ensures WithKey(Insert(x, xs, key), key, k)
         == (if key(x) == k then [x] else []) + WithKey(xs, key, k)
    decreases |xs|
  {
    var r := Insert(x, xs, key);
    if xs == [] || key(xs[0]) <= key(x) {
      assert r == [x] + xs;
      WithKeyCons(x, xs, key, k);
    } else {
      var rest := Insert(x, xs[1..], key);
      assert r == [xs[0]] + rest;
      InsertWithKey(x, xs[1..], key, k);
      WithKeyCons(xs[0], rest, key, k);
      WithKeyCons(xs[0], xs[1..], key, k);
      assert [xs[0]] + xs[1..] == xs;
      var tail := WithKey(xs[1..], key, k);
      if key(x) == k {
        // then key(xs[0]) > k, so xs[0] is not kept
        assert WithKey(r, key, k) == [x] + tail;
        assert WithKey(xs, key, k) == tail;
      } else {
        assert WithKey(r, key, k) == WithKey(xs, key, k);
      }
    }
  }

  lemma WithKeyCons<T>(y: T, ys: seq<T>, key: T -> int, k: int)
    ensures WithKey([y] + ys, key, k) == (if key(y) == k then [y] else []) + WithKey(ys, key, k)
  {
    assert ([y] + ys)[1..] == ys;
  }

  /** Stability: among elements with one key value, the sorted order is the
      input order. */
  lemma {:induction false} SortDescStable<T>(xs: seq<T>, key: T -> int, k: int)
    ensures WithKey(SortDesc(xs, key), key, k) == WithKey(xs, key, k)
    decreases |xs|
  {
    if xs != [] {
      SortDescStable(xs[1..], key, k);
      InsertWithKey(xs[0], SortDesc(xs[1..], key), key, k);
    }
  }
}
