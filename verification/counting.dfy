/** Counting occurrences the way the results screens do: a record keyed by id
    whose entries appear in first-occurrence order, bumped once per row. That
    is the iteration order of a JavaScript object whose keys are not
    integer-like, as for the UUID ids here; integer-like keys would come
    first, in ascending order, which this model does not cover. */
module Counting {

  /** One `key: count` property of the counting record. */
  datatype Entry = Entry(key: string, count: nat)

  /** Reference definition: how many times `k` occurs in `xs`. */
  function Count(xs: seq<string>, k: string): nat
  {
    if xs == [] then 0
    else Count(xs[..|xs| - 1], k) + (if xs[|xs| - 1] == k then 1 else 0)
  }

  /** No value occurs twice. */
  predicate Distinct(xs: seq<string>)
  {
    forall i, j :: 0 <= i < j < |xs| ==> xs[i] != xs[j]
  }

  function Keys(t: seq<Entry>): (r: seq<string>)
    ensures |r| == |t|
    ensures forall i :: 0 <= i < |t| ==> r[i] == t[i].key
  {
    if t == [] then [] else [t[0].key] + Keys(t[1..])
  }

  /** `record[k] ?? 0`. */
  function Lookup(t: seq<Entry>, k: string): nat
  {
    if t == [] then 0
    else if t[0].key == k then t[0].count
    else Lookup(t[1..], k)
  }

  /** `record[k] = (record[k] ?? 0) + 1`: bump the existing property or append
      a new one at the end. */
  function Bump(t: seq<Entry>, k: string): seq<Entry>
  {
    if t == [] then [Entry(k, 1)]
    else if t[0].key == k then [Entry(k, t[0].count + 1)] + t[1..]
    else [t[0]] + Bump(t[1..], k)
  }

  /** The counting record after visiting `xs` left to right. */
  function Tally(xs: seq<string>): seq<Entry>
  {
    if xs == [] then [] else Bump(Tally(xs[..|xs| - 1]), xs[|xs| - 1])
  }

  /** `Object.values(record).reduce((sum, v) => sum + v, 0)`. */
  function Total(t: seq<Entry>): nat
  {
    if t == [] then 0 else t[0].count + Total(t[1..])
  }

  /** Sum of `Count(xs, k)` over the listed keys (with repetition). */
  function SumCounts(xs: seq<string>, keys: seq<string>): nat
  {
    if keys == [] then 0
    else SumCounts(xs, keys[..|keys| - 1]) + Count(xs, keys[|keys| - 1])
  }

  lemma {:induction false} CountPositive(xs: seq<string>, k: string)
    ensures Count(xs, k) > 0 <==> k in xs
    decreases |xs|
  {
    if xs != [] {
      CountPositive(xs[..|xs| - 1], k);
      assert xs == xs[..|xs| - 1] + [xs[|xs| - 1]];
      assert k in xs <==> k in xs[..|xs| - 1] || k == xs[|xs| - 1];
    }
  }

  lemma {:induction false} CountBound(xs: seq<string>, k: string)
    ensures Count(xs, k) <= |xs|
    decreases |xs|
  {
    if xs != [] {
      CountBound(xs[..|xs| - 1], k);
    }
  }

  lemma {:induction false} CountAppend(a: seq<string>, b: seq<string>, k: string)
    ensures Count(a + b, k) == Count(a, k) + Count(b, k)
    decreases |b|
  {
    if b == [] {
      assert a + b == a;
    } else {
      var b' := b[..|b| - 1];
      assert (a + b)[..|a + b| - 1] == a + b';
      CountAppend(a, b', k);
    }
  }

  /** In a list without repetition a value occurs at most once. */
  lemma {:induction false} DistinctCount(xs: seq<string>, k: string)
    requires Distinct(xs)
    ensures Count(xs, k) == (if k in xs then 1 else 0)
    decreases |xs|
  {
    if xs != [] {
      var xs' := xs[..|xs| - 1];
      DistinctCount(xs', k);
      assert xs == xs' + [xs[|xs| - 1]];
      if xs[|xs| - 1] == k {
        assert k !in xs' by {
          forall i | 0 <= i < |xs'| ensures xs'[i] != k {
            assert xs[i] != xs[|xs| - 1];
          }
        }
      }
    }
  }

  lemma {:induction false} BumpLookup(t: seq<Entry>, k: string, j: string)
    ensures Lookup(Bump(t, k), j) == Lookup(t, j) + (if j == k then 1 else 0)
    decreases |t|
  {
    if t != [] && t[0].key != k {
      BumpLookup(t[1..], k, j);
      assert Bump(t, k)[1..] == Bump(t[1..], k);
    }
  }

  lemma {:induction false} BumpTotal(t: seq<Entry>, k: string)
    ensures Total(Bump(t, k)) == Total(t) + 1
    decreases |t|
  {
    if t == [] {
    } else if t[0].key == k {
      assert Bump(t, k)[1..] == t[1..];
    } else {
      BumpTotal(t[1..], k);
      assert Bump(t, k)[1..] == Bump(t[1..], k);
    }
  }

  lemma {:induction false} BumpKeys(t: seq<Entry>, k: string)
    requires Distinct(Keys(t))
    ensures Distinct(Keys(Bump(t, k)))
    ensures forall j :: j in Keys(Bump(t, k)) <==> j in Keys(t) || j == k
    decreases |t|
  {
    if t == [] {
    } else if t[0].key == k {
      assert Keys(Bump(t, k)) == Keys(t);
    } else {
      var rest := t[1..];
      assert Keys(t) == [t[0].key] + Keys(rest);
      assert Distinct(Keys(rest)) by {
        forall i, j | 0 <= i < j < |Keys(rest)| ensures Keys(rest)[i] != Keys(rest)[j] {
          assert Keys(t)[i + 1] != Keys(t)[j + 1];
        }
      }
      BumpKeys(rest, k);
      var b := Keys(Bump(rest, k));
      assert Keys(Bump(t, k)) == [t[0].key] + b;
      assert t[0].key !in Keys(rest) by {
        forall i | 0 <= i < |Keys(rest)| ensures Keys(rest)[i] != t[0].key {
          assert Keys(t)[0] != Keys(t)[i + 1];
        }
      }
      assert t[0].key !in b;
    }
  }

  /** Each key's entry holds exactly the number of rows carrying it; keys that
      never occur read as 0. */
  lemma {:induction false} TallyCounts(xs: seq<string>, k: string)
    ensures Lookup(Tally(xs), k) == Count(xs, k)
    decreases |xs|
  {
    if xs != [] {
      TallyCounts(xs[..|xs| - 1], k);
      BumpLookup(Tally(xs[..|xs| - 1]), xs[|xs| - 1], k);
    }
  }

  /** The values of the record add up to the number of rows visited. */
  lemma {:induction false} TallyTotal(xs: seq<string>)
    ensures Total(Tally(xs)) == |xs|
    decreases |xs|
  {
    if xs != [] {
      TallyTotal(xs[..|xs| - 1]);
      BumpTotal(Tally(xs[..|xs| - 1]), xs[|xs| - 1]);
    }
  }

  /** The record has one property per distinct row value and no other. */
  lemma {:induction false} TallyKeys(xs: seq<string>)
    ensures Distinct(Keys(Tally(xs)))
    ensures forall k :: k in Keys(Tally(xs)) <==> k in xs
    decreases |xs|
  {
    if xs != [] {
      var xs' := xs[..|xs| - 1];
      TallyKeys(xs');
      BumpKeys(Tally(xs'), xs[|xs| - 1]);
      assert xs == xs' + [xs[|xs| - 1]];
      assert forall k :: k in xs <==> k in xs' || k == xs[|xs| - 1];
    }
  }

  lemma {:induction false} SumCountsEmpty(keys: seq<string>)
    ensures SumCounts([], keys) == 0
    decreases |keys|
  {
    if keys != [] {
      SumCountsEmpty(keys[..|keys| - 1]);
    }
  }

  lemma {:induction false} SumCountsSnoc(xs: seq<string>, x: string, keys: seq<string>)
    ensures SumCounts(xs + [x], keys) == SumCounts(xs, keys) + Count(keys, x)
    decreases |keys|
  {
    if keys != [] {
      var keys' := keys[..|keys| - 1];
      SumCountsSnoc(xs, x, keys');
      assert (xs + [x])[..|xs + [x]| - 1] == xs;
    }
  }

  /** Counting the keys' occurrences among the rows equals counting the rows'
      occurrences among the keys: both count matching (row, key) pairs. */
  lemma {:induction false} SumCountsSwap(xs: seq<string>, keys: seq<string>)
    ensures SumCounts(xs, keys) == SumCounts(keys, xs)
    decreases |xs|
  {
    if xs == [] {
      SumCountsEmpty(keys);
    } else {
      var xs' := xs[..|xs| - 1];
      assert xs == xs' + [xs[|xs| - 1]];
      SumCountsSnoc(xs', xs[|xs| - 1], keys);
      SumCountsSwap(xs', keys);
    }
  }

  lemma {:induction false} DistinctKeysHits(keys: seq<string>, xs: seq<string>)
    requires Distinct(keys)
    ensures SumCounts(keys, xs) <= |xs|
    ensures (forall i :: 0 <= i < |xs| ==> xs[i] in keys) ==> SumCounts(keys, xs) == |xs|
    decreases |xs|
  {
    if xs != [] {
      DistinctKeysHits(keys, xs[..|xs| - 1]);
      DistinctCount(keys, xs[|xs| - 1]);
    }
  }

  /** Summing the counts of distinct listed keys never exceeds the number of
      rows, and reaches it exactly when every row carries a listed key. */
  lemma ListedCountsBound(xs: seq<string>, keys: seq<string>)
    requires Distinct(keys)
    ensures SumCounts(xs, keys) <= |xs|
    ensures (forall i :: 0 <= i < |xs| ==> xs[i] in keys) ==> SumCounts(xs, keys) == |xs|
  {
    SumCountsSwap(xs, keys);
    DistinctKeysHits(keys, xs);
  }

  /** `total > 0 ? (count / total) * 100 : 0`, on exact reals. */
  function Percent(count: nat, total: nat): (p: real)
    ensures total == 0 ==> p == 0.0
    ensures total > 0 ==> p * (total as real) == (count as real) * 100.0
    ensures 0.0 <= p
    ensures count <= total ==> p <= 100.0
  {
    if total > 0 then (count as real / total as real) * 100.0 else 0.0
  }

  lemma TallyCountsAll(xs: seq<string>)
    ensures forall k :: Lookup(Tally(xs), k) == Count(xs, k)
  {
    forall k ensures Lookup(Tally(xs), k) == Count(xs, k) {
      TallyCounts(xs, k);
    }
  }
}
