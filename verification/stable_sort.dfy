/** `sorted(xs, key=..., reverse=True)`: a stable sort, newest first.
    Python's reverse sort keeps items with equal keys in their input order;
    the model is a merge sort whose merge prefers the left run on ties. */
module StableSort {
  import opened Dates

  /** Every element is at least as new as every element after it. */
  ghost predicate NewestFirst<T>(xs: seq<T>, key: T -> Date)
  {
    forall i, j | 0 <= i < j < |xs| :: NotAfter(key(xs[j]), key(xs[i]))
  }

  /** Every element is no later than `d`. */
  ghost predicate AllNotAfter<T>(xs: seq<T>, d: Date, key: T -> Date)
  {
    forall i | 0 <= i < |xs| :: NotAfter(key(xs[i]), d)
  }

  /** The elements dated exactly `d`, in their order of appearance. */
  function WithDate<T>(xs: seq<T>, d: Date, key: T -> Date): (r: seq<T>)
    ensures |r| <= |xs|
  {
    if |xs| == 0 then []
    else (if key(xs[0]) == d then [xs[0]] else []) + WithDate(xs[1..], d, key)
  }

  /** `ys` is what a stable newest-first sort of `xs` must return: a
      permutation, newest first, with each date's items in input order. */
  ghost predicate IsStableDescSort<T>(xs: seq<T>, ys: seq<T>, key: T -> Date)
  {
    && multiset(ys) == multiset(xs)
    && NewestFirst(ys, key)
    && forall d :: WithDate(ys, d, key) == WithDate(xs, d, key)
  }

  /** Merge two runs, taking from the left run unless the right head is
      strictly newer. */
  function Merge<T>(a: seq<T>, b: seq<T>, key: T -> Date): (r: seq<T>)
    decreases |a| + |b|
    ensures |r| == |a| + |b|
  {
    if |a| == 0 then b
    else if |b| == 0 then a
    else if NotAfter(key(b[0]), key(a[0])) then [a[0]] + Merge(a[1..], b, key)
    else [b[0]] + Merge(a, b[1..], key)
  }

  /** The sort itself. */
  function SortNewestFirst<T>(xs: seq<T>, key: T -> Date): (r: seq<T>)
    decreases |xs|
    ensures |r| == |xs|
  {
    if |xs| <= 1 then xs
    else
      var mid := |xs| / 2;
      Merge(SortNewestFirst(xs[..mid], key), SortNewestFirst(xs[mid..], key), key)
  }

  // ---------------------------------------------------------------------
  // Ordering

  lemma NewestFirstCons<T>(x: T, ys: seq<T>, key: T -> Date)
    requires NewestFirst(ys, key) && AllNotAfter(ys, key(x), key)
    ensures NewestFirst([x] + ys, key)
  {
    var zs := [x] + ys;
    forall i, j | 0 <= i < j < |zs|
      ensures NotAfter(key(zs[j]), key(zs[i]))
    {
      assert zs[j] == ys[j - 1];
      if i > 0 {
        assert zs[i] == ys[i - 1];
      }
    }
  }

  lemma {:induction false} MergeNotAfter<T>(a: seq<T>, b: seq<T>, d: Date, key: T -> Date)
    requires AllNotAfter(a, d, key) && AllNotAfter(b, d, key)
    ensures AllNotAfter(Merge(a, b, key), d, key)
    decreases |a| + |b|
  {
    var r := Merge(a, b, key);
    if |a| == 0 || |b| == 0 {
    } else if NotAfter(key(b[0]), key(a[0])) {
      MergeNotAfter(a[1..], b, d, key);
      assert AllNotAfter(r[1..], d, key);
      assert NotAfter(key(r[0]), d);
    } else {
      MergeNotAfter(a, b[1..], d, key);
      assert AllNotAfter(r[1..], d, key);
      assert NotAfter(key(r[0]), d);
    }
  }

  /** Merging two newest-first runs gives a newest-first run. */
  lemma {:induction false} MergeNewestFirst<T>(a: seq<T>, b: seq<T>, key: T -> Date)
    requires NewestFirst(a, key) && NewestFirst(b, key)
    ensures NewestFirst(Merge(a, b, key), key)
    decreases |a| + |b|
  {
    if |a| == 0 || |b| == 0 {
    } else if NotAfter(key(b[0]), key(a[0])) {
      MergeNewestFirst(a[1..], b, key);
      assert AllNotAfter(a[1..], key(a[0]), key);
      assert AllNotAfter(b, key(a[0]), key);
      MergeNotAfter(a[1..], b, key(a[0]), key);
      NewestFirstCons(a[0], Merge(a[1..], b, key), key);
    } else {
      MergeNewestFirst(a, b[1..], key);
      assert AllNotAfter(a, key(b[0]), key);
      assert AllNotAfter(b[1..], key(b[0]), key);
      MergeNotAfter(a, b[1..], key(b[0]), key);
      NewestFirstCons(b[0], Merge(a, b[1..], key), key);
    }
  }

  // ---------------------------------------------------------------------
  // Stability

  lemma {:induction false} WithDateConcat<T>(a: seq<T>, b: seq<T>, d: Date, key: T -> Date)
    ensures WithDate(a + b, d, key) == WithDate(a, d, key) + WithDate(b, d, key)
  {
    if |a| == 0 {
      assert a + b == b;
    } else {
      assert (a + b)[1..] == a[1..] + b;
      WithDateConcat(a[1..], b, d, key);
    }
  }

  /** A newest-first run whose head is older than `d` holds no item dated `d`. */
  lemma {:induction false} WithDateOlderRun<T>(a: seq<T>, d: Date, key: T -> Date)
    requires NewestFirst(a, key) && |a| > 0 && Later(d, key(a[0]))
    ensures WithDate(a, d, key) == []
    decreases |a|
  {
    if |a| > 1 {
      assert NotAfter(key(a[1]), key(a[0]));
      WithDateOlderRun(a[1..], d, key);
    }
  }

  /** Prepending one element adds it to its own date's items only. */
  lemma WithDateCons<T>(x: T, ys: seq<T>, d: Date, key: T -> Date)
    ensures WithDate([x] + ys, d, key) == WithDate([x], d, key) + WithDate(ys, d, key)
  {
    assert ([x] + ys)[1..] == ys;
    assert [x][1..] == [];
  }

  /** Merging keeps, for every date, the left run's items of that date ahead
      of the right run's. */
  lemma {:induction false} MergeStable<T>(a: seq<T>, b: seq<T>, d: Date, key: T -> Date)
    requires NewestFirst(a, key) && NewestFirst(b, key)
    ensures WithDate(Merge(a, b, key), d, key) == WithDate(a, d, key) + WithDate(b, d, key)
    decreases |a| + |b|
  {
    if |a| == 0 {
      assert a + b == b;
    } else if |b| == 0 {
    } else if NotAfter(key(b[0]), key(a[0])) {
      MergeStableLeft(a, b, d, key);
    } else {
      MergeStableRight(a, b, d, key);
    }
  }

  lemma {:induction false} MergeStableLeft<T>(a: seq<T>, b: seq<T>, d: Date, key: T -> Date)
    requires NewestFirst(a, key) && NewestFirst(b, key)
    requires |a| > 0 && |b| > 0 && NotAfter(key(b[0]), key(a[0]))
    ensures WithDate(Merge(a, b, key), d, key) == WithDate(a, d, key) + WithDate(b, d, key)
    decreases |a| + |b|, 0
  {
    var m := Merge(a[1..], b, key);
    assert Merge(a, b, key) == [a[0]] + m;
    MergeStable(a[1..], b, d, key);
    WithDateCons(a[0], m, d, key);
    assert a == [a[0]] + a[1..];
    WithDateCons(a[0], a[1..], d, key);
  }

  lemma {:induction false} MergeStableRight<T>(a: seq<T>, b: seq<T>, d: Date, key: T -> Date)
    requires NewestFirst(a, key) && NewestFirst(b, key)
    requires |a| > 0 && |b| > 0 && Later(key(b[0]), key(a[0]))
    ensures WithDate(Merge(a, b, key), d, key) == WithDate(a, d, key) + WithDate(b, d, key)
    decreases |a| + |b|, 0
  {
    var m := Merge(a, b[1..], key);
    assert Merge(a, b, key) == [b[0]] + m;
    assert NewestFirst(b[1..], key);
    MergeStable(a, b[1..], d, key);
    WithDateCons(b[0], m, d, key);
    assert b == [b[0]] + b[1..];
    WithDateCons(b[0], b[1..], d, key);
    if key(b[0]) == d {
      // every item of the left run is older than `d`
      WithDateOlderRun(a, d, key);
    } else {
      assert WithDate([b[0]], d, key) == [];
    }
  }

  // ---------------------------------------------------------------------
  // Permutation

  /** The merge holds exactly the elements of both runs. */
  lemma {:induction false} MergePermutes<T>(a: seq<T>, b: seq<T>, key: T -> Date)
    ensures multiset(Merge(a, b, key)) == multiset(a) + multiset(b)
    decreases |a| + |b|
  {
    if |a| == 0 {
    } else if |b| == 0 {
    } else if NotAfter(key(b[0]), key(a[0])) {
      MergePermutes(a[1..], b, key);
      assert a == [a[0]] + a[1..];
    } else {
      MergePermutes(a, b[1..], key);
      assert b == [b[0]] + b[1..];
    }
  }

  /** The sort output is a permutation of its input. */
  lemma {:induction false} SortPermutes<T>(xs: seq<T>, key: T -> Date)
    ensures multiset(SortNewestFirst(xs, key)) == multiset(xs)
    decreases |xs|
  {
    if |xs| > 1 {
      var mid := |xs| / 2;
      var left, right := xs[..mid], xs[mid..];
      var sl, sr := SortNewestFirst(left, key), SortNewestFirst(right, key);
      SortPermutes(left, key);
      SortPermutes(right, key);
      MergePermutes(sl, sr, key);
      SplitPermutes(xs, mid);
    }
  }

  lemma SplitPermutes<T>(xs: seq<T>, mid: nat)
    requires mid <= |xs|
    ensures multiset(xs) == multiset(xs[..mid]) + multiset(xs[mid..])
  {
    assert xs == xs[..mid] + xs[mid..];
  }

  /** The sort output is newest first. */
  lemma {:induction false} SortIsNewestFirst<T>(xs: seq<T>, key: T -> Date)
    ensures NewestFirst(SortNewestFirst(xs, key), key)
    decreases |xs|
  {
    if |xs| > 1 {
      var mid := |xs| / 2;
      var left, right := xs[..mid], xs[mid..];
      var sl, sr := SortNewestFirst(left, key), SortNewestFirst(right, key);
      assert SortNewestFirst(xs, key) == Merge(sl, sr, key);
      SortIsNewestFirst(left, key);
      SortIsNewestFirst(right, key);
      MergeNewestFirst(sl, sr, key);
    }
  }

  /** The sort keeps the items of each date in their input order. */
  lemma {:induction false} SortKeepsDateOrder<T>(xs: seq<T>, d: Date, key: T -> Date)
    ensures WithDate(SortNewestFirst(xs, key), d, key) == WithDate(xs, d, key)
    decreases |xs|
  {
    if |xs| > 1 {
      var mid := |xs| / 2;
      var left, right := xs[..mid], xs[mid..];
      var sl, sr := SortNewestFirst(left, key), SortNewestFirst(right, key);
      assert SortNewestFirst(xs, key) == Merge(sl, sr, key);
      SortKeepsDateOrder(left, d, key);
      SortKeepsDateOrder(right, d, key);
      SortIsNewestFirst(left, key);
      SortIsNewestFirst(right, key);
      MergeStable(sl, sr, d, key);
      SplitWithDate(xs, mid, d, key);
    }
  }

  lemma SplitWithDate<T>(xs: seq<T>, mid: nat, d: Date, key: T -> Date)
    requires mid <= |xs|
    ensures WithDate(xs, d, key) == WithDate(xs[..mid], d, key) + WithDate(xs[mid..], d, key)
  {
    assert xs == xs[..mid] + xs[mid..];
    WithDateConcat(xs[..mid], xs[mid..], d, key);
  }

  /** The merge sort meets the specification of Python's stable reverse sort. */
  lemma SortIsStableDescSort<T>(xs: seq<T>, key: T -> Date)
    ensures IsStableDescSort(xs, SortNewestFirst(xs, key), key)
  {
    SortPermutes(xs, key);
    SortIsNewestFirst(xs, key);
    forall d
      ensures WithDate(SortNewestFirst(xs, key), d, key) == WithDate(xs, d, key)
    {
      SortKeepsDateOrder(xs, d, key);
    }
  }

  // ---------------------------------------------------------------------
  // Uniqueness: the specification leaves no freedom

  lemma {:induction false} WithDateHead<T>(xs: seq<T>, key: T -> Date)
    requires |xs| > 0
    ensures WithDate(xs, key(xs[0]), key) == [xs[0]] + WithDate(xs[1..], key(xs[0]), key)
  {
  }

  /** Two newest-first permutations of each other start with dates equal. */
  lemma SameLeadingDate<T>(ys: seq<T>, zs: seq<T>, key: T -> Date)
    requires multiset(ys) == multiset(zs) && |ys| > 0
    requires NewestFirst(ys, key) && NewestFirst(zs, key)
    ensures |zs| > 0 && key(zs[0]) == key(ys[0])
  {
    assert ys[0] in multiset(zs);
    var j :| 0 <= j < |zs| && zs[j] == ys[0];
    assert NotAfter(key(ys[0]), key(zs[0]));
    assert zs[0] in multiset(ys);
    var i :| 0 <= i < |ys| && ys[i] == zs[0];
    assert NotAfter(key(zs[0]), key(ys[0]));
  }

  /** Two sequences that agree on every date's items and start with the same
      date start with the same element, and agree on every date after it. */
  lemma SameHeadSameTails<T>(ys: seq<T>, zs: seq<T>, key: T -> Date)
    requires |ys| > 0 && |zs| > 0 && key(zs[0]) == key(ys[0])
    requires forall d :: WithDate(ys, d, key) == WithDate(zs, d, key)
    ensures ys[0] == zs[0]
    ensures forall d :: WithDate(ys[1..], d, key) == WithDate(zs[1..], d, key)
  {
    var k := key(ys[0]);
    WithDateHead(ys, key);
    WithDateHead(zs, key);
    assert WithDate(ys, k, key) == WithDate(zs, k, key);
    assert ys[0] == WithDate(ys, k, key)[0] == zs[0];
    forall d
      ensures WithDate(ys[1..], d, key) == WithDate(zs[1..], d, key)
    {
      if d != k {
        assert WithDate(ys, d, key) == WithDate(ys[1..], d, key);
        assert WithDate(zs, d, key) == WithDate(zs[1..], d, key);
      } else {
        assert WithDate(ys[1..], k, key) == WithDate(ys, k, key)[1..];
        assert WithDate(zs[1..], k, key) == WithDate(zs, k, key)[1..];
      }
    }
  }

  lemma TailsPermute<T>(ys: seq<T>, zs: seq<T>)
    requires multiset(ys) == multiset(zs) && |ys| > 0 && |zs| > 0 && ys[0] == zs[0]
    ensures multiset(ys[1..]) == multiset(zs[1..])
  {
    assert ys == [ys[0]] + ys[1..];
    assert zs == [zs[0]] + zs[1..];
    assert multiset(ys[1..]) == multiset(ys) - multiset{ys[0]};
    assert multiset(zs[1..]) == multiset(zs) - multiset{zs[0]};
  }

  /** Two stable newest-first sorts of the same input are the same sequence:
      whatever stable sort is used, Python's `sorted` included, its output
      is `SortNewestFirst`'s. */
  lemma {:induction false} StableDescSortUnique<T>(ys: seq<T>, zs: seq<T>, key: T -> Date)
    requires multiset(ys) == multiset(zs)
    requires NewestFirst(ys, key) && NewestFirst(zs, key)
    requires forall d :: WithDate(ys, d, key) == WithDate(zs, d, key)
    ensures ys == zs
    decreases |ys|
  {
    assert |ys| == |multiset(ys)| == |multiset(zs)| == |zs|;
    if |ys| > 0 {
      SameLeadingDate(ys, zs, key);
      SameHeadSameTails(ys, zs, key);
      TailsPermute(ys, zs);
      StableDescSortUnique(ys[1..], zs[1..], key);
      assert ys == [ys[0]] + ys[1..];
      assert zs == [zs[0]] + zs[1..];
    }
  }

  /** Any sequence meeting the stable reverse sort specification for `xs` is
      exactly the merge sort's output. */
  lemma StableDescSortIsSort<T>(xs: seq<T>, ys: seq<T>, key: T -> Date)
    requires IsStableDescSort(xs, ys, key)
    ensures ys == SortNewestFirst(xs, key)
  {
    var r := SortNewestFirst(xs, key);
    SortIsStableDescSort(xs, key);
    StableDescSortUnique(ys, r, key);
  }
}
