/**
  Stable sorting by a "comes before" test, as Go's sort.SliceStable does it.
  Where the program sorts with sort.Slice its keys are pairwise distinct, so the
  stable order is the only sorted order there is.
 */
module Sorting {

  /** Inserts x behind every element it does not come before. */
  function Insert<T>(xs: seq<T>, x: T, before: (T, T) -> bool): (r: seq<T>)
    ensures |r| == |xs| + 1
    ensures multiset(r) == multiset(xs) + multiset{x}
  {
    if xs == [] || !before(x, xs[|xs| - 1]) then xs + [x]
    else
      assert xs == xs[..|xs| - 1] + [xs[|xs| - 1]];
      Insert(xs[..|xs| - 1], x, before) + [xs[|xs| - 1]]
  }

  function Sort<T>(xs: seq<T>, before: (T, T) -> bool): (r: seq<T>)
    ensures |r| == |xs|
    ensures multiset(r) == multiset(xs)
  {
    if xs == [] then []
    else
      assert xs == xs[..|xs| - 1] + [xs[|xs| - 1]];
      Insert(Sort(xs[..|xs| - 1], before), xs[|xs| - 1], before)
  }

  /** A strict order whose incomparable elements are equivalent. */
  ghost predicate WeakOrder<T(!new)>(before: (T, T) -> bool) {
    && (forall x, y :: before(x, y) ==> !before(y, x))
    && (forall x, y, z :: before(x, z) ==> before(x, y) || before(y, z))
  }

  predicate Sorted<T>(xs: seq<T>, before: (T, T) -> bool) {
    forall i, j :: 0 <= i < j < |xs| ==> !before(xs[j], xs[i])
  }

  lemma {:induction false} InsertKeepsSorted<T(!new)>(xs: seq<T>, x: T, before: (T, T) -> bool)
    requires WeakOrder(before) && Sorted(xs, before)
    ensures Sorted(Insert(xs, x, before), before)
  {
    if xs != [] {
      var rest, last := xs[..|xs| - 1], xs[|xs| - 1];
      if before(x, last) {
        InsertKeepsSorted(rest, x, before);
        var r := Insert(rest, x, before);
        forall i | 0 <= i < |r| ensures !before(last, r[i]) {
          assert r[i] in multiset(rest) + multiset{x};
        }
      }
    }
  }

  lemma {:induction false} SortSorts<T(!new)>(xs: seq<T>, before: (T, T) -> bool)
    requires WeakOrder(before)
    ensures Sorted(Sort(xs, before), before)
  {
    if xs != [] {
      SortSorts(xs[..|xs| - 1], before);
      InsertKeepsSorted(Sort(xs[..|xs| - 1], before), xs[|xs| - 1], before);
    }
  }

  lemma SameElements<T>(xs: seq<T>, ys: seq<T>, x: T)
    requires multiset(xs) == multiset(ys)
    ensures x in xs <==> x in ys
  {
    assert x in xs <==> x in multiset(xs);
  }

  /** No two elements have the same key. */
  predicate DistinctBy<T, K(==)>(xs: seq<T>, key: T -> K) {
    forall i, j :: 0 <= i < j < |xs| ==> key(xs[i]) != key(xs[j])
  }

  lemma {:induction false} DistinctMeansOnce<T, K>(xs: seq<T>, key: T -> K, x: T)
    requires DistinctBy(xs, key)
    ensures multiset(xs)[x] <= 1
  {
    if xs != [] {
      var rest, last := xs[..|xs| - 1], xs[|xs| - 1];
      DistinctMeansOnce(rest, key, x);
      assert xs == rest + [last];
      assert x == last ==> x !in rest;
    }
  }

  /** Reordering keeps keys distinct. */
  lemma DistinctIgnoresOrder<T, K>(xs: seq<T>, ys: seq<T>, key: T -> K)
    requires DistinctBy(xs, key) && multiset(xs) == multiset(ys)
    ensures DistinctBy(ys, key)
  {
    forall i, j | 0 <= i < j < |ys| ensures key(ys[i]) != key(ys[j]) {
      SameElements(xs, ys, ys[i]);
      SameElements(xs, ys, ys[j]);
      DistinctMeansOnce(xs, key, ys[i]);
      assert ys == ys[..j] + [ys[j]] + ys[j + 1..];
      assert multiset(ys) == multiset(ys[..j]) + multiset{ys[j]} + multiset(ys[j + 1..]);
      assert ys[..j][i] == ys[i];
      assert ys[i] in multiset(ys[..j]);
      var a :| 0 <= a < |xs| && xs[a] == ys[i];
      var b :| 0 <= b < |xs| && xs[b] == ys[j];
      assert a != b;
    }
  }

  /** n different numbers below n are all of them. */
  lemma {:induction false} AllNumbersHit(xs: seq<int>, n: nat)
    requires |xs| == n && (forall i :: 0 <= i < n ==> 0 <= xs[i] < n)
    requires forall i, j :: 0 <= i < j < n ==> xs[i] != xs[j]
    ensures forall x :: 0 <= x < n ==> x in xs
  {
    var hit := set i | 0 <= i < n :: xs[i];
    DistinctSize(xs);
    forall x | 0 <= x < n ensures x in xs {
      NumbersBelow(n);
      assert hit <= Below(n);
      assert |Below(n) - hit| == |Below(n)| - |hit|;
      assert x in Below(n);
    }
  }

  function Below(n: nat): (s: set<int>)
    ensures forall x :: x in s <==> 0 <= x < n
  {
    if n == 0 then {} else Below(n - 1) + {n - 1}
  }

  lemma {:induction false} NumbersBelow(n: nat)
    ensures |Below(n)| == n
  {
    if n > 0 {
      NumbersBelow(n - 1);
    }
  }

  lemma {:induction false} DistinctSize<T>(xs: seq<T>)
    requires forall i, j :: 0 <= i < j < |xs| ==> xs[i] != xs[j]
    ensures |set i | 0 <= i < |xs| :: xs[i]| == |xs|
  {
    if xs != [] {
      var rest := xs[..|xs| - 1];
      DistinctSize(rest);
      var all, part := (set i | 0 <= i < |xs| :: xs[i]), (set i | 0 <= i < |rest| :: rest[i]);
      assert all == part + {xs[|xs| - 1]};
      assert xs[|xs| - 1] !in part;
    }
  }
}
