/** Sorting by a numeric key, standing in for Python's `sorted(..., key=...)`
    and pandas' `sort_values`. */
module Sorting {

  predicate SortedBy<T>(xs: seq<T>, key: T -> real)
  {
    forall i, j :: 0 <= i < j < |xs| ==> key(xs[i]) <= key(xs[j])
  }

  /** Putting `x` at the boundary between the keys not above its own and the
      keys above it keeps a sorted sequence sorted. */
  lemma SpliceSorted<T>(r: seq<T>, x: T, j: nat, key: T -> real)
    requires j <= |r| && SortedBy(r, key)
    requires j == 0 || key(r[j - 1]) <= key(x)
    requires forall k :: j <= k < |r| ==> key(x) < key(r[k])
    ensures SortedBy(r[..j] + [x] + r[j..], key)
  {
    var r' := r[..j] + [x] + r[j..];
    assert |r'| == |r| + 1;
    assert forall a :: 0 <= a < j ==> r'[a] == r[a];
    assert r'[j] == x;
    assert forall a :: j < a < |r'| ==> r'[a] == r[a - 1];
    forall a, b | 0 <= a < b < |r'| ensures key(r'[a]) <= key(r'[b]) {
      if b < j {
        assert key(r[a]) <= key(r[b]);
      } else if b == j {
        assert key(r[a]) <= key(r[j - 1]);
      } else if a < j {
        assert key(r[a]) <= key(r[b - 1]);
      } else if a > j {
        assert key(r[a - 1]) <= key(r[b - 1]);
      }
    }
  }

  /** Places `x` into the sorted `r` after every element whose key is not
      larger than its own. */
  method Insert<T>(r: seq<T>, x: T, key: T -> real) returns (r': seq<T>)
    requires SortedBy(r, key)
    ensures SortedBy(r', key)
    ensures multiset(r') == multiset(r) + multiset{x}
  {
    var j := |r|;
    while j > 0 && key(r[j - 1]) > key(x)
      invariant 0 <= j <= |r|
      invariant forall k :: j <= k < |r| ==> key(x) < key(r[k])
    {
      j := j - 1;
    }
    SpliceSorted(r, x, j, key);
    r' := r[..j] + [x] + r[j..];
    assert r == r[..j] + r[j..];
  }

  /** A stable insertion sort: the result is ordered by `key` and holds the
      same elements as the input. */
  method SortByKey<T>(xs: seq<T>, key: T -> real) returns (r: seq<T>)
    ensures SortedBy(r, key)
    ensures multiset(r) == multiset(xs)
  {
    r := [];
    for i := 0 to |xs|
      invariant SortedBy(r, key)
      invariant multiset(r) == multiset(xs[..i])
    {
      r := Insert(r, xs[i], key);
      assert xs[..i + 1] == xs[..i] + [xs[i]];
    }
    assert xs[..|xs|] == xs;
  }
}
