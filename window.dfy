/** The date window of get_profit_and_loss.py: a table is sorted by its
    timestamp column, indexed by it and sliced from the start date to the
    end date, both ends included. On a sorted index that slice keeps
    exactly the rows whose timestamp lies in the window. */
module Window {
  import opened Sums
  import opened Sorting

  predicate InWindow(t: int, start: int, end: int)
  {
    start <= t <= end
  }

  /** The rows of `xs` whose timestamp is in the window, in their order. */
  function Within<T>(xs: seq<T>, date: T -> int, start: int, end: int): seq<T>
  {
    if xs == [] then []
    else
      var n := |xs| - 1;
      Within(xs[..n], date, start, end) + (if InWindow(date(xs[n]), start, end) then [xs[n]] else [])
  }

  predicate SortedByDate<T>(xs: seq<T>, date: T -> int)
  {
    forall i, j :: 0 <= i < j < |xs| ==> date(xs[i]) <= date(xs[j])
  }

  /** A row in the window is kept exactly as many times as it occurs, and
      a row outside it not at all. */
  lemma {:induction false} WithinCount<T>(xs: seq<T>, date: T -> int, start: int, end: int, x: T)
    ensures multiset(Within(xs, date, start, end))[x]
         == (if InWindow(date(x), start, end) then multiset(xs)[x] else 0)
  {
    if xs != [] {
      var n := |xs| - 1;
      WithinCount(xs[..n], date, start, end, x);
      assert xs == xs[..n] + [xs[n]];
    }
  }

  /** Every row kept is a row of the input inside the window. */
  lemma WithinKeeps<T>(xs: seq<T>, date: T -> int, start: int, end: int, x: T)
    requires x in Within(xs, date, start, end)
    ensures x in xs && InWindow(date(x), start, end)
  {
    WithinCount(xs, date, start, end, x);
    assert x in multiset(Within(xs, date, start, end));
  }

  /** Keeping the rows in the window does not disturb an order by
      timestamp. */
  lemma {:induction false} WithinSorted<T>(xs: seq<T>, date: T -> int, start: int, end: int)
    requires SortedByDate(xs, date)
    ensures SortedByDate(Within(xs, date, start, end), date)
  {
    if xs != [] {
      var n := |xs| - 1;
      assert SortedByDate(xs[..n], date);
      WithinSorted(xs[..n], date, start, end);
      var w := Within(xs[..n], date, start, end);
      if InWindow(date(xs[n]), start, end) {
        var w' := w + [xs[n]];
        assert Within(xs, date, start, end) == w';
        forall i, j | 0 <= i < j < |w'| ensures date(w'[i]) <= date(w'[j]) {
          assert w'[i] == w[i];
          if j == |w| {
            WithinKeeps(xs[..n], date, start, end, w[i]);
            var p :| 0 <= p < n && xs[..n][p] == w[i];
            assert xs[p] == w[i];
          } else {
            assert w'[j] == w[j];
          }
        }
      }
    }
  }

  /** Rearranging the rows rearranges the rows kept. */
  lemma WithinPermutation<T>(xs: seq<T>, ys: seq<T>, date: T -> int, start: int, end: int)
    requires multiset(xs) == multiset(ys)
    ensures multiset(Within(xs, date, start, end)) == multiset(Within(ys, date, start, end))
  {
    forall x ensures multiset(Within(xs, date, start, end))[x] == multiset(Within(ys, date, start, end))[x] {
      WithinCount(xs, date, start, end, x);
      WithinCount(ys, date, start, end, x);
    }
    SameCounts(multiset(Within(xs, date, start, end)), multiset(Within(ys, date, start, end)));
  }

  function DateKey<T>(date: T -> int): T -> real
  {
    x => date(x) as real
  }

  /** `sort_values` on the timestamp, then the slice `[start:end]` of the
      timestamp index: the result is ordered by timestamp and holds exactly
      the rows in the window, each as often as in the input. */
  method FilterWindow<T>(xs: seq<T>, date: T -> int, start: int, end: int) returns (r: seq<T>)
    ensures SortedByDate(r, date)
    ensures forall x :: x in r ==> InWindow(date(x), start, end)
    ensures multiset(r) == multiset(Within(xs, date, start, end))
  {
    var sorted := SortByKey(xs, DateKey(date));
    assert forall i, j :: 0 <= i < j < |sorted| ==> DateKey(date)(sorted[i]) <= DateKey(date)(sorted[j]);
    r := [];
    for i := 0 to |sorted|
      invariant r == Within(sorted[..i], date, start, end)
    {
      assert sorted[..i + 1][..i] == sorted[..i];
      if InWindow(date(sorted[i]), start, end) {
        r := r + [sorted[i]];
      }
    }
    assert sorted[..|sorted|] == sorted;
    WithinSorted(sorted, date, start, end);
    WithinPermutation(sorted, xs, date, start, end);
    forall x | x in r ensures InWindow(date(x), start, end) {
      WithinKeeps(sorted, date, start, end, x);
    }
  }

  /** The first of a sorted arrangement of `ys` is an element of `ys` with
      the earliest timestamp. */
  lemma FirstIsEarliest<T>(xs: seq<T>, ys: seq<T>, date: T -> int)
    requires SortedByDate(xs, date) && multiset(xs) == multiset(ys) && xs != []
    ensures xs[0] in ys
    ensures forall y :: y in ys ==> date(xs[0]) <= date(y)
  {
    assert xs[0] in multiset(xs);
    forall y | y in ys ensures date(xs[0]) <= date(y) {
      assert y in multiset(ys);
      var i :| 0 <= i < |xs| && xs[i] == y;
    }
  }
}
