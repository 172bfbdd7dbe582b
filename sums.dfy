/** Sums over sequences, and the fact that a sum does not depend on the
    order of its terms. Every accumulator of the reports folds with these. */
module Sums {

  /** The sum of `f` over `xs`, folded from the first element to the last,
      the way an accumulating loop adds it up. */
  function SumOf<T>(xs: seq<T>, f: T -> real): real
  {
    if xs == [] then 0.0 else SumOf(xs[..|xs| - 1], f) + f(xs[|xs| - 1])
  }

  lemma {:induction false} SumOfAppend<T>(xs: seq<T>, ys: seq<T>, f: T -> real)
    ensures SumOf(xs + ys, f) == SumOf(xs, f) + SumOf(ys, f)
    decreases |ys|
  {
    if ys == [] {
      assert xs + ys == xs;
    } else {
      var n := |ys| - 1;
      assert (xs + ys)[..|xs + ys| - 1] == xs + ys[..n];
      assert (xs + ys)[|xs + ys| - 1] == ys[n];
      SumOfAppend(xs, ys[..n], f);
    }
  }

  /** Taking one term out of a sum, wherever it stands. */
  lemma {:induction false} SumOfRemove<T>(ys: seq<T>, j: nat, f: T -> real)
    requires j < |ys|
    ensures multiset(ys) == multiset(ys[..j] + ys[j + 1..]) + multiset{ys[j]}
    ensures SumOf(ys, f) == SumOf(ys[..j] + ys[j + 1..], f) + f(ys[j])
  {
    var a, b := ys[..j], ys[j + 1..];
    assert ys == a + ([ys[j]] + b);
    assert SumOf([ys[j]], f) == f(ys[j]) by {
      assert [ys[j]][..0] == [];
    }
    calc {
      SumOf(ys, f);
      { SumOfAppend(a, [ys[j]] + b, f); }
      SumOf(a, f) + SumOf([ys[j]] + b, f);
      { SumOfAppend([ys[j]], b, f); }
      SumOf(a, f) + f(ys[j]) + SumOf(b, f);
      { SumOfAppend(a, b, f); }
      SumOf(a + b, f) + f(ys[j]);
    }
  }

  /** Summing the same terms in any other order gives the same total. */
  lemma {:induction false} SumOfPermutation<T>(xs: seq<T>, ys: seq<T>, f: T -> real)
    requires multiset(xs) == multiset(ys)
    ensures SumOf(xs, f) == SumOf(ys, f)
    decreases |xs|
  {
    if xs == [] {
      assert |ys| == |multiset(ys)| == 0;
    } else {
      var n := |xs| - 1;
      var x := xs[n];
      assert xs == xs[..n] + [x];
      assert multiset(xs) == multiset(xs[..n]) + multiset{x};
      assert x in multiset(ys);
      var j :| 0 <= j < |ys| && ys[j] == x;
      SumOfRemove(ys, j, f);
      var rest := ys[..j] + ys[j + 1..];
      assert multiset(xs[..n]) == multiset(rest) by {
        forall z ensures multiset(xs[..n])[z] == multiset(rest)[z] {
          assert multiset(xs)[z] == multiset(ys)[z];
        }
      }
      SumOfPermutation(xs[..n], rest, f);
    }
  }

  /** The sum up to one more element adds that element's term. */
  lemma SumOfStep<T>(xs: seq<T>, i: nat, f: T -> real)
    requires i < |xs|
    ensures SumOf(xs[..i + 1], f) == SumOf(xs[..i], f) + f(xs[i])
  {
    assert xs[..i + 1][..i] == xs[..i];
  }

  /** Two multisets that agree on every count are equal. */
  lemma SameCounts<T>(a: multiset<T>, b: multiset<T>)
    requires forall x :: a[x] == b[x]
    ensures a == b
  {
  }

  /** Summing two functions that agree on every term gives the same total. */
  lemma {:induction false} SumOfPointwise<T>(xs: seq<T>, f: T -> real, g: T -> real)
    requires forall i :: 0 <= i < |xs| ==> f(xs[i]) == g(xs[i])
    ensures SumOf(xs, f) == SumOf(xs, g)
  {
    if xs != [] {
      var n := |xs| - 1;
      assert forall i :: 0 <= i < n ==> xs[..n][i] == xs[i];
      SumOfPointwise(xs[..n], f, g);
    }
  }
}
