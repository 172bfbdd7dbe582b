/** Grouping rows by a key, as a Python dict keyed by ticker (or a pandas
    `groupby`) does: the distinct keys in order of first appearance, the rows
    of each key in input order, and the fact that the groups together hold
    every row exactly once. */
module Grouping {
  import opened Sums

  predicate NoDuplicates(ks: seq<string>)
  {
    forall i, j :: 0 <= i < j < |ks| ==> ks[i] != ks[j]
  }

  /** The distinct keys of `xs`, in order of first appearance. */
  function DistinctKeys<T>(xs: seq<T>, key: T -> string): (ks: seq<string>)
    ensures NoDuplicates(ks)
    ensures forall k :: k in ks <==> exists i :: 0 <= i < |xs| && key(xs[i]) == k
  {
    if xs == [] then []
    else
      var n := |xs| - 1;
      var ks := DistinctKeys(xs[..n], key);
      assert forall i :: 0 <= i < n ==> xs[..n][i] == xs[i];
      if key(xs[n]) in ks then ks else ks + [key(xs[n])]
  }

  /** The rows of `xs` whose key is `k`, in input order. */
  function Group<T>(xs: seq<T>, key: T -> string, k: string): (g: seq<T>)
    ensures forall i :: 0 <= i < |g| ==> key(g[i]) == k
  {
    if xs == [] then []
    else
      var n := |xs| - 1;
      Group(xs[..n], key, k) + (if key(xs[n]) == k then [xs[n]] else [])
  }

  /** The groups of the keys `ks`, one after another. */
  function ConcatGroups<T>(xs: seq<T>, key: T -> string, ks: seq<string>): seq<T>
  {
    if ks == [] then [] else ConcatGroups(xs, key, ks[..|ks| - 1]) + Group(xs, key, ks[|ks| - 1])
  }

  /** Adding one row at the end: its key is appended if it is new, and the
      row joins the end of its key's group. */
  lemma AppendRow<T>(xs: seq<T>, x: T, key: T -> string)
    ensures DistinctKeys(xs + [x], key)
         == DistinctKeys(xs, key) + (if key(x) in DistinctKeys(xs, key) then [] else [key(x)])
    ensures forall k :: Group(xs + [x], key, k) == Group(xs, key, k) + (if key(x) == k then [x] else [])
  {
    assert (xs + [x])[..|xs|] == xs;
  }

  lemma {:induction false} GroupOfAbsentKey<T>(xs: seq<T>, key: T -> string, k: string)
    requires k !in DistinctKeys(xs, key)
    ensures Group(xs, key, k) == []
  {
    if xs != [] {
      var n := |xs| - 1;
      assert forall i :: 0 <= i < n ==> xs[..n][i] == xs[i];
      GroupOfAbsentKey(xs[..n], key, k);
    }
  }

  lemma {:induction false} GroupOfPresentKey<T>(xs: seq<T>, key: T -> string, k: string)
    requires k in DistinctKeys(xs, key)
    ensures Group(xs, key, k) != []
  {
    var n := |xs| - 1;
    if key(xs[n]) != k {
      var i :| 0 <= i < |xs| && key(xs[i]) == k;
      assert xs[..n][i] == xs[i];
      GroupOfPresentKey(xs[..n], key, k);
    }
  }

  lemma {:induction false} GroupMembers<T>(xs: seq<T>, key: T -> string, k: string)
    ensures forall x :: x in Group(xs, key, k) ==> x in xs
  {
    if xs != [] {
      var n := |xs| - 1;
      GroupMembers(xs[..n], key, k);
      assert forall x :: x in xs[..n] ==> x in xs;
    }
  }

  /** Adding one row at the end adds it to the concatenation of the groups
      exactly when its key is among the (duplicate-free) keys listed. */
  lemma {:induction false} ConcatGroupsSnoc<T>(ys: seq<T>, x: T, key: T -> string, ks: seq<string>)
    requires NoDuplicates(ks)
    ensures multiset(ConcatGroups(ys + [x], key, ks))
         == multiset(ConcatGroups(ys, key, ks)) + (if key(x) in ks then multiset{x} else multiset{})
  {
    if ks != [] {
      var m := |ks| - 1;
      var k := ks[m];
      assert ks == ks[..m] + [k];
      assert NoDuplicates(ks[..m]);
      ConcatGroupsSnoc(ys, x, key, ks[..m]);
      assert (ys + [x])[..|ys|] == ys;
      assert Group(ys + [x], key, k) == Group(ys, key, k) + (if key(x) == k then [x] else []);
      assert key(x) in ks <==> key(x) in ks[..m] || key(x) == k;
      assert key(x) == k ==> key(x) !in ks[..m];
    }
  }

  /** The groups of all distinct keys hold exactly the rows of `xs`: no row is
      lost and none is counted twice. */
  lemma {:induction false} GroupsPartition<T>(xs: seq<T>, key: T -> string)
    ensures multiset(ConcatGroups(xs, key, DistinctKeys(xs, key))) == multiset(xs)
  {
    if xs != [] {
      var n := |xs| - 1;
      var ys, x := xs[..n], xs[n];
      assert xs == ys + [x];
      var ks := DistinctKeys(ys, key);
      GroupsPartition(ys, key);
      ConcatGroupsSnoc(ys, x, key, ks);
      if key(x) !in ks {
        GroupOfAbsentKey(ys, key, key(x));
        assert (ks + [key(x)])[..|ks|] == ks;
        assert Group(xs, key, key(x)) == [x];
      }
    }
  }

  /** Consequently a sum over all rows equals the sum of the per-key sums. */
  lemma {:induction false} SumOfGroups<T>(xs: seq<T>, key: T -> string, f: T -> real)
    ensures SumOf(ConcatGroups(xs, key, DistinctKeys(xs, key)), f) == SumOf(xs, f)
  {
    GroupsPartition(xs, key);
    SumOfPermutation(ConcatGroups(xs, key, DistinctKeys(xs, key)), xs, f);
  }

  /** A key's group keeps every row with that key as often as it occurs,
      and no other row. */
  lemma {:induction false} GroupCount<T>(xs: seq<T>, key: T -> string, k: string, x: T)
    ensures multiset(Group(xs, key, k))[x] == if key(x) == k then multiset(xs)[x] else 0
  {
    if xs != [] {
      var n := |xs| - 1;
      GroupCount(xs[..n], key, k, x);
      assert xs == xs[..n] + [xs[n]];
    }
  }

  /** Rearranging the rows rearranges each group. */
  lemma GroupPermutation<T>(xs: seq<T>, ys: seq<T>, key: T -> string, k: string)
    requires multiset(xs) == multiset(ys)
    ensures multiset(Group(xs, key, k)) == multiset(Group(ys, key, k))
  {
    forall x ensures multiset(Group(xs, key, k))[x] == multiset(Group(ys, key, k))[x] {
      GroupCount(xs, key, k, x);
      GroupCount(ys, key, k, x);
    }
    SameCounts(multiset(Group(xs, key, k)), multiset(Group(ys, key, k)));
  }

  /** A key list without duplicates holds each of its keys once. */
  lemma {:induction false} NoDuplicatesCount(ks: seq<string>, k: string)
    requires NoDuplicates(ks)
    ensures multiset(ks)[k] == if k in ks then 1 else 0
  {
    if ks != [] {
      var n := |ks| - 1;
      assert ks == ks[..n] + [ks[n]];
      assert NoDuplicates(ks[..n]);
      NoDuplicatesCount(ks[..n], k);
      assert forall i :: 0 <= i < n ==> ks[..n][i] != ks[n];
    }
  }

  /** Rearranging the rows leaves the same distinct keys, possibly in
      another order. */
  lemma DistinctKeysPermutation<T>(xs: seq<T>, ys: seq<T>, key: T -> string)
    requires multiset(xs) == multiset(ys)
    ensures multiset(DistinctKeys(xs, key)) == multiset(DistinctKeys(ys, key))
  {
    var a, b := DistinctKeys(xs, key), DistinctKeys(ys, key);
    forall k ensures multiset(a)[k] == multiset(b)[k] {
      NoDuplicatesCount(a, k);
      NoDuplicatesCount(b, k);
      if k in a {
        var i :| 0 <= i < |xs| && key(xs[i]) == k;
        assert xs[i] in multiset(ys);
        var j :| 0 <= j < |ys| && ys[j] == xs[i];
      }
      if k in b {
        var j :| 0 <= j < |ys| && key(ys[j]) == k;
        assert ys[j] in multiset(xs);
        var i :| 0 <= i < |xs| && xs[i] == ys[j];
      }
    }
    SameCounts(multiset(a), multiset(b));
  }
}
