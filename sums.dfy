/**
 * Sums of counts. Each worker of main.c adds its local count into the shared
 * `successful_rounds` under the mutex, in whatever order the workers reach
 * it; these lemmas show the total does not depend on that order.
 */
module Sums {
  /** The sum of a sequence, taken from the front. */
  function Sum(xs: seq<int>): int {
    if |xs| == 0 then 0 else Sum(xs[..|xs| - 1]) + xs[|xs| - 1]
  }

  lemma {:induction false} SumConcat(a: seq<int>, b: seq<int>)
    ensures Sum(a + b) == Sum(a) + Sum(b)
    decreases |b|
  {
    if |b| == 0 {
      assert a + b == a;
    } else {
      SumConcat(a, b[..|b| - 1]);
      assert (a + b)[..|a + b| - 1] == a + b[..|b| - 1];
    }
  }

  /** Taking one element out of a sequence takes its value out of the sum. */
  lemma SumRemove(xs: seq<int>, j: int)
    requires 0 <= j < |xs|
    ensures Sum(xs) == xs[j] + Sum(xs[..j] + xs[j + 1..])
  {
    assert xs == xs[..j] + ([xs[j]] + xs[j + 1..]);
    SumConcat(xs[..j], [xs[j]] + xs[j + 1..]);
    SumConcat([xs[j]], xs[j + 1..]);
    SumConcat(xs[..j], xs[j + 1..]);
    assert Sum([xs[j]]) == xs[j] by {
      assert [xs[j]][..0] == [];
    }
  }

  /**
   * Adding the same counts in any order gives the same total: two sequences
   * with the same multiset of elements have the same sum.
   */
  lemma {:induction false} SumOrderIrrelevant(a: seq<int>, b: seq<int>)
    requires multiset(a) == multiset(b)
    ensures Sum(a) == Sum(b)
    decreases |a|
  {
    if |a| == 0 {
      assert |multiset(b)| == 0;
    } else {
      var x := a[|a| - 1];
      var a' := a[..|a| - 1];
      assert a == a' + [x];
      assert x in multiset(b);
      var j :| 0 <= j < |b| && b[j] == x;
      var b' := b[..j] + b[j + 1..];
      assert b == b[..j] + [x] + b[j + 1..];
      assert multiset(b') == multiset(b) - multiset{x};
      assert multiset(a') == multiset(a) - multiset{x};
      SumOrderIrrelevant(a', b');
      SumRemove(b, j);
    }
  }

  /** A sum of counts each between 0 and its bound lies between 0 and the sum of the bounds. */
  lemma {:induction false} SumBounded(xs: seq<int>, bounds: seq<int>)
    requires |xs| == |bounds|
    requires forall i :: 0 <= i < |xs| ==> 0 <= xs[i] <= bounds[i]
    ensures 0 <= Sum(xs) <= Sum(bounds)
    decreases |xs|
  {
    if |xs| > 0 {
      SumBounded(xs[..|xs| - 1], bounds[..|bounds| - 1]);
    }
  }

  /** With no negative counts, a prefix never sums to more than the whole. */
  lemma {:induction false} SumPrefixAtMost(xs: seq<int>, k: int)
    requires 0 <= k <= |xs|
    requires forall i :: 0 <= i < |xs| ==> 0 <= xs[i]
    ensures Sum(xs[..k]) <= Sum(xs)
  {
    assert xs == xs[..k] + xs[k..];
    SumConcat(xs[..k], xs[k..]);
    SumBounded(xs[k..], xs[k..]);
  }
}
