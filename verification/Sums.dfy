// Sums over a sequence of threads, used for token counts, conserved
// quantities and termination measures.
module Sums {

  function SumBy<T>(ts: seq<T>, f: T -> int): int {
    if |ts| == 0 then 0 else SumBy(ts[..|ts| - 1], f) + f(ts[|ts| - 1])
  }

  // Changing one element changes the sum by the difference of its two values.
  lemma {:induction false} SumByUpdate<T>(ts: seq<T>, f: T -> int, i: nat, v: T)
    requires i < |ts|
    ensures SumBy(ts[i := v], f) == SumBy(ts, f) - f(ts[i]) + f(v)
  {
    var n := |ts| - 1;
    if i == n {
      assert ts[i := v][..n] == ts[..n];
    } else {
      assert ts[i := v][..n] == ts[..n][i := v];
      SumByUpdate(ts[..n], f, i, v);
    }
  }

  // Pointwise order carries over to the sums.
  lemma {:induction false} SumByLe<T, U>(ts: seq<T>, f: T -> int, us: seq<U>, g: U -> int)
    requires |ts| == |us|
    requires forall i :: 0 <= i < |ts| ==> f(ts[i]) <= g(us[i])
    ensures SumBy(ts, f) <= SumBy(us, g)
  {
    if |ts| > 0 {
      SumByLe(ts[..|ts| - 1], f, us[..|us| - 1], g);
    }
  }

  // Pointwise equal values give equal sums.
  lemma SumByEqual<T>(ts: seq<T>, f: T -> int, us: seq<T>, g: T -> int)
    requires |ts| == |us|
    requires forall i :: 0 <= i < |ts| ==> f(ts[i]) == g(us[i])
    ensures SumBy(ts, f) == SumBy(us, g)
  {
    SumByLe(ts, f, us, g);
    SumByLe(us, g, ts, f);
  }

  // Values between lo and hi give a sum between n * lo and n * hi.
  lemma {:induction false} SumByBounds<T>(ts: seq<T>, f: T -> int, lo: int, hi: int)
    requires forall i :: 0 <= i < |ts| ==> lo <= f(ts[i]) <= hi
    ensures |ts| * lo <= SumBy(ts, f) <= |ts| * hi
  {
    var n := |ts|;
    if n > 0 {
      SumByBounds(ts[..n - 1], f, lo, hi);
      assert n * lo == (n - 1) * lo + lo && n * hi == (n - 1) * hi + hi;
    }
  }

  // A sum of non-negative values is at least each of them.
  lemma {:induction false} SumByAtLeast<T>(ts: seq<T>, f: T -> int, i: nat)
    requires i < |ts|
    requires forall k :: 0 <= k < |ts| ==> 0 <= f(ts[k])
    ensures 0 <= f(ts[i]) <= SumBy(ts, f)
  {
    var n := |ts| - 1;
    if i < n {
      SumByAtLeast(ts[..n], f, i);
    } else if n > 0 {
      SumByAtLeast(ts[..n], f, 0);
    }
  }

  // Two different elements together are no more than the sum.
  lemma {:induction false} SumByAtLeastTwo<T>(ts: seq<T>, f: T -> int, i: nat, j: nat)
    requires i < j < |ts|
    requires forall k :: 0 <= k < |ts| ==> 0 <= f(ts[k])
    ensures f(ts[i]) + f(ts[j]) <= SumBy(ts, f)
  {
    var n := |ts| - 1;
    if j < n {
      SumByAtLeastTwo(ts[..n], f, i, j);
    } else {
      SumByAtLeast(ts[..n], f, i);
    }
  }

  // The first element taken apart, and an element added at the end.
  lemma {:induction false} SumByFirst<T>(ts: seq<T>, f: T -> int)
    requires ts != []
    ensures SumBy(ts, f) == f(ts[0]) + SumBy(ts[1..], f)
  {
    var n := |ts| - 1;
    if n > 0 {
      SumByFirst(ts[..n], f);
      assert ts[..n][1..] == ts[1..][..n - 1];
    }
  }

  // The sum of pointwise sums is the sum of the sums.
  lemma {:induction false} SumByPlus<T>(ts: seq<T>, f: T -> int, g: T -> int, both: T -> int)
    requires forall i :: 0 <= i < |ts| ==> both(ts[i]) == f(ts[i]) + g(ts[i])
    ensures SumBy(ts, both) == SumBy(ts, f) + SumBy(ts, g)
  {
    if |ts| > 0 {
      SumByPlus(ts[..|ts| - 1], f, g, both);
    }
  }

  lemma SumByAppend<T>(ts: seq<T>, f: T -> int, t: T)
    ensures SumBy(ts + [t], f) == SumBy(ts, f) + f(t)
  {
    assert (ts + [t])[..|ts|] == ts;
  }
}
