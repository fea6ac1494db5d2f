// Inversions of a sequence: the pairs that are in the wrong order.  Swapping the
// two ends of an inversion removes at least that one, whatever lies between.
module Inversions {
  import opened FiniteSets

  type Pair = (int, int)

  function Pairs(n: nat): set<Pair> {
    set i, j | 0 <= i < n && 0 <= j < n && i < j :: (i, j)
  }

  function Inverted(a: seq<int>): set<Pair> {
    set i, j | 0 <= i < |a| && 0 <= j < |a| && i < j && a[i] > a[j] :: (i, j)
  }

  function Swapped(a: seq<int>, i: nat, j: nat): seq<int>
    requires i < |a| && j < |a|
  {
    a[i := a[j]][j := a[i]]
  }

  predicate Sorted(a: seq<int>) {
    forall i, j :: 0 <= i < j < |a| ==> a[i] <= a[j]
  }

  // What a scan of neighbours finds out.
  predicate InOrder(a: seq<int>) {
    forall i :: 1 <= i < |a| ==> a[i - 1] <= a[i]
  }

  lemma {:induction false} OrderReaches(a: seq<int>, i: nat, j: nat)
    requires InOrder(a) && i <= j < |a|
    ensures a[i] <= a[j]
    decreases j
  {
    if i < j {
      OrderReaches(a, i, j - 1);
      assert a[j - 1] <= a[j];
    }
  }

  // Neighbours are in order if and only if no pair is out of order.
  lemma NeighboursDecide(a: seq<int>)
    ensures InOrder(a) <==> Inverted(a) == {}
    ensures InOrder(a) <==> Sorted(a)
  {
    if InOrder(a) {
      forall i, j | 0 <= i < j < |a| ensures a[i] <= a[j] {
        OrderReaches(a, i, j);
      }
    } else {
      var i :| 1 <= i < |a| && a[i - 1] > a[i];
      assert (i - 1, i) in Inverted(a);
    }
  }

  // Where an inversion of the swapped sequence comes from in the original one.
  function Origin(p: Pair, i: nat, j: nat): Pair {
    if p.1 == i then (p.0, j)
    else if p.1 == j && p.0 < i then (p.0, i)
    else if p.0 == i && p.1 > j then (j, p.1)
    else if p.0 == j then (i, p.1)
    else p
  }

  lemma SwapLowersInversions(a: seq<int>, i: nat, j: nat)
    requires i < j < |a| && a[i] > a[j]
    ensures |Inverted(Swapped(a, i, j))| < |Inverted(a)|
    ensures multiset(Swapped(a, i, j)) == multiset(a)
  {
    var b := Swapped(a, i, j);
    var origins := set p | p in Inverted(b) :: Origin(p, i, j);
    forall p, q | p in Inverted(b) && q in Inverted(b) && p != q ensures Origin(p, i, j) != Origin(q, i, j) {
    }
    ImageSize(Inverted(b), p => Origin(p, i, j), origins);
    assert origins <= Inverted(a) - {(i, j)} by {
      forall p | p in Inverted(b) ensures Origin(p, i, j) in Inverted(a) && Origin(p, i, j) != (i, j) {
      }
    }
    assert (i, j) in Inverted(a);
    SubsetSize(origins, Inverted(a) - {(i, j)});
  }

  lemma PairsWithLast(n: nat, firsts: set<int>, last: int)
    requires last == n - 1 >= 0 && firsts == Below(n - 1)
    ensures |Pairs(n)| == |Pairs(n - 1)| + n - 1
  {
    var withLast := set i | i in firsts :: (i, last);
    ImageSize(firsts, i => (i, last), withLast);
    forall p: Pair ensures p in Pairs(n) <==> p in Pairs(n - 1) || p in withLast {
    }
    assert Pairs(n) == Pairs(n - 1) + withLast;
    assert Pairs(n - 1) * withLast == {};
  }

  lemma {:induction false} PairsSize(n: nat)
    ensures |Pairs(n)| == n * (n - 1) / 2
  {
    if n > 0 {
      PairsSize(n - 1);
      PairsWithLast(n, Below(n - 1), n - 1);
      HalfProduct(n);
    }
  }

  lemma HalfProduct(n: nat)
    requires n > 0
    ensures n * (n - 1) / 2 == (n - 1) * (n - 2) / 2 + (n - 1)
  {
    assert n * (n - 1) == (n - 1) * (n - 2) + 2 * (n - 1);
  }

  // A sequence of length n has at most n * (n - 1) / 2 inversions.
  lemma InversionsBound(a: seq<int>)
    ensures |Inverted(a)| <= |a| * (|a| - 1) / 2
  {
    SubsetSize(Inverted(a), Pairs(|a|));
    PairsSize(|a|);
  }
}
