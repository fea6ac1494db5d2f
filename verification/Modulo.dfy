// Facts about % used for ring indices.
module Modulo {

  lemma MultipleTooBig(d: int, n: nat)
    requires d >= 1
    ensures d * n >= n
  {
    assert d * n == (d - 1) * n + n;
  }

  // The remainder is the only r in [0, n) with a == q * n + r for some q.
  lemma ModUnique(a: int, q: int, r: int, n: nat)
    requires 0 <= r < n && a == q * n + r
    ensures a % n == r
  {
    var d := a / n - q;
    assert d * n == (a / n) * n - q * n;
    assert d * n == r - a % n && (-d) * n == a % n - r;
    if d >= 1 {
      MultipleTooBig(d, n);
    } else if d <= -1 {
      MultipleTooBig(-d, n);
    }
  }

  lemma ModSuccessor(a: nat, n: nat)
    requires n > 0
    ensures (a + 1) % n == (a % n + 1) % n == if a % n + 1 == n then 0 else a % n + 1
  {
    var q, r := a / n, a % n;
    if r + 1 < n {
      ModUnique(a + 1, q, r + 1, n);
      ModUnique(r + 1, 0, r + 1, n);
    } else {
      assert a + 1 == (q + 1) * n + 0;
      ModUnique(a + 1, q + 1, 0, n);
      ModUnique(r + 1, 1, 0, n);
    }
  }

  // Two numbers less than n apart have different remainders.
  lemma ModDistinct(a: nat, b: nat, n: nat)
    requires a < b < a + n
    ensures a % n != b % n
  {
    if a % n == b % n {
      var d := b / n - a / n;
      assert d * n == (b / n) * n - (a / n) * n;
      assert d * n == b - a && (d <= 0 ==> d * n <= 0);
      MultipleTooBig(d, n);
    }
  }
}
