/** Facts about remainders and finite sets that several models use. */
module Arithmetic {

  lemma Multiple(d: nat, x: int)
    ensures x >= 1 ==> d * x >= d
    ensures x <= -1 ==> d * x <= 0 - d
  {
    assert d * x == d + d * (x - 1) == d * (x + 1) - d;
  }

  /** Quotient and remainder are unique. */
  lemma Quotient(n: int, d: nat, q: int, r: nat)
    requires n == d * q + r && r < d
    ensures n / d == q && n % d == r
  {
    var x := n / d - q;
    assert d * x == d * (n / d) - d * q;
    Multiple(d, x);
  }

  lemma AddMultiple(x: int, k: int, m: nat)
    requires 0 < m
    ensures (x + m * k) % m == x % m
  {
    assert x + m * k == m * (x / m + k) + x % m;
    Quotient(x + m * k, m, x / m + k, x % m);
  }

  /** Numbers less than `m` apart have different remainders. */
  lemma Different(j: int, k: int, m: nat)
    requires j < k < j + m
    ensures j % m != k % m
  {
    var d := k / m - j / m;
    assert k - j == m * d + (k % m - j % m);
    Multiple(m, d);
  }

  lemma {:induction false} SubsetSize(a: set<nat>, b: set<nat>)
    requires a <= b
    ensures |a| <= |b|
  {
    if a != {} {
      var x :| x in a;
      SubsetSize(a - {x}, b - {x});
    }
  }
}
