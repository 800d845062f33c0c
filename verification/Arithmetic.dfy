/** The little non-linear arithmetic the other modules need. */
module Arithmetic {

  lemma Quotient(q: nat, d: nat)
    requires d > 0
    ensures q * d / d == q && q * d % d == 0 && (q * d == 0 ==> q == 0)
  {
    SameMultiple(q, q * d / d, q * d % d, d);
    SameMultiple(q, 0, 0, d);
  }

  lemma SameMultiple(q: nat, r: nat, m: nat, d: nat)
    requires m < d
    ensures q * d == r * d + m ==> q == r
  {
    if q < r {
      MultipleMonotone(q, r, d);
    } else if q > r {
      MultipleMonotone(r + 1, q, d);
    }
  }

  lemma MultipleMonotone(a: nat, b: nat, d: nat)
    requires a <= b
    ensures a * d <= b * d
    ensures (a + 1) * d == a * d + d
  {
    assert b * d == a * d + (b - a) * d;
  }

  lemma MultipleDifference(a: nat, b: nat, d: nat, rest: nat)
    requires a <= b && rest == (b - a) * d
    ensures a * d + rest == b * d
  {
  }

  lemma FewerMultiples(q: nat, n: nat, d: nat)
    requires q * d <= n * d && d > 0
    ensures q <= n
  {
    if q > n {
      MultipleMonotone(n + 1, q, d);
      MultipleMonotone(n, q, d);
    }
  }

  lemma Divide(k: nat, d: nat) returns (q: nat, r: nat)
    requires d > 0
    ensures k == q * d + r && r < d
  {
    q, r := k / d, k % d;
  }

  lemma BelowMultiple(q: nat, r: nat, n: nat, d: nat)
    requires q * d + r < n * d
    ensures q < n
  {
    if q >= n {
      MultipleMonotone(n, q, d);
    }
  }

  function Pow2(k: nat): (p: nat)
    ensures p >= 1
  {
    if k == 0 then 1 else 2 * Pow2(k - 1)
  }

  /** The least k with n <= 2^k. */
  function CeilLog2(n: nat): (k: nat)
    ensures n <= Pow2(k) && (k > 0 ==> Pow2(k - 1) < n)
  {
    if n <= 1 then 0 else 1 + CeilLog2((n + 1) / 2)
  }

  lemma {:induction false} CeilLog2Monotone(a: nat, b: nat)
    requires a <= b
    ensures CeilLog2(a) <= CeilLog2(b)
  {
    if a > 1 {
      CeilLog2Monotone((a + 1) / 2, (b + 1) / 2);
    }
  }
}
