/** Facts about integer multiplication and Euclidean division used by the
    countdown and the rounded average. */
module Arith {

  lemma {:induction false} MulMonotone(x: int, y: int, d: nat)
    requires x <= y
    ensures x * d <= y * d
  {
    assert y * d - x * d == (y - x) * d;
  }

  /** At most one integer q has q * d <= n < q * d + d. */
  lemma {:induction false} QuotientUnique(n: int, d: nat, q: int, q': int)
    requires d > 0
    requires q * d <= n < q * d + d
    requires q' * d <= n < q' * d + d
    ensures q == q'
  {
    if q' < q {
      MulMonotone(q' + 1, q, d);
    } else if q < q' {
      MulMonotone(q + 1, q', d);
    }
  }

  /** Division is determined by the quotient-remainder decomposition. */
  lemma {:induction false} DivMod(n: int, d: nat, q: int, r: int)
    requires d > 0 && n == q * d + r && 0 <= r < d
    ensures n / d == q && n % d == r
  {
    QuotientUnique(n, d, q, n / d);
  }

  /** Dividing by a, then by b, is dividing by a * b. */
  lemma {:induction false} DivDiv(n: nat, a: nat, b: nat)
    requires a > 0 && b > 0
    ensures n / a / b == n / (a * b)
  {
    var q := n / a;
    var r := n % a;
    var q2 := q / b;
    var r2 := q % b;
    assert n == q * a + r;
    assert q == q2 * b + r2;
    assert n == q2 * (a * b) + (r2 * a + r) by {
      assert q * a == q2 * b * a + r2 * a;
    }
    assert r2 * a + r < a * b by {
      MulMonotone(r2 + 1, b, a);
    }
    DivMod(n, a * b, q2, r2 * a + r);
  }
}
