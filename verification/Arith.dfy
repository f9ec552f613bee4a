/** Facts about Euclidean division that the solver does not find by itself. */
module Arith {
  lemma {:induction false} DivUnique(n: int, d: int, q: int, r: int)
    requires d > 0 && n == q * d + r && 0 <= r < d
    ensures n / d == q && n % d == r
  {
    var q', r' := n / d, n % d;
    assert n == q' * d + r';
    assert (q' - q) * d == r - r' by {
      assert (q' - q) * d == q' * d - q * d;
    }
    if q' - q >= 1 {
      MulAtLeast(q' - q, d);
    } else if q - q' >= 1 {
      assert (q - q') * d == r' - r by {
        assert (q - q') * d == q * d - q' * d;
      }
      MulAtLeast(q - q', d);
    }
  }

  lemma {:induction false} MulAtLeast(k: int, d: int)
    requires k >= 1 && d > 0
    ensures k * d >= d
  {
    assert k * d == (k - 1) * d + d;
  }

  lemma {:induction false} DivShift(y: int, p: int, m: int)
    requires p > 0
    ensures (y + m * p) / p == y / p + m
  {
    assert (y / p + m) * p == y / p * p + m * p;
    DivUnique(y + m * p, p, y / p + m, y % p);
  }

  lemma {:induction false} DivAtMost(x: nat, d: nat)
    requires d > 0
    ensures x / d <= x
  {
    var q := x / d;
    assert x == q * d + x % d;
    if q > x {
      MulAtLeast(d, q);
    }
  }
}
