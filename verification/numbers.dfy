/** Exact integer stand-ins for JavaScript's `Math.round` and `Math.ceil` on
    quotients, the two rounding steps the scoring and pagination code use. */
module Numbers {

  /** `Math.round(a / b)` for a non-negative quotient: the nearest integer to
      a/b, with halves rounded up. */
  function RoundHalfUp(a: nat, b: nat): (r: nat)
    requires b > 0
    ensures 2 * r * b <= 2 * a + b < 2 * r * b + 2 * b
  {
    (2 * a + b) / (2 * b)
  }

  lemma MulLeq(x: int, y: int, b: nat)
    requires x <= y
    ensures x * b <= y * b
  {
    assert y * b - x * b == (y - x) * b;
  }

  /** Multiplying by a positive factor keeps a strict order in both directions. */
  lemma MulLess(x: int, y: int, b: nat)
    requires b > 0 && x * b < y * b
    ensures x < y
  {
    if x >= y {
      MulLeq(y, x, b);
      assert false;
    }
  }

  /** A quotient at most k rounds to at most k. */
  lemma RoundAtMost(a: nat, b: nat, k: nat)
    requires b > 0 && a <= k * b
    ensures RoundHalfUp(a, b) <= k
  {
    var r := RoundHalfUp(a, b);
    if r > k {
      MulLeq(k + 1, r, b);
      assert false;
    }
  }

  /** A quotient at least k rounds to at least k. */
  lemma RoundAtLeast(a: nat, b: nat, k: nat)
    requires b > 0 && k * b <= a
    ensures k <= RoundHalfUp(a, b)
  {
    var r := RoundHalfUp(a, b);
    if r < k {
      MulLeq(r + 1, k, b);
      assert false;
    }
  }

  /** A whole quotient is its own rounding. */
  lemma RoundExact(k: nat, b: nat)
    requires b > 0
    ensures RoundHalfUp(k * b, b) == k
  {
    RoundAtMost(k * b, b, k);
    RoundAtLeast(k * b, b, k);
  }

  /** A larger numerator never rounds lower. */
  lemma RoundMonotone(a1: nat, a2: nat, b: nat)
    requires b > 0 && a1 <= a2
    ensures RoundHalfUp(a1, b) <= RoundHalfUp(a2, b)
  {
    var r1, r2 := RoundHalfUp(a1, b), RoundHalfUp(a2, b);
    if r1 > r2 {
      MulLeq(r2 + 1, r1, b);
      assert false;
    }
  }

  /** `Math.ceil(total / limit)` for a non-zero limit. */
  function CeilDiv(total: nat, limit: int): (r: int)
    requires limit != 0
    ensures limit > 0 ==> (r - 1) * limit < total <= r * limit
    ensures limit < 0 ==> r * limit <= total < (r - 1) * limit
  {
    if limit > 0 then
      CeilDivPositive(total, limit);
      (total + limit - 1) / limit
    else
      CeilDivNegative(total, limit);
      -(total / -limit)
  }

  lemma CeilDivPositive(total: nat, limit: int)
    requires limit > 0
    ensures var r := (total + limit - 1) / limit; (r - 1) * limit < total <= r * limit
  {
    var q := (total + limit - 1) / limit;
    var m := (total + limit - 1) % limit;
    assert q * limit + m == total + limit - 1 && 0 <= m < limit;
    assert (q - 1) * limit == q * limit - limit;
  }

  lemma CeilDivNegative(total: nat, limit: int)
    requires limit < 0
    ensures var r := -(total / -limit); r * limit <= total < (r - 1) * limit
  {
    var m := -limit;
    var q := total / m;
    assert m * q <= total < m * q + m;
    assert (-q) * limit == m * q;
    assert (-q - 1) * limit == m * q + m;
  }
}
