/** Integer arithmetic standing in for the floating-point `Math.round`, `Math.min`
    and `Math.max` calls of the puzzle engine. Every division the engine rounds
    has a non-negative numerator and a positive denominator, so rounding can be
    done exactly on integers. */
module Rounding {

  function Min(a: int, b: int): int { if a <= b then a else b }

  function Max(a: int, b: int): int { if a >= b then a else b }

  /** `Math.round(p / q)` for p >= 0, q > 0: the integer nearest to p/q, with an
      exact half rounded up. */
  function RoundDiv(p: int, q: int): (r: int)
    requires p >= 0 && q > 0
    ensures r >= 0
    ensures -q <= 2 * (p - q * r) < q
  {
    var d := 2 * q;
    var r := (2 * p + q) / d;
    assert d * r <= 2 * p + q < d * r + d;
    assert d * r == 2 * (q * r);
    r
  }

  /** Rounding is determined: only one integer lies within half of p/q (ties up). */
  lemma RoundDivUnique(p: int, q: int, r: int)
    requires p >= 0 && q > 0
    requires -q <= 2 * (p - q * r) < q
    ensures r == RoundDiv(p, q)
  {
    var r0 := RoundDiv(p, q);
    StepApart(q, r, r0);
    StepApart(q, r0, r);
  }

  /** Two different multiples of q are at least q apart; `RoundDivUnique` and
      `Percent` use it to rule out a second rounding and a value above 100. */
  lemma StepApart(q: int, a: int, b: int)
    requires q > 0
    ensures a < b ==> q * a + q <= q * b
  {
    if a < b {
      var k := b - a - 1;
      assert q * b == q * a + q + q * k;
    }
  }

  /** `Math.round(100 * correct / total)`: a whole percentage. */
  function Percent(correct: nat, total: nat): (r: nat)
    requires total > 0
    requires correct <= total
    ensures r <= 100
    ensures correct == 0 ==> r == 0
  {
    var r := RoundDiv(100 * correct, total);
    StepApart(total, 100, r);
    r
  }

  /** For fewer than 200 items the percentage is 100 exactly when every item counts:
      with one item missing, 100 * (total - 1) / total stays below 99.5. */
  lemma {:induction false} PercentFull(correct: nat, total: nat)
    requires 0 < total < 200
    requires correct <= total
    ensures Percent(correct, total) == 100 <==> correct == total
  {
    var r := Percent(correct, total);
    if correct == total {
      RoundDivUnique(100 * correct, total, 100);
    }
  }
}
