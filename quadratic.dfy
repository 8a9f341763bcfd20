/**
 * Quadratic vote weighting: the weight of a vote is the integer square root
 * of the staked amount, and only perfect squares are accepted.
 *
 * The contract computes the root with floating point, as the floor of the
 * square root; here it is an exact integer square root.
 */
module Quadratic {

  /** The integer square root: the largest r with r * r <= n. */
  function ISqrt(n: nat): (r: nat)
    ensures r * r <= n < (r + 1) * (r + 1)
    decreases n
  {
    if n < 4 then
      (if n == 0 then 0 else 1)
    else
      var h := ISqrt(n / 4);
      RootStep(n, h);
      if (2 * h + 1) * (2 * h + 1) <= n then 2 * h + 1 else 2 * h
  }

  /** If h is the root of n / 4, then the root of n is 2h or 2h + 1. */
  lemma RootStep(n: nat, h: nat)
    requires h * h <= n / 4 < (h + 1) * (h + 1)
    ensures (2 * h) * (2 * h) <= n < (2 * h + 2) * (2 * h + 2)
  {
    var q := n / 4;
    assert n == 4 * q + n % 4;
    assert (2 * h) * (2 * h) == 4 * (h * h);
    assert (2 * h + 2) * (2 * h + 2) == 4 * ((h + 1) * (h + 1));
    assert q + 1 <= (h + 1) * (h + 1);
  }

  /** A non-negative amount is a perfect square when some k has k * k == amount. */
  ghost predicate IsSquare(amount: int) {
    exists k: nat :: k * k == amount
  }

  /** Squares of non-negative numbers are ordered like the numbers. */
  lemma SquareMonotone(a: nat, b: nat)
    ensures a * a <= b * b ==> a <= b
    ensures a * a < b * b ==> a < b
  {
    if a <= b {
      assert a * a <= a * b <= b * b;
    } else {
      assert b * b <= b * a <= a * a;
    }
  }

  /** The root of k * k is k: the weight of a square amount is recovered exactly. */
  lemma RootOfSquare(k: nat)
    ensures ISqrt(k * k) == k
  {
    var r := ISqrt(k * k);
    SquareMonotone(r, k);
    SquareMonotone(k, r + 1);
  }

  /**
   * The check the contract performs after taking the root,
   * root * root == amount, holds exactly for the perfect squares.
   */
  lemma RootCheckIffSquare(amount: nat)
    ensures ISqrt(amount) * ISqrt(amount) == amount <==> IsSquare(amount)
  {
    if IsSquare(amount) {
      var k: nat :| k * k == amount;
      RootOfSquare(k);
    }
  }
}
