/**
 * Kotlin `Int`/`Long` arithmetic that differs from Dafny's.
 *
 * Kotlin (like Java) rounds integer division toward zero; Dafny's `/` on `int`
 * is Euclidean, which rounds negative quotients down instead. Every division in
 * the modelled code has a positive divisor (a frame dimension, 2, 100 or 10^6),
 * so only that case is defined. Values are assumed to stay within 32/64-bit
 * range, so no wrap-around is modelled.
 */
module KotlinArith {

  function Abs(x: int): (r: nat)
    ensures r == x || r == -x
  {
    if x < 0 then -x else x
  }

  /** Kotlin's `a / b` for a positive `b`: the quotient rounded toward zero. */
  function TruncDiv(a: int, b: int): (q: int)
    requires b > 0
    // the magnitude is rounded down and the sign of the dividend is kept
    ensures Abs(q) == Abs(a) / b
    ensures q > 0 ==> a > 0
    ensures q < 0 ==> a < 0
  {
    if a >= 0 then a / b else -((-a) / b)
  }

  lemma MulMonotone(x: int, y: int, b: int)
    requires x <= y && b >= 0
    ensures x * b <= y * b
  {
  }

  /** Euclidean division by a positive divisor is monotone in the dividend. */
  lemma DivMonotone(a1: int, a2: int, b: int)
    requires a1 <= a2 && b > 0
    ensures a1 / b <= a2 / b
  {
    if a1 / b > a2 / b {
      MulMonotone(a2 / b + 1, a1 / b, b);
    }
  }

  /** Truncating division by a positive divisor never reverses the order of two dividends. */
  lemma TruncDivMonotone(a1: int, a2: int, b: int)
    requires a1 <= a2 && b > 0
    ensures TruncDiv(a1, b) <= TruncDiv(a2, b)
  {
    if a1 >= 0 {
      DivMonotone(a1, a2, b);
    } else if a2 < 0 {
      DivMonotone(-a2, -a1, b);
    } else {
      assert TruncDiv(a1, b) <= 0 <= TruncDiv(a2, b);
    }
  }

  /** For a non-negative dividend, the quotient is below `k` exactly when the dividend is below `k * b`. */
  lemma DivBelow(a: int, b: int, k: int)
    requires a >= 0 && b > 0
    ensures a / b < k <==> a < k * b
  {
    if a / b < k {
      MulMonotone(a / b + 1, k, b);
    } else {
      MulMonotone(k, a / b, b);
    }
  }

  /** The truncated quotient reaches a positive `k` exactly when the dividend reaches `k * b`. */
  lemma TruncDivAtLeast(a: int, b: int, k: int)
    requires b > 0 && k > 0
    ensures TruncDiv(a, b) >= k <==> a >= k * b
  {
    if a >= 0 {
      DivBelow(a, b, k);
    } else {
      MulMonotone(0, k, b);
    }
  }

  /** The truncated quotient stays at or below a non-negative `k` exactly when the dividend is below `(k + 1) * b`. */
  lemma TruncDivAtMost(a: int, b: int, k: int)
    requires b > 0 && k >= 0
    ensures TruncDiv(a, b) <= k <==> a < (k + 1) * b
  {
    if a >= 0 {
      DivBelow(a, b, k + 1);
    } else {
      MulMonotone(0, k + 1, b);
    }
  }

  /** The truncated quotient is strictly inside (-k, k) exactly when the dividend is inside (-k * b, k * b). */
  lemma TruncDivAbsBelow(a: int, b: int, k: int)
    requires b > 0
    ensures Abs(TruncDiv(a, b)) < k <==> Abs(a) < k * b
  {
    DivBelow(Abs(a), b, k);
  }
}
