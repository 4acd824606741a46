/** Facts about integer division by a positive divisor. */
module Arith {
  lemma LtMul(a: int, b: int, r: int)
    requires r > 0 && a * r < b * r
    ensures a < b
  {
    if b <= a {
      MulAtLeast(a - b, r);
    }
  }

  lemma MulAtLeast(a: int, r: int)
    requires a >= 0 && r > 0
    ensures a * r >= 0
  {
  }

  lemma DivRange(x: int, r: int)
    requires r > 0
    ensures (x / r) * r <= x < (x / r + 1) * r
  {
  }

  // x / r < k exactly when x < k * r.
  lemma DivBelow(x: int, r: int, k: int)
    requires r > 0
    ensures x < k * r ==> x / r < k
    ensures x >= k * r ==> x / r >= k
  {
    DivRange(x, r);
    if x < k * r {
      LtMul(x / r, k, r);
    } else {
      LtMul(k, x / r + 1, r);
    }
  }

  lemma DivMonotone(x: int, y: int, r: int)
    requires r > 0 && x <= y
    ensures x / r <= y / r
  {
    DivRange(x, r);
    DivRange(y, r);
    LtMul(x / r, y / r + 1, r);
  }

  lemma DivAtMost(x: nat, r: nat)
    requires r > 0
    ensures 0 <= x / r <= x
  {
    DivRange(x, r);
    LtMul(0, x / r + 1, r);
    FactorAtMost(x / r, r, x);
  }

  lemma FactorAtMost(q: nat, r: nat, x: int)
    requires r > 0 && q * r <= x
    ensures q <= x
  {
    if r > 1 {
      MulAtLeast(q, r - 1);
    }
  }
}
