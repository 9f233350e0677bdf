/** Minima, and order facts about products and quotients. */
module Arith {
  function Min(x: nat, y: nat): nat { if x <= y then x else y }

  function MinReal(x: real, y: real): real { if x <= y then x else y }

  function MaxReal(x: real, y: real): real { if x >= y then x else y }

  lemma MulPositive(x: int, y: int)
    requires x > 0 && y > 0
    ensures x * y > 0
  {}

  lemma MulMonotone(x: int, y: int, k: int)
    requires x <= y && k >= 0
    ensures x * k <= y * k
  {}

  lemma DivMonotone(x: int, y: int, d: int)
    requires 0 <= x <= y && d > 0
    ensures x / d <= y / d
  {
    var q, r := y / d, x / d;
    assert y == q * d + y % d && x == r * d + x % d;
    assert (q + 1) * d == q * d + d;
    if r > q {
      MulMonotone(q + 1, r, d);
    }
  }
}
