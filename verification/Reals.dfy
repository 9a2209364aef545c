/** The few facts about products and quotients of reals that the proofs lean on. */
module Reals {

  lemma MulNonNegative(x: real, y: real)
    requires x >= 0.0 && y >= 0.0
    ensures x * y >= 0.0
  {
  }

  lemma MulPositive(x: real, y: real)
    requires x > 0.0 && y > 0.0
    ensures x * y > 0.0
  {
  }

  lemma MulSub(x: real, y: real, s: real)
    ensures (x - y) * s == x * s - y * s
  {
  }

  lemma MulAdd(x: real, y: real, s: real)
    ensures (x + y) * s == x * s + y * s
  {
  }

  lemma MulMonotone(x: real, y: real, s: real)
    requires x <= y && s >= 0.0
    ensures x * s <= y * s
  {
    MulNonNegative(y - x, s);
    MulSub(y, x, s);
  }

  lemma MulStrictlyMonotone(x: real, y: real, s: real)
    requires x < y && s > 0.0
    ensures x * s < y * s
  {
    MulPositive(y - x, s);
    MulSub(y, x, s);
  }

  lemma DivTimes(x: real, s: real)
    requires s != 0.0
    ensures x / s * s == x
  {
  }

  lemma DivBounds(x: real, s: real)
    requires 0.0 < x <= s
    ensures 0.0 < x / s <= 1.0
    ensures x < s ==> x / s < 1.0
    ensures x == s ==> x / s == 1.0
  {
  }
}
