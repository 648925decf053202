/** Small arithmetic shared by the models. Products and quotients of reals are named facts,
    so that proofs multiply out only what they need. */
module Arithmetic {

  function Min(a: int, b: int): int { if a <= b then a else b }

  function Max(a: int, b: int): int { if a >= b then a else b }

  function One(b: bool): nat { if b then 1 else 0 }

  function MinReal(a: real, b: real): real { if a <= b then a else b }

  function MaxReal(a: real, b: real): real { if a >= b then a else b }

  function Pow2(n: nat): (r: real)
    ensures r >= 1.0
  {
    if n == 0 then 1.0 else 2.0 * Pow2(n - 1)
  }

  /** The part `d` of `m`. */
  function PartOf(d: real, m: real): real { d * m }

  lemma PartBounds(d: real, m: real)
    requires 0.0 <= d <= 1.0 && m >= 0.0
    ensures 0.0 <= PartOf(d, m) <= m && (d == 1.0 ==> PartOf(d, m) == m)
  {
    ProductNonNegative(d, m);
    ScaleBy(d, 1.0, m);
  }

  lemma SquareNonNegative(x: real)
    ensures x * x >= 0.0
  {
  }

  lemma ProductNonNegative(x: real, y: real)
    requires x >= 0.0 && y >= 0.0
    ensures x * y >= 0.0
  {
  }

  lemma PositiveProduct(x: real, y: real)
    requires x > 0.0 && y > 0.0
    ensures x * y > 0.0
  {
  }

  lemma PositiveQuotient(x: real, y: real)
    requires x > 0.0 && y > 0.0
    ensures x / y > 0.0
  {
  }

  lemma UnitQuotient(x: real, y: real)
    requires 0.0 <= x <= y && y > 0.0
    ensures 0.0 <= x / y <= 1.0 && (x / y == 1.0 <==> x == y)
  {
  }

  lemma DivideMonotone(x: real, y: real, d: real)
    requires x <= y && d > 0.0
    ensures x / d <= y / d
  {
  }

  lemma ScaleBy(x: real, y: real, k: real)
    requires x <= y && k >= 0.0
    ensures x * k <= y * k
  {
    ProductNonNegative(y - x, k);
    assert (y - x) * k == y * k - x * k;
  }
}
