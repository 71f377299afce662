/** The few facts about products of reals that the proofs lean on. */
module RealFacts {

  lemma ProductNonnegative(x: real, y: real)
    requires x >= 0.0 && y >= 0.0
    ensures x * y >= 0.0
  {
  }

  lemma ProductPositive(x: real, y: real)
    requires x > 0.0 && y > 0.0
    ensures x * y > 0.0
  {
  }

  lemma Distribute(x: real, y: real, z: real)
    ensures x * (y + z) == x * y + x * z
    ensures x * (y - z) == x * y - x * z
  {
  }

  /** Scaling by a nonnegative factor keeps an order. */
  lemma ScaleOrder(x: real, y: real, factor: real)
    requires x <= y && factor >= 0.0
    ensures x * factor <= y * factor
  {
    ProductNonnegative(y - x, factor);
    assert (y - x) * factor == y * factor - x * factor;
  }

  /** Keeps the solver from working the quotient out. */
  function Quotient(a: real, d: real): real
    requires d != 0.0
  {
    a / d
  }

  /** Division undoes multiplication by a nonzero factor. */
  lemma DivideBack(x: real, y: real)
    requires y != 0.0
    ensures x / y * y == x
  {
  }

  lemma DivideOrder(x: real, y: real, d: real)
    requires d > 0.0
    ensures x / d <= y / d <==> x <= y
  {
    DivideBack(x, d);
    DivideBack(y, d);
  }

  lemma SquareNonnegative(x: real)
    ensures x * x >= 0.0
    ensures x != 0.0 ==> x * x > 0.0
  {
    if x > 0.0 { ProductPositive(x, x); }
    if x < 0.0 { ProductPositive(-x, -x); assert (-x) * (-x) == x * x; }
  }

  lemma Cancel(x: real, y: real, z: real)
    requires z > 0.0
    ensures x * z == y * z ==> x == y
  {
    if x > y { ProductPositive(x - y, z); assert (x - y) * z == x * z - y * z; }
    if x < y { ProductPositive(y - x, z); assert (y - x) * z == y * z - x * z; }
  }

  lemma CancelOrder(x: real, y: real, k: real)
    ensures k > 0.0 && k * x < k * y ==> x < y
  {
    if k > 0.0 && x >= y { ScaleOrder(y, x, k); }
  }

  lemma ZeroQuotient(x: real, y: real)
    requires x == 0.0 && y > 0.0
    ensures x / y == 0.0
  {
    DivideBack(x, y);
    Cancel(x / y, 0.0, y);
  }
}
