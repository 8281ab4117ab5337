/** Products and the order of their factors. */
module Arithmetic {
  lemma MulOrder(a: int, b: int, width: nat)
    requires a <= b
    ensures a * width <= b * width
  {
    assert (b - a) * width >= 0;
  }

  lemma MulGap(a: int, b: int, width: nat)
    requires a < b
    ensures a * width + width <= b * width
  {
    MulOrder(a + 1, b, width);
  }
}
