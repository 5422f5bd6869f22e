/** The two facts about products of reals that the grid and the camera use. */
module Reals {

  lemma NonNegative(a: real, b: real)
    requires a >= 0.0 && b >= 0.0
    ensures a * b >= 0.0
  {
  }

  lemma ProductsGrow(b: real, x: real, y: real)
    requires b >= 0.0 && x <= y
    ensures b * x <= b * y
  {
    NonNegative(b, y - x);
    assert b * y - b * x == b * (y - x);
  }
}
