/** Products of reals, which the solver does not order on its own. */
module Arithmetic {
  lemma {:induction false} MulMono(r: real, x: real, y: real)
    requires 0.0 <= r && x <= y
    ensures r * x <= r * y
  {
    assert 0.0 <= r * (y - x);
  }

  lemma {:induction false} MulStrict(r: real, x: real, y: real)
    requires 0.0 < r && x < y
    ensures r * x < r * y
  {
    assert 0.0 < r * (y - x);
  }
}
