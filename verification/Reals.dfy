/** Small facts about exact reals. */
module Reals {

  function Abs(x: real): real { if x < 0.0 then -x else x }

  function Min(a: real, b: real): real { if a < b then a else b }

  function Max(a: real, b: real): real { if a > b then a else b }

  lemma MulMono(a: real, b: real, c: real)
    requires a <= b && c >= 0.0
    ensures a * c <= b * c
  {
  }

  lemma MulStrict(a: real, b: real, c: real)
    requires a < b && c > 0.0
    ensures a * c < b * c
  {
  }

  lemma AbsProduct(a: real, b: real)
    ensures Abs(a * b) == Abs(a) * Abs(b)
  {
  }

  lemma QuotientMono(a: real, b: real, l: real)
    requires a <= b && l > 0.0
    ensures a / l <= b / l
  {
    var x, y := a / l, b / l;
    assert x * l == a && y * l == b;
    if y < x {
      MulStrict(y, x, l);
    }
  }

  lemma Between(a: real, b: real, u: real)
    requires 0.0 <= u <= 1.0
    ensures Min(a, b) <= a + u * (b - a) <= Max(a, b)
  {
    Part(u, b - a);
  }

  lemma Part(u: real, d: real)
    requires 0.0 <= u <= 1.0
    ensures Min(0.0, d) <= u * d <= Max(0.0, d)
  {
    if d >= 0.0 {
      MulMono(u, 1.0, d);
    } else {
      assert u * -d == -(u * d);
      MulMono(u, 1.0, -d);
    }
  }
}
