/** Order and multiplication of real numbers. */
module Arithmetic {

  lemma MultiplyBoth(x: real, y: real, p: real)
    requires p > 0.0 && x <= y
    ensures x * p <= y * p
  {
  }

  lemma DivideBoth(x: real, y: real, p: real)
    requires p > 0.0
    ensures x <= y <==> x / p <= y / p
    ensures x < y <==> x / p < y / p
  {
    var a, b := x / p, y / p;
    assert x == a * p && y == b * p;
    if a <= b { MultiplyBoth(a, b, p); } else { MultiplyBoth(b, a, p); }
    if b <= a { MultiplyBoth(b, a, p); }
  }

  /** Dividing by more gives less. */
  lemma DivideByMore(b: real, x: real, y: real)
    requires b >= 0.0 && 0.0 < x <= y
    ensures b / x >= b / y
  {
    var q := b / y;
    assert q * y == b;
    assert q >= 0.0;
    assert q * x <= q * y;
    assert b / x >= (q * x) / x == q;
  }
}
