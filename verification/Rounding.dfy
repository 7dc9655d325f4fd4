/** Rounding to a number of decimals, ties to the even side, over exact numbers. A rounded number is a
    whole number of steps, a step being the unit of the last decimal. The lemmas say that the nearest
    number of steps is the only one, that rounding keeps order, sign and whole numbers, and how far
    it moves a number. They are about an arbitrary step, which keeps powers of ten out of the proofs;
    the callers put the unit of the last decimal in its place. Nothing here rounds as floats do: an
    exact tie is a tie, and a number that is no tie is none. */
module Rounding {
  import opened Arithmetic
  import opened Decimals

  function Abs(x: real): (r: real)
    ensures r >= 0.0
  {
    if x < 0.0 then -x else x
  }

  /** The nearest integer, the even one of two that are equally near. */
  function Nearest(x: real): int {
    var f := x.Floor;
    var rest := x - f as real;
    if rest < 0.5 || (rest == 0.5 && f % 2 == 0) then f else f + 1
  }

  lemma NearestIsNear(x: real)
    ensures Abs(Nearest(x) as real - x) <= 0.5
    ensures Abs(Nearest(x) as real - x) == 0.5 ==> Nearest(x) % 2 == 0
  {
    if x - x.Floor as real == 0.5 && x.Floor % 2 == 1 { assert (x.Floor + 1) % 2 == 0; }
  }

  /** Being nearest, with ties to the even side, determines the integer. */
  lemma NearestUnique(x: real, n: int)
    requires Abs(n as real - x) <= 0.5
    requires Abs(n as real - x) == 0.5 ==> n % 2 == 0
    ensures Nearest(x) == n
  {
    NearestIsNear(x);
    var m := Nearest(x);
    assert forall k: int :: k % 2 == 0 ==> (k + 1) % 2 != 0 && (k - 1) % 2 != 0;
  }

  lemma NearestNegated(x: real)
    ensures Nearest(-x) == -Nearest(x)
  {
    NearestIsNear(x);
    NearestUnique(-x, -Nearest(x));
  }

  lemma NearestMonotone(x: real, y: real)
    requires x <= y
    ensures Nearest(x) <= Nearest(y)
  {
    NearestIsNear(x);
    NearestIsNear(y);
  }

  lemma NearestInt(n: int)
    ensures Nearest(n as real) == n
  {
    NearestUnique(n as real, n);
  }

  /** `x` in steps of `1/p`, rounded to a whole number of them. */
  function Steps(x: real, p: real): int { Nearest(x * p) }

  function RoundedTo(x: real, p: real): real
    requires p > 0.0
  {
    Steps(x, p) as real / p
  }

  function Unit(d: nat): (p: real)
    ensures p >= 1.0
  {
    Pow10(d) as real
  }

  /** `round(x, d)`, and the same in units of the last decimal. */
  function Rounded(x: real, d: nat): real { RoundedTo(x, Unit(d)) }

  function Scaled(x: real, d: nat): int { Steps(x, Unit(d)) }

  lemma ScaleMonotone(x: real, y: real, p: real)
    requires p > 0.0 && x <= y
    ensures Nearest(x * p) <= Nearest(y * p)
  {
    MultiplyBoth(x, y, p);
    NearestMonotone(x * p, y * p);
  }

  lemma ScaleBack(x: real, s: real, p: real)
    requires p > 0.0 && Abs(s - x * p) <= 0.5
    ensures Abs(s / p - x) <= 0.5 / p
  {
    var q := s / p;
    assert s == q * p;
    assert s - x * p == (q - x) * p;
    DivideBoth(-0.5, s - x * p, p);
    DivideBoth(s - x * p, 0.5, p);
    assert (s - x * p) / p == q - x;
    assert -0.5 / p == -(0.5 / p);
  }

  lemma NegatedProduct(x: real, p: real)
    ensures (-x) * p == -(x * p)
  {
  }

  lemma NegatedQuotient(x: real, p: real)
    requires p > 0.0
    ensures (-x) / p == -(x / p)
  {
  }

  lemma WholeProduct(n: int, p: int)
    requires p > 0
    ensures n as real * p as real == (n * p) as real && (n * p) as real / p as real == n as real
  {
    var x, y := n as real, p as real;
    assert x * y == (n * p) as real;
    assert (x * y) / y == x;
  }

  /** Rounding keeps the order. */
  lemma RoundedMonotone(x: real, y: real, p: real)
    requires x <= y && p > 0.0
    ensures Steps(x, p) <= Steps(y, p) && RoundedTo(x, p) <= RoundedTo(y, p)
  {
    ScaleMonotone(x, y, p);
    DivideBoth(Steps(x, p) as real, Steps(y, p) as real, p);
  }

  /** Rounding moves a number by at most half a step. */
  lemma RoundedIsNear(x: real, p: real)
    requires p > 0.0
    ensures Abs(RoundedTo(x, p) - x) <= 0.5 / p
  {
    NearestIsNear(x * p);
    ScaleBack(x, Steps(x, p) as real, p);
  }

  lemma RoundedNegated(x: real, p: real)
    requires p > 0.0
    ensures RoundedTo(-x, p) == -RoundedTo(x, p)
  {
    NegatedProduct(x, p);
    NearestNegated(x * p);
    NegatedQuotient(Steps(x, p) as real, p);
  }

  /** A whole number is rounded to itself. */
  lemma RoundedInt(n: int, d: nat)
    ensures Scaled(n as real, d) == n * Pow10(d) && Rounded(n as real, d) == n as real
  {
    WholeProduct(n, Pow10(d));
    NearestInt(n * Pow10(d));
  }

  /** Rounding the magnitude is the magnitude of the rounded number. */
  lemma RoundedAbs(x: real, d: nat)
    ensures Abs(Rounded(x, d)) == Rounded(Abs(x), d)
    ensures Scaled(Abs(x), d) >= 0
  {
    RoundedNegated(x, Unit(d));
    RoundedInt(0, d);
    RoundedMonotone(0.0, Abs(x), Unit(d));
  }
}
