/** Small facts about products and quotients of reals. The solver does not
    find these on its own inside larger proofs, so each is stated once here,
    one product at a time. */
module RealArith {

  /** `Math.sqrt` is a parameter of the operations that call it; all they rely
      on is that the root of a non-negative number is non-negative. */
  ghost predicate SqrtNonNegative(sqrt: real -> real) {
    forall t :: t >= 0.0 ==> sqrt(t) >= 0.0
  }

  /** `Math.exp` is a parameter too; its values are positive. */
  ghost predicate ExpPositive(exp: real -> real) {
    forall t :: exp(t) > 0.0
  }

  function Abs(x: real): (r: real)
    ensures r >= 0.0 && (r == x || r == -x)
  {
    if x < 0.0 then -x else x
  }

  lemma MulNonNeg(a: real, b: real)
    requires a >= 0.0 && b >= 0.0
    ensures a * b >= 0.0
  {
  }

  lemma MulPositive(a: real, b: real)
    requires a > 0.0 && b > 0.0
    ensures a * b > 0.0
  {
  }

  lemma MulAtMost(a: real, t: real)
    requires a >= 0.0 && t <= 1.0
    ensures a * t <= a
  {
    MulNonNeg(a, 1.0 - t);
    assert a * (1.0 - t) == a - a * t;
  }

  /** A non-negative weight keeps an ordering. */
  lemma ScaleBetween(w: real, f: real, lo: real, hi: real)
    requires w >= 0.0 && lo <= f <= hi
    ensures w * lo <= w * f
    ensures w * f <= w * hi
  {
    MulNonNeg(w, f - lo);
    MulNonNeg(w, hi - f);
    assert w * (f - lo) == w * f - w * lo;
    assert w * (hi - f) == w * hi - w * f;
  }

  lemma SquareNonNeg(a: real)
    ensures a * a >= 0.0
  {
    if a < 0.0 {
      MulNonNeg(-a, -a);
    } else {
      MulNonNeg(a, a);
    }
  }

  lemma SquareInUnit(t: real)
    requires 0.0 < t <= 1.0
    ensures 0.0 < t * t <= 1.0
  {
    MulPositive(t, t);
    MulAtMost(t, t);
  }

  lemma QuotientBelowOne(a: real, b: real)
    requires 0.0 <= a < b
    ensures 0.0 <= a / b < 1.0
  {
    var q := a / b;
    assert q * b == a;
    if q >= 1.0 {
      MulNonNeg(q - 1.0, b);
      assert false;
    }
  }

  lemma NegMul(x: real, d: real)
    ensures (-x) * d == -(x * d)
  {
  }

  lemma ZeroTimes(x: real, d: real)
    requires x == 0.0
    ensures x * d == 0.0
  {
  }
}
