/**
 Integer arithmetic as the firmware's MicroPython expressions evaluate it.
 The source writes `int(a / b)`: a true division followed by truncation
 toward zero. Dafny's `/` on `int` is Euclidean, which rounds the other way
 for a negative dividend, so the truncating quotient is spelled out here.
 */
module PyInt {

  /** Absolute value. */
  function Abs(x: int): nat
  {
    if x < 0 then -x else x
  }

  /** `int(a / b)` for a positive divisor: the exact quotient truncated
      toward zero. Its magnitude is the number of whole `b`s in `|a|`, and it
      has the sign of `a`. */
  function TruncDiv(a: int, b: int): (q: int)
    requires b > 0
    ensures Abs(q) * b <= Abs(a) < Abs(q) * b + b
    ensures a >= 0 ==> q >= 0
    ensures a <= 0 ==> q <= 0
  {
    if a >= 0 then a / b else -((-a) / b)
  }

  /** Multiplying by a non-negative factor keeps the order. */
  lemma MulMonotone(x: int, y: int, b: int)
    requires x <= y && b >= 0
    ensures x * b <= y * b
  {
    assert y * b - x * b == (y - x) * b;
  }

  /** A truncated quotient never decreases as the dividend grows. */
  lemma TruncDivMonotone(a1: int, a2: int, b: int)
    requires b > 0 && a1 <= a2
    ensures TruncDiv(a1, b) <= TruncDiv(a2, b)
  {
    var q1, q2 := TruncDiv(a1, b), TruncDiv(a2, b);
    if q1 > q2 {
      if a1 >= 0 {
        // q1 * b <= a1 <= a2 < (q2 + 1) * b <= q1 * b
        MulMonotone(q2 + 1, q1, b);
        assert false;
      } else if a2 <= 0 {
        // |q2| >= |q1| + 1, yet |q2| * b <= |a2| <= |a1| < (|q1| + 1) * b
        MulMonotone(Abs(q1) + 1, Abs(q2), b);
        assert false;
      }
    }
  }

  /** For a non-negative dividend the truncated quotient is Dafny's `/`. */
  lemma TruncDivNonNegative(a: int, b: int)
    requires a >= 0 && b > 0
    ensures TruncDiv(a, b) == a / b
  {
  }

  /** For a negative dividend that is not a multiple of the divisor,
      truncation and Dafny's `/` differ by one. */
  lemma TruncDivNegative(a: int, b: int)
    requires a < 0 && b > 0 && a % b != 0
    ensures TruncDiv(a, b) == a / b + 1
  {
    var q := TruncDiv(a, b);
    var e := a / b;
    assert e * b + a % b == a;
    assert 0 < a % b < b;
    // -q * b <= -a < -q * b + b, i.e. q * b - b < a <= q * b; the same
    // interval as e * b < a < e * b + b, so q - 1 == e.
    assert q * b - b < a <= q * b;
    if q - 1 < e {
      MulMonotone(q, e, b);
      assert false;
    } else if q - 1 > e {
      MulMonotone(e + 1, q - 1, b);
      assert false;
    }
  }
}
