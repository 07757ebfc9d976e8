/**
 Integer and real arithmetic the pitch mapper needs, stated the way the
 Rust code computes it: `/` and `%` on `i32` truncate toward zero (unlike
 Dafny's Euclidean operators), and `powi` raises to a possibly negative
 integer exponent.
 */
module Arith {

  function Abs(x: int): (r: nat)
    ensures r == x || r == -x
  {
    if x < 0 then -x else x
  }

  lemma AbsMul(x: int, y: int)
    ensures Abs(x * y) == Abs(x) * Abs(y)
  {
    if x < 0 && y >= 0 {
      assert x * y == -((-x) * y);
    } else if x < 0 && y < 0 {
      assert x * y == (-x) * (-y);
    } else if x >= 0 && y < 0 {
      assert x * y == -(x * (-y));
    }
  }

  /** Integer division rounding toward zero, as Rust's `/` on signed integers:
      the product `b * q` never overshoots `a`, falls short of it by less
      than `|b|`, and `q` carries the sign of `a / b`. */
  function TDiv(a: int, b: int): (q: int)
    requires b != 0
    ensures Abs(b * q) <= Abs(a) < Abs(b * q) + Abs(b)
    ensures (a >= 0) == (b > 0) ==> q >= 0
    ensures (a >= 0) != (b > 0) ==> q <= 0
  {
    var q0: int := Abs(a) / Abs(b);
    TDivMagnitude(a, b, q0);
    if (a < 0) == (b < 0) then q0 else -q0
  }

  /** The quotient's magnitude is the Euclidean quotient of the magnitudes. */
  lemma TDivMagnitude(a: int, b: int, q0: int)
    requires b != 0 && q0 == Abs(a) / Abs(b)
    ensures q0 >= 0
    ensures Abs(b * q0) <= Abs(a) < Abs(b * q0) + Abs(b)
    ensures Abs(b * -q0) <= Abs(a) < Abs(b * -q0) + Abs(b)
  {
    var A, B := Abs(a), Abs(b);
    assert A == B * q0 + A % B;
    AbsMul(b, q0);
    AbsMul(b, -q0);
  }

  /** Remainder of truncating division, as Rust's `%` on signed integers:
      smaller than the divisor in magnitude and never of the opposite sign
      to the dividend (so `-1 % 13` is `-1`, not `12`). */
  function TMod(a: int, b: int): (r: int)
    requires b != 0
    ensures Abs(r) < Abs(b)
    ensures a >= 0 ==> r >= 0
    ensures a <= 0 ==> r <= 0
    ensures b * TDiv(a, b) + r == a
  {
    a - b * TDiv(a, b)
  }

  /** Truncating division and remainder are the only pair that rebuilds the
      dividend with a remainder smaller than the divisor that follows the
      dividend's sign. */
  lemma TruncDivModUnique(a: int, b: int, q: int, r: int)
    requires b != 0
    ensures (a == b * q + r && Abs(r) < Abs(b) && (a >= 0 ==> r >= 0) && (a <= 0 ==> r <= 0))
        <==> (q == TDiv(a, b) && r == TMod(a, b))
  {
    if a == b * q + r && Abs(r) < Abs(b) && (a >= 0 ==> r >= 0) && (a <= 0 ==> r <= 0) {
      var q', r' := TDiv(a, b), TMod(a, b);
      assert b * q - b * q' == r' - r;
      assert b * q - b * q' == b * (q - q');
      assert Abs(r' - r) < Abs(b);
      if q != q' {
        NonZeroMultiple(b, q - q');
        assert false;
      }
    }
  }

  /** A non-zero multiple of `b` is at least `|b|` in magnitude. */
  lemma NonZeroMultiple(b: int, d: int)
    requires d != 0
    ensures Abs(b * d) >= Abs(b)
  {
    AbsMul(b, d);
    assert Abs(d) >= 1;
    assert Abs(b) * Abs(d) == Abs(b) + Abs(b) * (Abs(d) - 1);
  }

  /** On a non-negative dividend and positive divisor truncation and Dafny's
      Euclidean division agree; on a negative dividend they need not. */
  lemma TruncAgreesOnNonNegative(a: int, b: int)
    requires a >= 0 && b > 0
    ensures TDiv(a, b) == a / b && TMod(a, b) == a % b
  {
    TruncDivModUnique(a, b, a / b, a % b);
  }

  /** `x` raised to the natural power `n`. */
  function Pow(x: real, n: nat): (r: real)
    ensures x != 0.0 ==> r != 0.0
    ensures x > 0.0 ==> r > 0.0
  {
    if n == 0 then 1.0 else x * Pow(x, n - 1)
  }

  /** `x` raised to an integer power that may be negative, as `f32::powi`
      (computed exactly over the reals). */
  function IPow(x: real, e: int): (r: real)
    requires x != 0.0
    ensures r != 0.0
    ensures x > 0.0 ==> r > 0.0
  {
    if e >= 0 then Pow(x, e) else 1.0 / Pow(x, -e)
  }

  /** Raising the exponent by one multiplies by the base, on both sides of
      zero. */
  lemma IPowSucc(x: real, e: int)
    requires x != 0.0
    ensures IPow(x, e + 1) == x * IPow(x, e)
  {
    if e < -1 {
      var p := Pow(x, -e - 1);
      assert Pow(x, -e) == x * p;
      assert IPow(x, e + 1) == 1.0 / p;
      assert x * (1.0 / (x * p)) == 1.0 / p;
    } else if e == -1 {
      assert Pow(x, 1) == x;
    }
  }
}
