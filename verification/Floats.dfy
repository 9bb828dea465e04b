/** The part of f64 the backoff uses: exact arithmetic in the finite range, an
    overflow to an infinity past the largest finite value, and NaN. Rounding
    inside the finite range is not modelled. */
module Floats {

  datatype Float = NaN | NegInf | Finite(value: real) | Inf

  function Pow(base: real, exponent: nat): real {
    if exponent == 0 then 1.0 else base * Pow(base, exponent - 1)
  }

  /** (2^53 - 1) * 2^971, the largest finite f64. */
  const F64_MAX: real := 9007199254740991.0 * Pow(2.0, 971)

  function FromReal(x: real): Float {
    if x > F64_MAX then Inf else if x < -F64_MAX then NegInf else Finite(x)
  }

  /** `f64::powi` for the exponents the backoff passes. */
  function PowI(base: Float, exponent: nat): Float {
    if exponent == 0 then Finite(1.0) else
    match base
    case NaN => NaN
    case Inf => Inf
    case NegInf => if exponent % 2 == 0 then Inf else NegInf
    case Finite(v) => FromReal(Pow(v, exponent))
  }

  /** The product of a finite non-negative value and any float. */
  function Scale(x: real, y: Float): Float
    requires 0.0 <= x
  {
    match y
    case NaN => NaN
    case Inf => if x == 0.0 then NaN else Inf
    case NegInf => if x == 0.0 then NaN else NegInf
    case Finite(v) => FromReal(x * v)
  }

  /** `self.max(1.0)`: f64::max returns the other operand for a NaN. */
  function MaxOne(x: Float): Float {
    match x
    case NaN => Finite(1.0)
    case NegInf => Finite(1.0)
    case Inf => Inf
    case Finite(v) => if v > 1.0 then x else Finite(1.0)
  }

  /** The order of floats that are not NaN. */
  predicate AtMost(x: Float, y: Float) {
    x == NegInf || y == Inf || (x.Finite? && y.Finite? && x.value <= y.value)
  }

  // ----- powers -----

  lemma {:induction false} PowAdd(b: real, m: nat, n: nat)
    ensures Pow(b, m + n) == Pow(b, m) * Pow(b, n)
  {
    if m == 0 {
    } else {
      PowAdd(b, m - 1, n);
      var x, y := Pow(b, m - 1), Pow(b, n);
      assert Pow(b, m + n) == b * (x * y);
      assert b * (x * y) == (b * x) * y;
    }
  }

  lemma {:induction false} PowGrows(b: real, m: nat, n: nat)
    requires b >= 1.0 && m <= n
    ensures 1.0 <= Pow(b, m) <= Pow(b, n)
    decreases n
  {
    if n == 0 {
    } else {
      PowGrows(b, if m < n then m else m - 1, n - 1);
      var p := Pow(b, n - 1);
      assert b * p >= p;
    }
  }

  /** Powers of a base between -1 and 1 never leave that range. */
  lemma {:induction false} PowStaysSmall(b: real, n: nat)
    requires -1.0 <= b <= 1.0
    ensures -1.0 <= Pow(b, n) <= 1.0
  {
    if n == 0 {
    } else {
      PowStaysSmall(b, n - 1);
      ProductStaysSmall(b, Pow(b, n - 1));
    }
  }

  lemma {:induction false} ProductStaysSmall(x: real, y: real)
    requires -1.0 <= x <= 1.0 && -1.0 <= y <= 1.0
    ensures -1.0 <= x * y <= 1.0
  {
    if y >= 0.0 {
      assert x * y <= 1.0 * y;
      assert -1.0 * y <= x * y;
    } else {
      assert x * y <= -1.0 * y;
      assert 1.0 * y <= x * y;
    }
  }

  /** Bernoulli's inequality. */
  lemma {:induction false} Bernoulli(b: real, n: nat)
    requires b >= 1.0
    ensures Pow(b, n) >= 1.0 + n as real * (b - 1.0)
  {
    if n == 0 {
    } else {
      Bernoulli(b, n - 1);
      PowGrows(b, 0, n - 1);
      var p := Pow(b, n - 1);
      assert (b - 1.0) * p >= (b - 1.0) * 1.0;
      assert b * p == p + (b - 1.0) * p;
    }
  }

  /** The largest finite float is far above the nanoseconds of any Duration. */
  lemma {:induction false} MaxIsLarge()
    ensures F64_MAX >= 18446744073709551616.0 * 1000000000.0
  {
    assert Pow(2.0, 4) == 16.0;
    PowAdd(2.0, 4, 4);
    PowAdd(2.0, 8, 8);
    PowAdd(2.0, 16, 16);
    PowAdd(2.0, 32, 32);
    PowGrows(2.0, 64, 971);
  }

  /** Even powers are powers of the square. */
  lemma {:induction false} EvenPower(b: real, k: nat)
    ensures Pow(b, 2 * k) == Pow(b * b, k)
  {
    if k == 0 {
    } else {
      EvenPower(b, k - 1);
      assert Pow(b, 2 * k) == b * (b * Pow(b, 2 * (k - 1)));
    }
  }

  /** Below -1 odd powers are negative and even ones grow. */
  lemma {:induction false} PowersBelowMinusOne(b: real, k: nat, k': nat)
    requires b < -1.0 && k <= k'
    ensures 1.0 <= Pow(b, 2 * k) <= Pow(b, 2 * k')
    ensures Pow(b, 2 * k + 1) < 0.0
  {
    EvenPower(b, k);
    EvenPower(b, k');
    assert b * b >= 1.0;
    PowGrows(b * b, k, k');
    var p := Pow(b, 2 * k);
    assert Pow(b, 2 * k + 1) == b * p;
  }

  /** 2^1024 is past the largest finite float. */
  lemma {:induction false} OverflowAt1024()
    ensures Pow(2.0, 1024) > F64_MAX
  {
    assert Pow(2.0, 1) == 2.0 && Pow(2.0, 4) == 16.0;
    PowAdd(2.0, 4, 4);
    PowAdd(2.0, 8, 8);
    PowAdd(2.0, 16, 16);
    PowAdd(2.0, 32, 16);
    PowAdd(2.0, 48, 4);
    PowAdd(2.0, 52, 1);
    PowAdd(2.0, 53, 971);
    PowGrows(2.0, 0, 971);
  }
}
