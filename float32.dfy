/**
 * IEEE 754 binary32 values as the firmware stores them: a `float` field of a
 * packed record is its 32-bit pattern. `Value` reads a finite pattern as a
 * real number; `RoundF` is C99 `roundf` on patterns.
 */
module Float32 {
  import opened Words

  /** The bit pattern of a C `float`. */
  type Float = uint32

  const SIGN: nat := 0x8000_0000
  const HIDDEN: nat := 0x80_0000

  function SignBit(w: Float): nat { w / SIGN }
  function BiasedExponent(w: Float): nat { (w / HIDDEN) % 0x100 }
  function Fraction(w: Float): nat { w % HIDDEN }

  /** Neither an infinity nor a NaN. */
  predicate IsFinite(w: Float)
  {
    BiasedExponent(w) != 0xFF
  }

  /** |value| of a finite pattern: subnormals have no hidden bit and exponent -149. */
  function Magnitude(w: Float): real
  {
    var e, f := BiasedExponent(w), Fraction(w);
    if e == 0 then f as real / Pow2(149) as real
    else if e == 0xFF then 0.0
    else if e >= 150 then ((HIDDEN + f) * Pow2(e - 150)) as real
    else (HIDDEN + f) as real / Pow2(150 - e) as real
  }

  /** The real number a finite pattern denotes (both zeros denote 0). */
  function Value(w: Float): real
  {
    if SignBit(w) == 1 then -Magnitude(w) else Magnitude(w)
  }

  /** C99 rounding to the nearest integer, halfway cases away from zero. */
  function RoundHalfAway(x: real): (r: int)
    ensures -0.5 <= x - r as real <= 0.5
    ensures x - r as real == 0.5 ==> x < 0.0
    ensures x - r as real == -0.5 ==> x > 0.0
  {
    if x >= 0.0 then (x + 0.5).Floor else -((-x + 0.5).Floor)
  }

  lemma RoundHalfAwayOfInteger(n: int)
    ensures RoundHalfAway(n as real) == n
  {
  }

  /** The pattern of the integer n, |n| <= 2^23, with the requested sign bit (roundf keeps the sign of a zero). */
  function FromInteger(negative: bool, n: nat): (w: Float)
    requires n <= HIDDEN
    ensures IsFinite(w) && SignBit(w) == (if negative then 1 else 0)
    ensures Value(w) == if negative then -(n as real) else n as real
  {
    var s := if negative then 1 else 0;
    if n == 0 then
      ZeroPattern(s);
      SignedValue(s * SIGN, negative, 0);
      s * SIGN
    else
      var w := NormalPattern(s, n);
      SignedValue(w, negative, n);
      w
  }

  /** The normal pattern of 1 <= n <= 2^23: exponent log2 n, the bits of n below its leading one as the fraction. */
  function NormalPattern(s: nat, n: nat): (w: Float)
    requires s < 2 && 1 <= n <= HIDDEN
    ensures IsFinite(w) && SignBit(w) == s && Magnitude(w) == n as real
  {
    EncodedFields(s, n);
    Assemble(s, Log2(n) + 127, Mantissa(n))
  }

  /** The fraction field of 1 <= n <= 2^23: its bits below the leading one, moved to the top of 23 bits. */
  function Mantissa(n: nat): nat
    requires 1 <= n <= HIDDEN
  {
    ExponentBound(n);
    var e := Log2(n);
    var below: nat := n - Pow2(e);
    var shift: nat := Pow2(23 - e);
    ProductOfNaturals(below, shift);
    below * shift
  }

  lemma ProductOfNaturals(a: nat, b: nat)
    ensures a * b >= 0
  {
  }

  lemma SignedValue(w: Float, negative: bool, n: nat)
    requires SignBit(w) == (if negative then 1 else 0) && Magnitude(w) == n as real
    ensures Value(w) == if negative then -(n as real) else n as real
  {
  }

  lemma ZeroPattern(s: nat)
    requires s < 2
    ensures 0 <= s * SIGN < 0x1_0000_0000 && IsFinite(s * SIGN) && SignBit(s * SIGN) == s && Magnitude(s * SIGN) == 0.0
  {
    FieldsOf(s, 0, 0);
    assert Assemble(s, 0, 0) == s * SIGN;
  }

  lemma ExponentBound(n: nat)
    requires 1 <= n <= HIDDEN
    ensures Log2(n) <= 23
  {
    if Log2(n) > 23 {
      Pow2Monotone(24, Log2(n));
      Pow23();
    }
  }

  /** The fields chosen for n decode to n. */
  lemma EncodedFields(s: nat, n: nat)
    requires s < 2 && 1 <= n <= HIDDEN
    ensures var w := Assemble(s, Log2(n) + 127, Mantissa(n));
      && 0 <= w < 0x1_0000_0000 && IsFinite(w) && SignBit(w) == s && Magnitude(w) == n as real
  {
    ExponentBound(n);
    var e, f := Log2(n), Mantissa(n);
    assert Pow2(e) <= n && f == (n - Pow2(e)) * Pow2(23 - e);
    MantissaBelow(n, e, f);
    FieldsOf(s, e + 127, f);
    EncodedValue(n, e, f);
    MagnitudeOfNormal(Assemble(s, e + 127, f), e + 127, f);
  }

  lemma MantissaBelow(n: nat, e: nat, f: nat)
    requires e <= 23 && Pow2(e) <= n < Pow2(e + 1) && f == (n - Pow2(e)) * Pow2(23 - e)
    ensures f < HIDDEN
  {
    var p, q := Pow2(e), Pow2(23 - e);
    assert p * q == HIDDEN by { Pow2Add(e, 23 - e); Pow23(); }
    assert Pow2(e + 1) == 2 * p;
    ProductBelow(n - p, p, q);
  }

  lemma MagnitudeOfNormal(w: Float, e: nat, f: nat)
    requires BiasedExponent(w) == e && Fraction(w) == f && 0 < e < 0xFF
    ensures e >= 150 ==> Magnitude(w) == ((HIDDEN + f) * Pow2(e - 150)) as real
    ensures e < 150 ==> Magnitude(w) == (HIDDEN + f) as real / Pow2(150 - e) as real
  {
  }

  lemma Pow23()
    ensures Pow2(23) == HIDDEN
  {
    assert Pow2(8) == 0x100;
    Pow2Add(8, 8);
    Pow2Add(16, 7);
    assert Pow2(7) == 0x80;
  }

  lemma ProductBelow(a: nat, b: nat, c: nat)
    requires a < b
    ensures a * c <= (b - 1) * c && (b - 1) * c + c == b * c
  {
  }

  /** The pattern with sign bit s, biased exponent e and fraction f. */
  function Assemble(s: nat, e: nat, f: nat): int
  {
    s * SIGN + e * HIDDEN + f
  }

  /** Splitting a pattern assembled from its three fields gives the fields back. */
  lemma FieldsOf(s: nat, e: nat, f: nat)
    requires s < 2 && e < 0x100 && f < HIDDEN
    ensures var w := Assemble(s, e, f);
      w < 0x1_0000_0000 && SignBit(w) == s && BiasedExponent(w) == e && Fraction(w) == f
  {
    var w := Assemble(s, e, f);
    assert w / HIDDEN == s * 0x100 + e;
  }

  /** (2^23 + f) scaled by 2^(e-23) is n when f = (n - 2^e) 2^(23-e). */
  lemma EncodedValue(n: nat, e: nat, f: nat)
    requires e <= 23 && Pow2(e) <= n && f == (n - Pow2(e)) * Pow2(23 - e)
    ensures e + 127 >= 150 ==> ((HIDDEN + f) * Pow2(e + 127 - 150)) as real == n as real
    ensures e + 127 < 150 ==> (HIDDEN + f) as real / Pow2(150 - (e + 127)) as real == n as real
  {
    var q := Pow2(23 - e);
    ScaledMantissa(n, e, f);
    if e == 23 {
      assert q == Pow2(0) == 1;
      MulOne(n, q);
      assert (HIDDEN + f) * Pow2(e + 127 - 150) == n;
    } else {
      assert 150 - (e + 127) == 23 - e;
      RealQuotient(n, q);
    }
  }

  lemma MulOne(n: int, q: int)
    requires q == 1
    ensures n * q == n
  {
  }

  lemma ScaledMantissa(n: nat, e: nat, f: nat)
    requires e <= 23 && Pow2(e) <= n && f == (n - Pow2(e)) * Pow2(23 - e)
    ensures HIDDEN + f == n * Pow2(23 - e)
  {
    var p, q := Pow2(e), Pow2(23 - e);
    assert HIDDEN == p * q by { Pow23(); Pow2Add(e, 23 - e); }
    MulSubDistributes(n, p, q);
  }

  lemma MulSubDistributes(n: int, p: int, q: int)
    ensures p * q + (n - p) * q == n * q
  {
  }

  lemma RealQuotient(n: nat, q: nat)
    requires q >= 1
    ensures (n * q) as real / q as real == n as real
  {
    assert (n * q) as real == n as real * q as real;
  }

  /** Below exponent 150 a finite pattern is smaller than 2^23 in magnitude. */
  lemma SmallMagnitude(w: Float)
    requires IsFinite(w) && BiasedExponent(w) < 150
    ensures 0.0 <= Magnitude(w) < HIDDEN as real
  {
    var e, f := BiasedExponent(w), Fraction(w);
    if e == 0 {
      Pow2Monotone(0, 149);
      assert Pow2(0) == 1;
      ScaledBelow(f, Pow2(149), 1);
    } else {
      Pow2Monotone(1, 150 - e);
      assert Pow2(1) == 2;
      ScaledBelow(HIDDEN + f, Pow2(150 - e), 2);
    }
  }

  /** a < k 2^23 and p >= k >= 1 give a / p < 2^23. */
  lemma ScaledBelow(a: nat, p: nat, k: nat)
    requires 1 <= k <= p && a < k * HIDDEN
    ensures 0.0 <= a as real / p as real < HIDDEN as real
  {
    assert (k * HIDDEN) as real <= (p * HIDDEN) as real;
    assert (p * HIDDEN) as real == p as real * HIDDEN as real;
    DivBelow(a as real, p as real, HIDDEN as real);
  }

  lemma DivBelow(a: real, p: real, b: real)
    requires p > 0.0 && 0.0 <= a < p * b
    ensures 0.0 <= a / p < b
  {
  }

  /** C99 roundf: finite patterns below 2^23 are rounded half away from zero; larger ones, infinities and NaNs are returned unchanged. */
  function RoundF(w: Float): (r: Float)
    ensures IsFinite(w) ==> IsFinite(r) && Value(r) == RoundHalfAway(Value(w)) as real
    ensures !IsFinite(w) ==> r == w
  {
    if !IsFinite(w) then w
    else if BiasedExponent(w) >= 150 then
      IntegralValue(w);
      w
    else
      SmallMagnitude(w);
      var n := RoundHalfAway(Magnitude(w));
      FromInteger(SignBit(w) == 1, n)
  }

  /** A finite pattern with exponent at least 150 denotes an integer, which rounding keeps. */
  lemma IntegralValue(w: Float)
    requires IsFinite(w) && BiasedExponent(w) >= 150
    ensures RoundHalfAway(Value(w)) as real == Value(w)
  {
    var m := (HIDDEN + Fraction(w)) * Pow2(BiasedExponent(w) - 150);
    assert Magnitude(w) == m as real;
    if SignBit(w) == 1 {
      RoundHalfAwayOfInteger(-m);
    } else {
      RoundHalfAwayOfInteger(m);
    }
  }

  /** The integer value of a finite pattern after roundf fits int32_t: the cast is defined. */
  predicate CastsToInt32(w: Float)
  {
    IsFinite(w) && -0x8000_0000 <= RoundHalfAway(Value(w)) < 0x8000_0000
  }

  /** (int32_t)roundf(w). */
  function RoundToInt32(w: Float): (r: int32)
    requires CastsToInt32(w)
    ensures r as real == Value(RoundF(w))
  {
    RoundHalfAway(Value(w))
  }
}
