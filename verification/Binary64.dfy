/**
 Python's `float` as IEEE 754-2019 binary64: the interchange layout of section 3.4 and the
 roundTiesToEven attribute of section 4.3.1, which is how Python converts an `int` or a
 `Fraction` to `float`.
 */
module Binary64 {
  import opened Words
  import opened Wrappers

  const TWO_TO_THE_52: int := 0x10_0000_0000_0000
  const INFINITY: int := 0x7FF0_0000_0000_0000     // the pattern of positive infinity
  const TWO_TO_THE_53: int := 0x20_0000_0000_0000

  /** A double. `Finite` carries an integral significand and the exponent of its unit. */
  datatype Double = NaN | Infinite(neg: bool) | Finite(neg: bool, sig: nat, exp: int)

  /** The one representation of each magnitude with no upper exponent limit: full precision
      unless the exponent is the least one. */
  predicate Normalized(sig: nat, exp: int) {
    && sig < TWO_TO_THE_53
    && -1074 <= exp
    && (sig >= TWO_TO_THE_52 || exp <= -1074)
  }

  type Float = d: Double | d.Finite? ==> Normalized(d.sig, d.exp) && d.exp <= 971
    witness NaN

  // ---------------------------------------------------------------- products and powers of two

  /** A product behind a name, so that the proofs below use the laws they name and no others. */
  function Times(x: real, y: real): real {
    x * y
  }

  lemma ScaleLess(a: real, b: real, p: real)
    requires a < b && p > 0.0
    ensures Times(a, p) < Times(b, p)
  {
  }

  lemma ScaleAtMost(a: real, b: real, p: real)
    requires a <= b && p > 0.0
    ensures Times(a, p) <= Times(b, p)
  {
  }

  function Abs(x: real): real {
    if x < 0.0 then -x else x
  }

  lemma DistanceScales(y: real, n: real, p: real)
    requires p > 0.0
    ensures Abs(Times(y, p) - Times(n, p)) == Times(Abs(y - n), p)
  {
    assert Times(y, p) - Times(n, p) == (y - n) * p;
  }

  lemma TimesQuotient(x: real, p: real)
    requires p > 0.0
    ensures Times(x / p, p) == x
  {
  }

  lemma QuotientTimes(k: real, p: real)
    requires p > 0.0
    ensures Times(k, p) / p == k
  {
  }

  lemma TimesAssociates(x: real, y: real, z: real)
    ensures Times(Times(x, y), z) == Times(x, Times(y, z))
  {
  }

  lemma TimesDouble(x: real, y: real)
    ensures Times(x, 2.0 * y) == 2.0 * Times(x, y)
    ensures Times(2.0 * x, y) == 2.0 * Times(x, y)
  {
  }

  lemma TimesOfIntegers(m: int, n: int)
    ensures Times(m as real, n as real) == (m * n) as real
  {
  }

  lemma TimesOne(x: real)
    ensures Times(x, 1.0) == x
    ensures Times(1.0, x) == x
  {
  }

  function Pow2(e: int): (p: real)
    ensures p > 0.0
    decreases if e < 0 then -e else e
  {
    if e == 0 then 1.0 else if e > 0 then 2.0 * Pow2(e - 1) else 0.5 * Pow2(e + 1)
  }

  lemma Pow2Next(e: int)
    ensures Pow2(e + 1) == 2.0 * Pow2(e)
  {
  }

  lemma {:induction false} Pow2Sum(a: int, b: int)
    ensures Pow2(a + b) == Times(Pow2(a), Pow2(b))
    decreases if b < 0 then -b else b
  {
    if b == 0 {
      TimesOne(Pow2(a));
    } else if b > 0 {
      Pow2Sum(a, b - 1);
      Pow2Next(a + b - 1);
      Pow2Next(b - 1);
      TimesDouble(Pow2(a), Pow2(b - 1));
    } else {
      Pow2Sum(a, b + 1);
      Pow2Next(a + b);
      Pow2Next(b);
      TimesDouble(Pow2(a), Pow2(b));
    }
  }

  lemma {:induction false} Pow2Monotone(a: int, b: int)
    requires a <= b
    ensures Pow2(a) <= Pow2(b)
    decreases b - a
  {
    if a < b {
      Pow2Monotone(a, b - 1);
      Pow2Next(b - 1);
    }
  }

  lemma DoubleOfInteger(x: real)
    requires x.Floor as real == x
    ensures (2.0 * x).Floor == 2 * x.Floor && (2 * x.Floor) as real == 2.0 * x
  {
    assert 2.0 * x == (2 * x.Floor) as real;
  }

  lemma {:induction false} Pow2IsInteger(n: nat)
    ensures Pow2(n).Floor as real == Pow2(n)
    ensures n > 0 ==> Pow2(n).Floor % 2 == 0
    ensures Pow2(n) > n as real
  {
    if n > 0 {
      Pow2IsInteger(n - 1);
      Pow2Next(n - 1);
      DoubleOfInteger(Pow2(n - 1));
    }
  }

  /** The first powers, far enough to reach the precision of the format. */
  lemma Pow2Literals()
    ensures Pow2(1) == 2.0
    ensures Pow2(52) == TWO_TO_THE_52 as real
    ensures Pow2(53) == TWO_TO_THE_53 as real
  {
    assert Pow2(13) == 8192.0;
    Pow2Sum(13, 13);
    Pow2Sum(26, 26);
    Pow2Next(52);
  }

  /** Shifting an exponent by the precision is multiplying by 2^52 or 2^53. */
  lemma Pow2Precision(e: int)
    ensures Pow2(52 + e) == Times(TWO_TO_THE_52 as real, Pow2(e))
    ensures Pow2(53 + e) == Times(TWO_TO_THE_53 as real, Pow2(e))
  {
    Pow2Literals();
    Pow2Sum(52, e);
    Pow2Sum(53, e);
  }

  // ---------------------------------------------------------------- values

  function Magnitude(sig: nat, exp: int): (m: real)
    ensures m >= 0.0
  {
    ScaleAtMost(0.0, sig as real, Pow2(exp));
    Times(sig as real, Pow2(exp))
  }

  /** The real number a finite double denotes. */
  function Value(d: Float): real
    requires d.Finite?
  {
    if d.neg then -Magnitude(d.sig, d.exp) else Magnitude(d.sig, d.exp)
  }

  /** A normalized magnitude with a smaller exponent lies below every one that needs a larger. */
  lemma SmallerExponentIsSmaller(sig: nat, exp: int, e: int)
    requires Normalized(sig, exp) && exp < e
    ensures Magnitude(sig, exp) < Pow2(52 + e)
  {
    Pow2Precision(exp);
    ScaleLess(sig as real, TWO_TO_THE_53 as real, Pow2(exp));
    Pow2Monotone(53 + exp, 52 + e);
  }

  lemma FullPrecisionIsLarge(sig: nat, exp: int)
    requires sig >= TWO_TO_THE_52
    ensures Magnitude(sig, exp) >= Pow2(52 + exp)
  {
    Pow2Precision(exp);
    ScaleAtMost(TWO_TO_THE_52 as real, sig as real, Pow2(exp));
  }

  /** Every magnitude has one normalized representation. */
  lemma MagnitudeIsInjective(s1: nat, e1: int, s2: nat, e2: int)
    requires Normalized(s1, e1) && Normalized(s2, e2)
    requires Magnitude(s1, e1) == Magnitude(s2, e2)
    ensures s1 == s2 && e1 == e2
  {
    if e1 < e2 {
      SmallerExponentIsSmaller(s1, e1, e2);
      FullPrecisionIsLarge(s2, e2);
    } else if e2 < e1 {
      SmallerExponentIsSmaller(s2, e2, e1);
      FullPrecisionIsLarge(s1, e1);
    } else if s1 < s2 {
      ScaleLess(s1 as real, s2 as real, Pow2(e1));
    } else if s2 < s1 {
      ScaleLess(s2 as real, s1 as real, Pow2(e1));
    }
  }

  // ---------------------------------------------------------------- roundTiesToEven

  /** The nearest integer, ties to even. */
  function RoundHalfEven(y: real): int {
    var f := y.Floor;
    var r := y - f as real;
    if r < 0.5 || (r == 0.5 && f % 2 == 0) then f else f + 1
  }

  lemma RoundHalfEvenIsNearest(y: real, n: int)
    ensures Abs(y - RoundHalfEven(y) as real) <= Abs(y - n as real)
    ensures Abs(y - RoundHalfEven(y) as real) == Abs(y - n as real) && n != RoundHalfEven(y)
            ==> RoundHalfEven(y) % 2 == 0
  {
    var f := y.Floor;
    assert f as real <= y < (f + 1) as real;
    if n < f {
      assert n as real <= (f - 1) as real;
    } else if n > f + 1 {
      assert n as real >= (f + 2) as real;
    }
  }

  /** The exponent at which `x` has at most 53 significant bits. */
  function UnitExponent(x: real, e: int): (r: int)
    requires x >= 0.0
    ensures r >= e
    ensures x < Pow2(53 + r)
    ensures r > e ==> Pow2(52 + r) <= x
    decreases x.Floor + 1 - e
  {
    if x < Pow2(53 + e) then e
    else
      assert x.Floor >= e by { if e >= 0 { Pow2IsInteger(53 + e); } }
      UnitExponent(x, e + 1)
  }

  lemma RoundedSignificand(x: real, e: int)
    requires x >= 0.0 && e == UnitExponent(x, -1074)
    ensures 0 <= RoundHalfEven(x / Pow2(e)) <= TWO_TO_THE_53
    ensures e > -1074 ==> RoundHalfEven(x / Pow2(e)) >= TWO_TO_THE_52
  {
    var y := x / Pow2(e);
    TimesQuotient(x, Pow2(e));
    Pow2Precision(e);
    if y >= TWO_TO_THE_53 as real {
      ScaleAtMost(TWO_TO_THE_53 as real, y, Pow2(e));
    }
    if y < 0.0 {
      ScaleLess(y, 0.0, Pow2(e));
    }
    if y < TWO_TO_THE_52 as real {
      ScaleLess(y, TWO_TO_THE_52 as real, Pow2(e));
    }
  }

  /** Round a non-negative real to 53 bits; the exponent is unbounded above (section 4.3). */
  function RoundMagnitude(x: real): (r: (nat, int))
    requires x >= 0.0
    ensures Normalized(r.0, r.1)
  {
    var e := UnitExponent(x, -1074);
    RoundedSignificand(x, e);
    var m := RoundHalfEven(x / Pow2(e));
    if m == TWO_TO_THE_53 then (TWO_TO_THE_52, e + 1) else (m, e)
  }

  /** The rounded magnitude is a multiple of the unit it was rounded at. */
  lemma RoundMagnitudeValue(x: real)
    requires x >= 0.0
    ensures var (m, e) := RoundMagnitude(x);
            var u := UnitExponent(x, -1074);
            Magnitude(m, e) == Times(RoundHalfEven(x / Pow2(u)) as real, Pow2(u))
  {
    var u := UnitExponent(x, -1074);
    Pow2Next(u);
    TimesDouble(TWO_TO_THE_52 as real, Pow2(u));
  }

  lemma EvenFactor(a: int, b: int)
    requires b % 2 == 0
    ensures (a * b) % 2 == 0
  {
    assert a * b == 2 * (a * (b / 2));
  }

  /** A magnitude whose exponent is at least `u` is an integral multiple of the unit 2^u. */
  lemma MultipleOfUnit(sig: nat, exp: int, u: int) returns (k: nat)
    requires exp >= u
    ensures Magnitude(sig, exp) == Times(k as real, Pow2(u))
    ensures exp > u ==> k % 2 == 0
    ensures exp == u ==> k == sig
  {
    Pow2IsInteger(exp - u);
    var p := Pow2(exp - u).Floor;
    k := sig * p;
    TimesOfIntegers(sig, p);
    Pow2Sum(exp - u, u);
    TimesAssociates(sig as real, p as real, Pow2(u));
    if exp > u {
      EvenFactor(sig, p);
    }
  }

  /** Rounding to a multiple of `p` picks the nearest one, the even one between two. */
  lemma NearestMultiple(x: real, p: real, k: int)
    requires p > 0.0
    ensures var n := RoundHalfEven(x / p);
            && Abs(x - Times(n as real, p)) <= Abs(x - Times(k as real, p))
            && (Abs(x - Times(n as real, p)) == Abs(x - Times(k as real, p)) && k != n ==> n % 2 == 0)
  {
    var y := x / p;
    var n := RoundHalfEven(y);
    TimesQuotient(x, p);
    DistanceScales(y, n as real, p);
    DistanceScales(y, k as real, p);
    RoundHalfEvenIsNearest(y, k);
    ScaleAtMost(Abs(y - n as real), Abs(y - k as real), p);
    if Abs(y - n as real) < Abs(y - k as real) {
      ScaleLess(Abs(y - n as real), Abs(y - k as real), p);
    }
  }

  /**
   The rounding is the one of section 4.3.1: no representable magnitude is nearer, and where
   another is as near, the chosen significand is even.
   */
  lemma RoundMagnitudeIsNearestEven(x: real, sig: nat, exp: int)
    requires x >= 0.0 && Normalized(sig, exp)
    ensures var (m, e) := RoundMagnitude(x);
            && Abs(x - Magnitude(m, e)) <= Abs(x - Magnitude(sig, exp))
            && (Abs(x - Magnitude(m, e)) == Abs(x - Magnitude(sig, exp)) && (sig, exp) != (m, e) ==> m % 2 == 0)
  {
    var u := UnitExponent(x, -1074);
    RoundMagnitudeValue(x);
    if exp >= u {
      var k := MultipleOfUnit(sig, exp, u);
      NearestMultiple(x, Pow2(u), k);
      var (m, e) := RoundMagnitude(x);
      if Magnitude(m, e) == Magnitude(sig, exp) {
        MagnitudeIsInjective(sig, exp, m, e);
      }
    } else {
      // The other magnitude lies below 2^52 units, which is at most x.
      SmallerExponentIsSmaller(sig, exp, u);
      Pow2Precision(u);
      NearestMultiple(x, Pow2(u), TWO_TO_THE_52);
    }
  }

  /** `float(x)` for an exact real `x`: an `int` or a `Fraction`. It raises when the rounded
      value exceeds the largest finite double. */
  function FloatOf(x: real): Result<Float, Error> {
    var (m, e) := RoundMagnitude(Abs(x));
    if e > 971 then Err(OverflowError) else Ok(Finite(x < 0.0, m, e))
  }

  /**
   `float(x)` for any exact real, of either sign: no finite double is nearer, the significand is even
   where another value is as near, and the sign is that of `x`.
   */
  lemma FloatOfIsNearest(x: real, d: Float)
    requires FloatOf(x).Ok? && d.Finite?
    ensures var f := FloatOf(x).value;
            && f.Finite? && (f.neg <==> x < 0.0)
            && Abs(x - Value(f)) <= Abs(x - Value(d))
            && (Abs(x - Value(f)) == Abs(x - Value(d)) && Value(f) != Value(d) ==> f.sig % 2 == 0)
  {
    var a := Abs(x);
    var f := FloatOf(x).value;
    var zero := Magnitude(0, -1074);
    assert zero == 0.0;
    RoundMagnitudeIsNearestEven(a, d.sig, d.exp);
    RoundMagnitudeIsNearestEven(a, 0, -1074);
    assert Abs(x - Value(f)) == Abs(a - Magnitude(f.sig, f.exp));
    if d.neg == (x < 0.0) {
      assert Abs(x - Value(d)) == Abs(a - Magnitude(d.sig, d.exp));
    } else {
      assert Abs(x - Value(d)) == a + Magnitude(d.sig, d.exp);
    }
  }

  /** Rounding at a unit reaches 2^53 units from half a unit below it on. */
  lemma RoundsUpFrom(a: real, u: int)
    requires a >= 0.0 && u == UnitExponent(a, -1074)
    ensures RoundHalfEven(a / Pow2(u)) == TWO_TO_THE_53
            <==> a >= Times((2 * TWO_TO_THE_53 - 1) as real / 2.0, Pow2(u))
  {
    var y := a / Pow2(u);
    var half := (2 * TWO_TO_THE_53 - 1) as real / 2.0;
    TimesQuotient(a, Pow2(u));
    RoundedSignificand(a, u);
    if y >= half {
      ScaleAtMost(half, y, Pow2(u));
      Pow2Precision(u);
      if y >= TWO_TO_THE_53 as real {
        ScaleAtMost(TWO_TO_THE_53 as real, y, Pow2(u));
      }
      assert y.Floor == TWO_TO_THE_53 - 1;
    } else {
      ScaleLess(y, half, Pow2(u));
    }
  }

  /** It raises exactly from half a unit beyond the largest finite double on, that is from
      (2^54 - 1) * 2^970. */
  lemma FloatOfOverflowsIff(x: real, e: int)
    requires e == 970
    ensures FloatOf(x).Err? <==> Abs(x) >= Times((2 * TWO_TO_THE_53 - 1) as real, Pow2(e))
    ensures FloatOf(x).Err? ==> FloatOf(x).error == OverflowError
  {
    hide Times, Pow2, RoundHalfEven;
    var a := Abs(x);
    var u := UnitExponent(a, -1074);
    var p := Pow2(e);
    var most := (2 * TWO_TO_THE_53 - 1) as real;
    Pow2Next(e);
    if u > e + 1 {
      Pow2Monotone(53 + (e + 1), 52 + u);
      Pow2Precision(e + 1);
      TimesDouble(TWO_TO_THE_53 as real, p);
      ScaleAtMost(most, 2.0 * TWO_TO_THE_53 as real, p);
    } else if u < e + 1 {
      Pow2Monotone(53 + u, 53 + e);
      Pow2Precision(e);
      ScaleLess(TWO_TO_THE_53 as real, most, p);
    } else {
      RoundsUpFrom(a, u);
      TimesDouble(most / 2.0, p);
    }
  }

  /** Conversion is exact on every value that some finite double denotes. */
  lemma FloatOfIsExactOnDoubles(d: Float)
    requires d.Finite?
    ensures FloatOf(Value(d)).Ok? && FloatOf(Value(d)).value.Finite?
    ensures Value(FloatOf(Value(d)).value) == Value(d)
  {
    var x := Abs(Value(d));
    var (m, e) := RoundMagnitude(x);
    RoundMagnitudeIsNearestEven(x, d.sig, d.exp);
    MagnitudeIsInjective(m, e, d.sig, d.exp);
  }

  // ---------------------------------------------------------------- integers among doubles

  /** `float.is_integer()`; infinities and NaN are not integers. */
  predicate IsInteger(d: Float) {
    d.Finite? && Value(d).Floor as real == Value(d)
  }

  /** Some finite double denotes exactly `n`. */
  ghost predicate Representable(n: int) {
    exists d: Float :: d.Finite? && Value(d) == n as real
  }

  lemma RoundSmallInteger(a: nat) returns (m: nat, e: int)
    requires a < TWO_TO_THE_53
    ensures Normalized(m, e) && e <= 971
    ensures Magnitude(m, e) == a as real
  {
    var x := a as real;
    var u := UnitExponent(x, -1074);
    Pow2Literals();
    if u > 0 {
      Pow2Monotone(53, 52 + u);
    }
    // a is a multiple of the unit, because the unit divides one
    var k := MultipleOfUnit(a, 0, u);
    TimesOne(x);
    QuotientTimes(k as real, Pow2(u));
    m, e := RoundMagnitude(x).0, RoundMagnitude(x).1;
    RoundMagnitudeValue(x);
  }

  lemma SmallIntegersAreRepresentable(n: int)
    requires -TWO_TO_THE_53 <= n <= TWO_TO_THE_53
    ensures Representable(n)
  {
    var a := if n < 0 then -n else n;
    if a == TWO_TO_THE_53 {
      var d: Float := Finite(n < 0, TWO_TO_THE_52, 1);
      Pow2Literals();
      TimesDouble(TWO_TO_THE_52 as real, 1.0);
      TimesOne(TWO_TO_THE_52 as real);
      assert Value(d) == n as real;
    } else {
      var m, e := RoundSmallInteger(a);
      var d: Float := Finite(n < 0, m, e);
      assert Value(d) == n as real;
    }
  }

  /** Beyond 2^53 the doubles are even, so 2^53 + 1 is the first integer that is not one. */
  lemma OddIntegersBeyondAreNot(n: int)
    requires n % 2 == 1 && (n > TWO_TO_THE_53 || n < -TWO_TO_THE_53)
    ensures !Representable(n)
  {
    if d: Float :| d.Finite? && Value(d) == n as real {
      var a := if n < 0 then -n else n;
      assert Magnitude(d.sig, d.exp) == a as real;
      if d.exp <= 0 {
        Pow2Literals();
        SmallerExponentIsSmaller(d.sig, d.exp, 1);
      }
      var k := MultipleOfUnit(d.sig, d.exp, 0);
      TimesOne(k as real);
    }
  }

  // ---------------------------------------------------------------- the interchange layout

  /** `struct.pack("<d", d)` read as an unsigned word: sign, biased exponent, trailing significand. */
  function Bits(d: Float): Word {
    match d
    case NaN => 0x7FF8_0000_0000_0000
    case Infinite(neg) => (if neg then TWO_TO_THE_63 else 0) + 2047 * TWO_TO_THE_52
    case Finite(neg, sig, exp) =>
      var biased := if sig < TWO_TO_THE_52 then 0 else exp + 1075;
      (if neg then TWO_TO_THE_63 else 0) + biased * TWO_TO_THE_52 + sig % TWO_TO_THE_52
  }

  /** `struct.unpack("<d", ...)` of a word. */
  function OfBits(w: Word): Float {
    var neg := w >= TWO_TO_THE_63;
    var biased := (w / TWO_TO_THE_52) % 2048;
    var trailing := w % TWO_TO_THE_52;
    if biased == 2047 then (if trailing == 0 then Infinite(neg) else NaN)
    else if biased == 0 then Finite(neg, trailing, -1074)
    else Finite(neg, TWO_TO_THE_52 + trailing, biased - 1075)
  }

  lemma OfBitsUndoesBits(d: Float)
    ensures OfBits(Bits(d)) == d
  {
    if d.Finite? {
      var biased := if d.sig < TWO_TO_THE_52 then 0 else d.exp + 1075;
      var t := d.sig % TWO_TO_THE_52;
      var s := if d.neg then 2048 else 0;
      assert Bits(d) == (s + biased) * TWO_TO_THE_52 + t;
      assert Bits(d) / TWO_TO_THE_52 == s + biased;
    }
  }

  lemma BitsUndoesOfBits(w: Word)
    requires OfBits(w) != NaN
    ensures Bits(OfBits(w)) == w
  {
    var h := w / TWO_TO_THE_52;
    assert w == h * TWO_TO_THE_52 + w % TWO_TO_THE_52;
    assert h == (if w >= TWO_TO_THE_63 then 2048 else 0) + h % 2048;
  }

  /**
   Bit patterns and non-NaN doubles correspond one to one, so the two zeros, every subnormal
   and both infinities have patterns of their own; and finite doubles with different patterns
   denote different numbers, save for the two zeros.
   */
  lemma BitsIsABijection(d1: Float, d2: Float, w: Word)
    ensures OfBits(Bits(d1)) == d1
    ensures OfBits(w) != NaN ==> Bits(OfBits(w)) == w
    ensures Bits(d1) == Bits(d2) <==> d1 == d2
    ensures d1.Finite? && d2.Finite? && Value(d1) == Value(d2)
            ==> d1 == d2 || (d1.sig == d2.sig == 0 && d1.exp == d2.exp)
  {
    OfBitsUndoesBits(d1);
    OfBitsUndoesBits(d2);
    if OfBits(w) != NaN {
      BitsUndoesOfBits(w);
    }
    if d1.Finite? && d2.Finite? && Value(d1) == Value(d2) {
      assert Magnitude(d1.sig, d1.exp) >= 0.0 && Magnitude(d2.sig, d2.exp) >= 0.0;
      MagnitudeIsInjective(d1.sig, d1.exp, d2.sig, d2.exp);
      if d1.neg != d2.neg {
        assert Magnitude(d1.sig, d1.exp) == 0.0;
      }
    }
  }

  /**
   The layout of section 3.4, told by what it does rather than by where its fields are. Below the
   pattern of infinity the words decode to the non-negative finite doubles in increasing order; that
   pattern is positive infinity and everything above it NaN; and the top bit flips the sign.
   Together with the bijection this leaves one layout only.
   */
  lemma WordsAreOrderedAsValues(w1: Word, w2: Word)
    requires w1 < w2 < INFINITY
    ensures OfBits(w1).Finite? && OfBits(w2).Finite?
    ensures 0.0 <= Value(OfBits(w1)) < Value(OfBits(w2))
  {
    hide Times, Pow2;
    var (d1, d2) := (OfBits(w1), OfBits(w2));
    assert d1.Finite? && d2.Finite? && !d1.neg && !d2.neg;
    if d1.exp == d2.exp {
      assert d1.sig < d2.sig;
      ScaleLess(d1.sig as real, d2.sig as real, Pow2(d1.exp));
    } else {
      assert d1.exp < d2.exp && d2.sig >= TWO_TO_THE_52;
      SmallerExponentIsSmaller(d1.sig, d1.exp, d2.exp);
      FullPrecisionIsLarge(d2.sig, d2.exp);
    }
  }

  lemma TopBitIsTheSign(w: Word)
    requires w < TWO_TO_THE_63
    ensures w < INFINITY ==> OfBits(w).Finite? && OfBits(w + TWO_TO_THE_63).Finite?
    ensures w < INFINITY ==> Value(OfBits(w + TWO_TO_THE_63)) == -Value(OfBits(w))
    ensures w == INFINITY ==> OfBits(w) == Infinite(false) && OfBits(w + TWO_TO_THE_63) == Infinite(true)
    ensures w > INFINITY ==> OfBits(w) == NaN && OfBits(w + TWO_TO_THE_63) == NaN
  {
    hide Magnitude;
    var u := w + TWO_TO_THE_63;
    assert u / TWO_TO_THE_52 == w / TWO_TO_THE_52 + 2048;
    assert u % TWO_TO_THE_52 == w % TWO_TO_THE_52;
  }

  /** The patterns of one and of `float("nan")`. */
  lemma PatternOfOne()
    ensures Bits(NaN) == 0x7FF8_0000_0000_0000
    ensures Bits(Finite(false, TWO_TO_THE_52, -52)) == 0x3FF0_0000_0000_0000
    ensures Value(Finite(false, TWO_TO_THE_52, -52)) == 1.0
  {
    Pow2Literals();
    Pow2Sum(52, -52);
  }
}
