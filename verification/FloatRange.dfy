/** The largest value of a small float format, built as the bits of a wider one (vllm/scalar_type.py). Codes are
    read as in section 3.4 of IEEE 754-2019. */
module FloatRange {
  import opened Prelude
  import opened Bits
  import opened ScalarTypes

  function ExponentBias(e: nat): nat
    requires e > 0
  {
    Pow2(e - 1) - 1
  }

  /** Field widths of an IEEE format: fraction, then exponent, then the sign bit on top. */
  datatype Layout = Layout(fraction: nat, exponent: nat)
  {
    predicate Valid() {
      fraction >= 1 && exponent >= 2
    }

    function Bias(): nat
      requires exponent > 0
    {
      ExponentBias(exponent)
    }
  }

  /** A double. */
  const BINARY64: Layout := Layout(52, 11)

  /** The value of exponent field `x` and mantissa field `f` with `m` mantissa bits, in units of the smallest positive
      number of layout `d`: subnormal when `x` is zero, with a leading one otherwise. */
  function ValueOf(d: Layout, m: nat, bias: nat, x: nat, f: nat): nat
    requires d.Valid() && bias <= d.Bias() && m <= d.fraction
  {
    var base := d.Bias() - bias + d.fraction - m;
    if x == 0 then Shl(f, base) else Shl(Pow2(m) + f, base + x - 1)
  }

  // ----- The source's computation, with the double as layout

  predicate IsFloat(t: ScalarType) {
    t.exponent >= 1 && t.mantissa >= 1
  }

  function MaxMantissa(t: ScalarType): nat
    requires IsFloat(t)
  {
    assert Pow2(t.mantissa) == 2 * Pow2(t.mantissa - 1);
    Pow2(t.mantissa) - if t.nanRepr.ExtendedRange? then 2 else 1
  }

  function MaxExponent(t: ScalarType): nat
    requires IsFloat(t)
  {
    assert Pow2(t.exponent) == 2 * Pow2(t.exponent - 1);
    Pow2(t.exponent) - if t.nanRepr.Ieee754? then 2 else 1
  }

  /** The source's two assertions: the format is no wider than the layout, and narrower if it has no infinities. */
  predicate Fits(t: ScalarType, d: Layout) {
    && t.mantissa <= d.fraction && t.exponent <= d.exponent
    && (!t.nanRepr.Ieee754? ==> t.exponent < d.exponent)
  }

  /** The exponent field rebiased for the layout. */
  function Rebiased(t: ScalarType, d: Layout): nat
    requires IsFloat(t) && d.Valid()
  {
    assert Pow2(t.exponent) == 2 * Pow2(t.exponent - 1);
    MaxExponent(t) - ExponentBias(t.exponent) + d.Bias()
  }

  /** `None` where an assertion fails. */
  function FloatingPointMaxInt(t: ScalarType, d: Layout): Option<nat>
    requires IsFloat(t) && d.Valid()
  {
    if !Fits(t, d) then None
    else Some(Or(Shl(MaxMantissa(t), d.fraction - t.mantissa), Shl(Rebiased(t, d), d.fraction)))
  }

  // ----- Reading bits back

  function Fraction(d: Layout, raw: nat): nat {
    Mask(raw, d.fraction)
  }

  function Exponent(d: Layout, raw: nat): nat {
    Mask(Shr(raw, d.fraction), d.exponent)
  }

  predicate Negative(d: Layout, raw: nat) {
    Shr(raw, d.fraction + d.exponent) % 2 == 1
  }

  /** Neither zero, subnormal, infinite nor not-a-number. */
  predicate IsNormal(d: Layout, raw: nat) {
    1 <= Exponent(d, raw) <= Pow2(d.exponent) - 2
  }

  function Value(d: Layout, raw: nat): int
    requires d.Valid()
  {
    var v: int := ValueOf(d, d.fraction, d.Bias(), Exponent(d, raw), Fraction(d, raw));
    if Negative(d, raw) then 0 - v else v
  }

  lemma {:induction false} RebiasedFits(t: ScalarType, d: Layout)
    requires IsFloat(t) && d.Valid() && Fits(t, d)
    ensures 1 <= Rebiased(t, d) <= Pow2(d.exponent) - 2 && ExponentBias(t.exponent) <= d.Bias()
  {
    Pow2Monotone(t.exponent - 1, d.exponent - (if t.nanRepr.Ieee754? then 1 else 2));
  }

  lemma {:induction false} FieldsApart(d: Layout, f: nat, x: nat)
    requires f < Pow2(d.fraction) && x < Pow2(d.exponent)
    ensures var raw := Or(f, Shl(x, d.fraction));
            && raw == f + Shl(x, d.fraction) && raw < Pow2(d.exponent + d.fraction)
            && Fraction(d, raw) == f && Exponent(d, raw) == x && !Negative(d, raw)
  {
    OrIsPlus(f, x, d.fraction);
    ReadBack(f, x, d.fraction);
    MaskSmall(x, d.exponent);
    ShlBound(f, x, d.exponent, d.fraction);
    MaskSmall(f + Shl(x, d.fraction), d.exponent + d.fraction);
  }

  /** The two fields do not overlap and are read back as they were put in: a finite, normal, positive number. */
  lemma {:induction false} MaxIsNormal(t: ScalarType, d: Layout)
    requires IsFloat(t) && d.Valid() && Fits(t, d)
    ensures var raw := FloatingPointMaxInt(t, d).value;
            && Fraction(d, raw) == Shl(MaxMantissa(t), d.fraction - t.mantissa)
            && Exponent(d, raw) == Rebiased(t, d)
            && IsNormal(d, raw) && !Negative(d, raw)
  {
    RebiasedFits(t, d);
    ShlBound(0, MaxMantissa(t), t.mantissa, d.fraction - t.mantissa);
    FieldsApart(d, Shl(MaxMantissa(t), d.fraction - t.mantissa), Rebiased(t, d));
  }

  /** The bits, written out: the largest mantissa field on the left of the fraction, the largest exponent field moved
      from bias 2^(e-1)-1 to that of the layout, and no sign bit. */
  lemma {:induction false} BitsOfMax(t: ScalarType, d: Layout)
    requires IsFloat(t) && d.Valid() && Fits(t, d)
    ensures var raw := FloatingPointMaxInt(t, d).value;
            && Fraction(d, raw)
               == Shl(Pow2(t.mantissa) - (if t.nanRepr.ExtendedRange? then 2 else 1), d.fraction - t.mantissa)
            && Exponent(d, raw) == Pow2(t.exponent) - (if t.nanRepr.Ieee754? then 2 else 1)
                                   - (Pow2(t.exponent - 1) - 1) + (Pow2(d.exponent - 1) - 1)
            && raw == Fraction(d, raw) + Shl(Exponent(d, raw), d.fraction)
  {
    MaxIsNormal(t, d);
    ShlBound(0, MaxMantissa(t), t.mantissa, d.fraction - t.mantissa);
    OrIsPlus(Shl(MaxMantissa(t), d.fraction - t.mantissa), Rebiased(t, d), d.fraction);
  }

  // ----- What the value is for the format

  /** The codes that stand for finite numbers. */
  predicate FiniteCode(t: ScalarType, x: nat, f: nat)
    requires IsFloat(t)
  {
    && x < Pow2(t.exponent) && f < Pow2(t.mantissa)
    && (t.nanRepr.Ieee754? ==> x < Pow2(t.exponent) - 1)
    && (t.nanRepr.ExtendedRange? ==> x < Pow2(t.exponent) - 1 || f < Pow2(t.mantissa) - 1)
  }

  function CodeValue(t: ScalarType, d: Layout, x: nat, f: nat): nat
    requires IsFloat(t) && d.Valid() && Fits(t, d)
  {
    RebiasedFits(t, d);
    ValueOf(d, t.mantissa, ExponentBias(t.exponent), x, f)
  }

  lemma {:induction false} Doubled(a: nat, n: nat)
    ensures Shl(2 * a, n) == Shl(a, n + 1)
  {
    if n > 0 {
      Doubled(a, n - 1);
    }
  }

  /** What a code is worth, without its bias: exponent field 2^(e-1) and no mantissa is the number two of the layout,
      2^(e-1)-1 is one unless there is a single exponent bit, and then it is zero. */
  lemma {:induction false} TwoAndOne(t: ScalarType, d: Layout)
    requires IsFloat(t) && d.Valid() && Fits(t, d)
    ensures CodeValue(t, d, Pow2(t.exponent - 1), 0) == Value(d, Shl(Pow2(d.exponent - 1), d.fraction))
    ensures CodeValue(t, d, Pow2(t.exponent - 1) - 1, 0)
            == if t.exponent == 1 then 0 else Value(d, Shl(Pow2(d.exponent - 1) - 1, d.fraction))
  {
    RebiasedFits(t, d);
    PowersOfTwo(t.mantissa, d.Bias() + d.fraction - t.mantissa - 1);
    ReadsPowers(d, Pow2(d.exponent - 1));
    ReadsPowers(d, Pow2(d.exponent - 1) - 1);
    ShlZero(d.Bias() + d.fraction - t.mantissa);
  }

  lemma {:induction false} PowersOfTwo(m: nat, n: nat)
    ensures Shl(Pow2(m), n) == Pow2(m + n) && Shl(Pow2(m), n + 1) == Pow2(m + n + 1)
  {
    ShlOfPow2(m, n);
    ShlOfPow2(m, n + 1);
  }

  /** An exponent field alone is a power of two. */
  lemma {:induction false} ReadsPowers(d: Layout, x: nat)
    requires d.Valid() && 0 < x < Pow2(d.exponent)
    ensures Value(d, Shl(x, d.fraction)) == Pow2(d.fraction + x - 1)
  {
    FieldsApart(d, 0, x);
    ShlOfPow2(d.fraction, x - 1);
  }

  /** Codes with the same exponent field are evenly spaced, the next exponent field doubles them, and those below the
      first are spaced as with the first. */
  lemma {:induction false} CodesAreSpaced(t: ScalarType, d: Layout, x: nat, f: nat, g: nat)
    requires IsFloat(t) && d.Valid() && Fits(t, d)
    ensures CodeValue(t, d, x, f + g) + CodeValue(t, d, x, 0) == CodeValue(t, d, x, f) + CodeValue(t, d, x, g)
    ensures x > 0 ==> CodeValue(t, d, x + 1, f) == 2 * CodeValue(t, d, x, f)
    ensures CodeValue(t, d, 1, f) == CodeValue(t, d, 0, f) + CodeValue(t, d, 1, 0)
    ensures CodeValue(t, d, 1, 0) == CodeValue(t, d, 0, Pow2(t.mantissa)) && CodeValue(t, d, 0, 0) == 0
  {
    RebiasedFits(t, d);
    var m := Pow2(t.mantissa);
    var base := d.Bias() - ExponentBias(t.exponent) + d.fraction - t.mantissa;
    ShlPlus(m, f, base);
    ShlZero(base);
    if x == 0 {
      ShlPlus(f, g, base);
    } else {
      var n := base + x - 1;
      ShlPlus(m + f, g, n);
      ShlPlus(m, g, n);
      ShlPlus(m + f, m + f, n);
      Doubled(m + f, n);
    }
  }

  /** A code with a smaller exponent field, or the same one and no larger mantissa field, has no larger value. */
  lemma {:induction false} ShiftedOrder(m: nat, base: nat, x: nat, f: nat, x': nat, f': nat)
    requires x' >= 1 && f < Pow2(m) && (x < x' || (x == x' && f <= f'))
    ensures (if x == 0 then Shl(f, base) else Shl(Pow2(m) + f, base + x - 1)) <= Shl(Pow2(m) + f', base + x' - 1)
  {
    if x == x' {
      ShlOrder(Pow2(m) + f, Pow2(m) + f', base + x - 1);
    } else {
      ShlOrder(Pow2(m), Pow2(m) + f', base + x' - 1);
      if x == 0 {
        ShlOrder(f, Pow2(m), base);
        ShlLonger(Pow2(m), base, base + x' - 1);
      } else {
        ShlOrder(Pow2(m) + f, 2 * Pow2(m), base + x - 1);
        Doubled(Pow2(m), base + x - 1);
        ShlLonger(Pow2(m), base + x, base + x' - 1);
      }
    }
  }

  /** Read back, the number is the largest exponent and mantissa fields of the format, with a leading one. */
  lemma {:induction false} MaxValue(t: ScalarType, d: Layout, base: nat)
    requires IsFloat(t) && d.Valid() && Fits(t, d)
    requires ExponentBias(t.exponent) <= d.Bias()
    requires base == d.Bias() - ExponentBias(t.exponent) + d.fraction - t.mantissa
    ensures base + MaxExponent(t) >= 1
    ensures Value(d, FloatingPointMaxInt(t, d).value)
            == Shl(Pow2(t.mantissa) + MaxMantissa(t), base + MaxExponent(t) - 1)
  {
    MaxIsNormal(t, d);
    var k := d.fraction - t.mantissa;
    ShlOfPow2(t.mantissa, k);
    ShlPlus(Pow2(t.mantissa), MaxMantissa(t), k);
    ShlTwice(Pow2(t.mantissa) + MaxMantissa(t), k, Rebiased(t, d) - 1);
  }

  lemma {:induction false} FiniteCodesBelow(t: ScalarType, d: Layout, x: nat, f: nat)
    requires IsFloat(t) && d.Valid() && Fits(t, d) && FiniteCode(t, x, f)
    ensures CodeValue(t, d, x, f) <= Value(d, FloatingPointMaxInt(t, d).value)
    ensures MaxExponent(t) == 0 ==> CodeValue(t, d, x, f) < Value(d, FloatingPointMaxInt(t, d).value)
  {
    RebiasedFits(t, d);
    var m := t.mantissa;
    var base := d.Bias() - ExponentBias(t.exponent) + d.fraction - m;
    MaxValue(t, d, base);
    if MaxExponent(t) > 0 {
      ShiftedOrder(m, base, x, f, MaxExponent(t), MaxMantissa(t));
    } else {
      Doubled(f, base - 1);
      ShlOrder(Pow2(m) + MaxMantissa(t), 2 * f, base - 1);
    }
  }

  /** The value is an upper bound of every finite code, subnormals included, and is one of them exactly unless the
      format follows IEEE 754 with a single exponent bit, where only subnormals are finite. */
  lemma {:induction false} LargestFiniteValue(t: ScalarType, d: Layout)
    requires IsFloat(t) && d.Valid() && Fits(t, d)
    ensures forall x, f :: FiniteCode(t, x, f) ==> CodeValue(t, d, x, f) <= Value(d, FloatingPointMaxInt(t, d).value)
    ensures (exists x, f :: FiniteCode(t, x, f) && CodeValue(t, d, x, f) == Value(d, FloatingPointMaxInt(t, d).value))
            <==> !(t.nanRepr.Ieee754? && t.exponent == 1)
  {
    var max := Value(d, FloatingPointMaxInt(t, d).value);
    forall x, f | FiniteCode(t, x, f)
      ensures CodeValue(t, d, x, f) <= max && (MaxExponent(t) == 0 ==> CodeValue(t, d, x, f) != max)
    {
      FiniteCodesBelow(t, d, x, f);
    }
    if MaxExponent(t) > 0 {
      RebiasedFits(t, d);
      MaxValue(t, d, d.Bias() - ExponentBias(t.exponent) + d.fraction - t.mantissa);
      assert FiniteCode(t, MaxExponent(t), MaxMantissa(t));
    }
  }

  /** With one exponent bit and one mantissa bit under IEEE 754, zero and one subnormal are all that is finite,
      and the number built is half as much again. */
  lemma {:induction false} OneExponentBit(d: Layout)
    requires d.Valid()
    ensures var t := ScalarType(1, 1, true, 0, false, Ieee754);
            && Fits(t, d) && (forall x, f :: FiniteCode(t, x, f) <==> x == 0 && f <= 1)
            && 2 * Value(d, FloatingPointMaxInt(t, d).value) == 3 * CodeValue(t, d, 0, 1) > 0
  {
    var t := ScalarType(1, 1, true, 0, false, Ieee754);
    assert Pow2(1) == 2 * Pow2(0);
    var base := d.Bias() + d.fraction - 1;
    RebiasedFits(t, d);
    MaxValue(t, d, base);
    Doubled(1, base - 1);
    ShlPlus(1, 2, base - 1);
    ShlOne(base);
  }

  /** `_raw_min`: the same bits with the sign bit set. */
  function FloatingPointMinInt(t: ScalarType, d: Layout): nat
    requires IsFloat(t) && d.Valid() && Fits(t, d)
  {
    Or(FloatingPointMaxInt(t, d).value, Shl(1, d.exponent + d.fraction))
  }

  lemma {:induction false} SignBitIsApart(d: Layout, f: nat, x: nat)
    requires f < Pow2(d.fraction) && x < Pow2(d.exponent) && f + Shl(x, d.fraction) < Pow2(d.exponent + d.fraction)
    ensures var raw := f + Shl(x, d.fraction) + Shl(1, d.exponent + d.fraction);
            Fraction(d, raw) == f && Exponent(d, raw) == x && Negative(d, raw)
  {
    ReadBack(f + Shl(x, d.fraction), 1, d.exponent + d.fraction);
    ShlTwice(1, d.exponent, d.fraction);
    ShlPlus(x, Shl(1, d.exponent), d.fraction);
    ReadBack(f, x + Shl(1, d.exponent), d.fraction);
    ReadBack(x, 1, d.exponent);
  }

  lemma {:induction false} SignBitNegates(d: Layout, f: nat, x: nat)
    requires d.Valid() && f < Pow2(d.fraction) && x < Pow2(d.exponent)
    ensures var raw := Or(f, Shl(x, d.fraction));
            Value(d, Or(raw, Shl(1, d.exponent + d.fraction))) == -Value(d, raw)
  {
    FieldsApart(d, f, x);
    var raw := f + Shl(x, d.fraction);
    OrIsPlus(raw, 1, d.exponent + d.fraction);
    SignBitIsApart(d, f, x);
    SameFields(d, raw, raw + Shl(1, d.exponent + d.fraction));
  }

  lemma SameFields(d: Layout, raw: nat, raw': nat)
    requires d.Valid() && Fraction(d, raw) == Fraction(d, raw') && Exponent(d, raw) == Exponent(d, raw')
    requires Negative(d, raw') && !Negative(d, raw)
    ensures Value(d, raw') == -Value(d, raw)
  {
  }

  /** The smallest value is the largest one negated. */
  lemma {:induction false} MinIsNegatedMax(t: ScalarType, d: Layout)
    requires IsFloat(t) && d.Valid() && Fits(t, d)
    ensures Value(d, FloatingPointMinInt(t, d)) == -Value(d, FloatingPointMaxInt(t, d).value)
  {
    RebiasedFits(t, d);
    ShlBound(0, MaxMantissa(t), t.mantissa, d.fraction - t.mantissa);
    SignBitNegates(d, Shl(MaxMantissa(t), d.fraction - t.mantissa), Rebiased(t, d));
  }

  /** All of it for the double the source uses. */
  lemma {:induction false} LargestFiniteDouble(t: ScalarType)
    requires IsFloat(t) && Fits(t, BINARY64)
    ensures var raw := FloatingPointMaxInt(t, BINARY64).value;
            && IsNormal(BINARY64, raw) && !Negative(BINARY64, raw)
            && Exponent(BINARY64, raw)
               == Pow2(t.exponent) - (if t.nanRepr.Ieee754? then 2 else 1) - (Pow2(t.exponent - 1) - 1) + 1023
            && (forall x, f :: FiniteCode(t, x, f) ==> CodeValue(t, BINARY64, x, f) <= Value(BINARY64, raw))
            && ((exists x, f :: FiniteCode(t, x, f) && CodeValue(t, BINARY64, x, f) == Value(BINARY64, raw))
                <==> !(t.nanRepr.Ieee754? && t.exponent == 1))
  {
    MaxIsNormal(t, BINARY64);
    BitsOfMax(t, BINARY64);
    Pow2Values();
    LargestFiniteValue(t, BINARY64);
  }
}
