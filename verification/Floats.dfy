/** IEEE 754 numbers by value: what their three fields mean, and that widening a half
    to a single by shifting its fields (internal/modules/provenance/cbor.go) keeps the
    value of every number. */
module Floats {
  import opened Money
  import opened Cbor

  /** Each step of the exponent doubles. */
  lemma Pow2Step(e: int)
    ensures Pow2(e + 1) == 2.0 * Pow2(e)
  {
  }

  lemma {:induction false} Pow2Positive(e: int)
    ensures Pow2(e) > 0.0
    decreases if e < 0 then -e else e
  {
    if e == 0 {
    } else if e > 0 {
      Pow2Positive(e - 1);
    } else {
      Pow2Positive(e + 1);
    }
  }

  lemma {:induction false} Pow2Sum(a: int, k: nat)
    ensures Pow2(a + k) == Size2(k) as real * Pow2(a)
  {
    if k == 0 {
    } else {
      Pow2Sum(a, k - 1);
      Pow2Step(a + k - 1);
    }
  }

  lemma Sizes()
    ensures Size2(0) == 1 && Size2(5) == 32 && Size2(8) == 256 && Size2(10) == 0x400 && Size2(11) == 0x800
    ensures Size2(13) == 0x2000 && Size2(23) == 0x80_0000
  {
    assert Size2(4) == 16 && Size2(7) == 128 && Size2(9) == 512 && Size2(12) == 0x1000;
    assert Size2(14) == 0x4000 && Size2(16) == 0x1_0000 && Size2(18) == 0x4_0000 && Size2(20) == 0x10_0000;
    assert Size2(22) == 0x40_0000;
  }

  /** The fields of a number and its value: a sign, an exponent biased by half its
      range, and a mantissa after an implicit one. The least exponent is that of zero
      and the numbers below the implicit one, the greatest that of what is not finite. */
  lemma FieldsAre(negative: bool, exp: nat, mant: nat, expBits: nat, mantBits: nat)
    requires expBits > 0 && exp < Size2(expBits) && mant < Size2(mantBits)
    ensures var top := Size2(expBits) - 1;
            var bias := Size2(expBits - 1) - 1;
            var sign := if negative then -1.0 else 1.0;
            var bits := ((if negative then Size2(expBits) else 0) + exp) * Size2(mantBits) + mant;
            FloatOf(bits, expBits, mantBits)
            == if exp == top then (if mant == 0 then Infinite(negative) else NaN)
               else if exp == 0 then Finite(sign * mant as real * Pow2(1 - bias - mantBits))
               else Finite(sign * (Size2(mantBits) + mant) as real * Pow2(exp - bias - mantBits))
  {
    hide Pow2, Size2;
    var size, scale := Size2(expBits), Size2(mantBits);
    var high := (if negative then size else 0) + exp;
    HalfOfSize(expBits);
    Fields(high, mant, scale);
    Fields(if negative then 1 else 0, exp, size);
  }

  lemma HalfOfSize(n: nat)
    requires n > 0
    ensures Size2(n) == 2 * Size2(n - 1)
  {
  }

  /** Quotient and remainder of a number put together from them. */
  lemma Fields(high: nat, low: nat, scale: nat)
    requires low < scale
    ensures (high * scale + low) / scale == high && (high * scale + low) % scale == low
  {
    var x := high * scale + low;
    DivisionFacts(x, scale);
    var q := x / scale;
    if q > high {
      MulMono(high + 1, q, scale);
      MulStep(scale, high);
    } else if q < high {
      MulMono(q + 1, high, scale);
      MulStep(scale, q);
    }
  }

  // ---- halves as singles -----------------------------------------------------------

  /** A half by its fields. */
  function HalfBits(negative: bool, exp: nat, mant: nat): nat {
    ((if negative then 32 else 0) + exp) * 0x400 + mant
  }

  /** A single by its fields. */
  function SingleBits(negative: bool, exp: nat, mant: nat): nat {
    ((if negative then 256 else 0) + exp) * 0x80_0000 + mant
  }

  lemma HalfIs(negative: bool, exp: nat, mant: nat)
    requires exp < 32 && mant < 0x400
    ensures var sign := if negative then -1.0 else 1.0;
            FloatOf(HalfBits(negative, exp, mant), 5, 10)
            == if exp == 31 then (if mant == 0 then Infinite(negative) else NaN)
               else if exp == 0 then Finite(sign * mant as real * Pow2(-24))
               else Finite(sign * (0x400 + mant) as real * Pow2(exp - 25))
  {
    hide Pow2, FloatOf;
    Sizes();
    assert Size2(4) == 16;
    FieldsAre(negative, exp, mant, 5, 10);
  }

  lemma SingleIs(negative: bool, exp: nat, mant: nat)
    requires 0 < exp < 256 && mant < 0x80_0000
    ensures var sign := if negative then -1.0 else 1.0;
            FloatOf(SingleBits(negative, exp, mant), 8, 23)
            == if exp == 255 then (if mant == 0 then Infinite(negative) else NaN)
               else Finite(sign * (0x80_0000 + mant) as real * Pow2(exp - 150))
  {
    hide Pow2, FloatOf;
    Sizes();
    assert Size2(7) == 128;
    FieldsAre(negative, exp, mant, 8, 23);
  }

  lemma ZeroIs(negative: bool)
    ensures FloatOf(SingleBits(negative, 0, 0), 8, 23) == Finite(0.0)
    ensures FloatOf(HalfBits(negative, 0, 0), 5, 10) == Finite(0.0)
  {
    hide Pow2, FloatOf;
    Sizes();
    FieldsAre(negative, 0, 0, 8, 23);
    FieldsAre(negative, 0, 0, 5, 10);
  }

  /** A mantissa shifted thirteen places is worth as much at an exponent thirteen
      lower. */
  lemma ShiftedIs(mant: nat, e: int)
    ensures (mant * 0x2000) as real * Pow2(e - 13) == mant as real * Pow2(e)
  {
    hide Pow2, Size2;
    Sizes();
    Pow2Sum(e - 13, 13);
  }

  lemma Doubled(m: nat, e: nat)
    requires e <= 113
    ensures (2 * m) as real * Pow2(e - 138) == m as real * Pow2(e - 137)
    ensures Size2(114 - e) == 2 * Size2(113 - e)
    ensures e <= 103 ==> Size2(113 - e) >= 0x400
  {
    hide Pow2;
    Pow2Step(e - 138);
    if e <= 103 { SizeGrows(10, 113 - e); }
  }

  lemma {:induction false} SizeGrows(a: nat, b: nat)
    requires a <= b
    ensures Size2(a) <= Size2(b)
  {
    if a == b {
    } else {
      SizeGrows(a, b - 1);
    }
  }

  /** Zeros, infinities and what is not a number. */
  lemma SpecialIs(negative: bool, mant: nat)
    requires mant < 0x400
    ensures FloatOf(SingleBits(negative, 0, 0), 8, 23) == FloatOf(HalfBits(negative, 0, 0), 5, 10)
    ensures FloatOf(SingleBits(negative, 255, mant * 0x2000), 8, 23) == FloatOf(HalfBits(negative, 31, mant), 5, 10)
  {
    hide Pow2, FloatOf, SingleBits, HalfBits;
    ZeroIs(negative);
    HalfIs(negative, 31, mant);
    SingleIs(negative, 255, mant * 0x2000);
  }

  /** A normal number. */
  lemma NormalIs(negative: bool, exp: nat, mant: nat)
    requires 0 < exp < 31 && mant < 0x400
    ensures FloatOf(SingleBits(negative, exp + 112, mant * 0x2000), 8, 23)
            == FloatOf(HalfBits(negative, exp, mant), 5, 10)
  {
    hide Pow2, FloatOf, SingleBits, HalfBits;
    HalfIs(negative, exp, mant);
    SingleIs(negative, exp + 112, mant * 0x2000);
    ShiftedIs(0x400 + mant, exp - 25);
    assert 0x80_0000 + mant * 0x2000 == (0x400 + mant) * 0x2000;
    var sign := if negative then -1.0 else 1.0;
    SameWorth(sign, (0x80_0000 + mant * 0x2000) as real, Pow2(exp - 38), (0x400 + mant) as real, Pow2(exp - 25));
  }

  /** A number below the implicit bit, shifted up to it. */
  lemma ShiftedUpIs(negative: bool, mant: nat, m: nat, e: nat)
    requires 0 < mant < 0x400 <= m < 0x800 && 100 <= e <= 113
    requires m as real * Pow2(e - 137) == mant as real * Pow2(-24)
    ensures FloatOf(SingleBits(negative, e, (m % 0x400) * 0x2000), 8, 23) == FloatOf(HalfBits(negative, 0, mant), 5, 10)
  {
    hide Pow2, FloatOf, SingleBits, HalfBits;
    HalfIs(negative, 0, mant);
    SingleIs(negative, e, (m % 0x400) * 0x2000);
    ShiftedIs(m, e - 137);
    assert 0x80_0000 + (m % 0x400) * 0x2000 == m * 0x2000;
    var sign := if negative then -1.0 else 1.0;
    SameWorth(sign, (m * 0x2000) as real, Pow2(e - 150), mant as real, Pow2(-24));
  }

  lemma SameWorth(sign: real, a: real, b: real, c: real, d: real)
    requires a * b == c * d
    ensures sign * a * b == sign * c * d
  {
    assert sign * a * b == sign * (a * b) && sign * c * d == sign * (c * d);
  }

  lemma SingleFits(negative: bool, exp: nat, mant: nat)
    requires exp < 256 && mant < 0x80_0000
    ensures SingleBits(negative, exp, mant) < TWO_32
  {
  }

  /** halfToSingle: zeros, infinities and what is not a number keep their fields, a
      normal number has its exponent biased anew, and a smaller one is shifted until
      its leading bit stands where the implicit one does. */
  method HalfToSingle(negative: bool, exp: nat, mant: nat) returns (single: nat)
    requires exp < 32 && mant < 0x400
    ensures FloatOf(single, 8, 23) == FloatOf(HalfBits(negative, exp, mant), 5, 10)
    ensures single < TWO_32
  {
    hide FloatOf, Pow2, Size2, SingleBits, HalfBits;
    SpecialIs(negative, mant);
    if exp == 0 {
      if mant == 0 {
        SingleFits(negative, 0, 0);
        return SingleBits(negative, 0, 0);
      }
      var e, m := 113, mant;
      SizeOfOne();
      while m < 0x400
        invariant 0 < m < 0x800 && 100 <= e <= 113 && Size2(113 - e) <= m
        invariant m as real * Pow2(e - 137) == mant as real * Pow2(-24)
        decreases 0x800 - m
      {
        Doubled(m, e);
        m := 2 * m;
        e := e - 1;
      }
      ShiftedUpIs(negative, mant, m, e);
      SingleFits(negative, e, (m % 0x400) * 0x2000);
      return SingleBits(negative, e, (m % 0x400) * 0x2000);
    }
    if exp == 31 {
      SingleFits(negative, 255, mant * 0x2000);
      return SingleBits(negative, 255, mant * 0x2000);
    }
    NormalIs(negative, exp, mant);
    SingleFits(negative, exp + 112, mant * 0x2000);
    return SingleBits(negative, exp + 112, mant * 0x2000);
  }

  lemma SizeOfOne()
    ensures Size2(0) == 1
  {
  }
}
