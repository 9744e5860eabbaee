/**
 Packing a 32-bit float to bf16 and to half precision, on bit patterns.
 Shifts and masks are written as quotients and remainders by powers of two.
 Values are exact integers in units of 2^-149, the smallest subnormal of the 32-bit format; an infinity counts as
 the power of two just above the largest finite number, which is how section 4.3.1 of IEEE 754-2019 rounds
 numbers too large for a format.
 */
module FloatCodec {
  import opened Arith

  const TWO16 := 0x1_0000
  const TWO23 := 0x80_0000
  const TWO31 := 0x8000_0000
  const TWO32 := 0x1_0000_0000
  /** Magnitude bits of the 32-bit infinity, and those of bf16 and half. */
  const F32_INF := 0x7f80_0000
  const BF16_INF := 0x7f80
  const HALF_INF := 0x7c00

  type Bits32 = u: nat | u < TWO32

  function Pow2(n: nat): (r: nat)
    ensures r > 0
  {
    if n == 0 then 1 else 2 * Pow2(n - 1)
  }

  lemma {:induction false} Pow2Add(a: nat, b: nat)
    ensures Pow2(a + b) == Pow2(a) * Pow2(b)
  {
    if a > 0 { Pow2Add(a - 1, b); }
  }

  lemma Pow2Double(n: nat)
    ensures Pow2(n + 1) == 2 * Pow2(n)
  {}

  lemma Pow2Small()
    ensures Pow2(13) == 8192 && Pow2(23) == TWO23
  {}

  function Magnitude(u: Bits32): nat { u % TWO31 }

  function Sign(u: Bits32): nat { u / TWO31 }

  function Abs(x: int): nat { if x < 0 then -x else x }

  // ---------------------------------------------------------------- values of bit patterns

  /** The value of a magnitude pattern of the 32-bit format. */
  function Value32(m: nat): nat {
    var e, f := m / TWO23, m % TWO23;
    if e == 0 then f else (TWO23 + f) * Pow2(e - 1)
  }

  /** The value of a magnitude pattern of the half format: 5 exponent bits, 10 fraction bits. */
  function ValueHalf(h: nat): nat {
    var e, f := h / 1024, h % 1024;
    if e == 0 then f * Pow2(125) else (1024 + f) * Pow2(e + 124)
  }

  /** The distance between neighbours in the binade of m. */
  function Ulp(m: nat): (r: nat)
    ensures r > 0
  {
    Pow2(if m / TWO23 == 0 then 0 else m / TWO23 - 1)
  }

  /** Values grow evenly up to and including the first pattern of the next binade. */
  lemma ValueLinear(m: nat, x: nat)
    requires m % TWO23 + x <= TWO23
    ensures Value32(m + x) == Value32(m) + x * Ulp(m)
  {
    var e, f := m / TWO23, m % TWO23;
    if f + x < TWO23 {
      DivModUnique(m + x, e, f + x, TWO23);
    } else {
      DivModUnique(m + x, e + 1, 0, TWO23);
    }
  }

  lemma {:induction false} Value32Increases(a: nat, b: nat)
    requires a < b
    ensures Value32(a) < Value32(b)
    decreases b
  {
    if a < b - 1 { Value32Increases(a, b - 1); }
    ValueLinear(b - 1, 1);
  }

  lemma ValueHalfStep(h: nat)
    ensures ValueHalf(h) < ValueHalf(h + 1)
  {
    hide Pow2;
    var e, f := h / 1024, h % 1024;
    if f + 1 < 1024 {
      DivModUnique(h + 1, e, f + 1, 1024);
      NextMultiple(f, Pow2(125));
      NextMultiple(1024 + f, Pow2(e + 124));
    } else {
      DivModUnique(h + 1, e + 1, 0, 1024);
      Pow2Double(e + 124);
      assert 1024 * Pow2(e + 125) == 2048 * Pow2(e + 124);
      NextMultiple(2047, Pow2(e + 124));
    }
  }

  lemma NextMultiple(a: nat, p: nat)
    ensures (a + 1) * p == a * p + p
  {}

  lemma {:induction false} ValueHalfIncreases(a: nat, b: nat)
    requires a < b
    ensures ValueHalf(a) < ValueHalf(b)
    decreases b
  {
    if a < b - 1 { ValueHalfIncreases(a, b - 1); }
    ValueHalfStep(b - 1);
  }

  /** A normal half is the 32-bit number with the rebiased exponent and the fraction padded by 13 bits. */
  lemma HalfIsWide(h: nat)
    requires h >= 1024
    ensures ValueHalf(h) == Value32(112 * TWO23 + h * 8192)
  {
    hide Pow2;
    var e, f := h / 1024, h % 1024;
    DivModSplit(h, 1024);
    DivModUnique(112 * TWO23 + h * 8192, 112 + e, f * 8192, TWO23);
    Pow2Add(13, e + 111);
    Pow2Small();
    Regroup(1024 + f, Pow2(e + 111));
  }

  lemma Regroup(a: nat, p: nat)
    ensures (a * 8192) * p == a * (8192 * p)
  {}

  // ---------------------------------------------------------------- rounding

  /** The multiple of the block that m rounds to: the nearer one, the even one when both are as near. */
  function RoundEven(m: nat, block: nat): nat
    requires block > 0
  {
    var q, x := m / block, m % block;
    if 2 * x < block || (2 * x == block && q % 2 == 0) then q else q + 1
  }

  /** r is the pattern nearest to v among those up to top, and the even one of two nearest. */
  ghost predicate CorrectlyRounded(value: nat -> nat, top: nat, v: nat, r: nat) {
    && r <= top
    && forall c {:trigger value(c)} :: 0 <= c <= top ==>
         && Abs(value(r) - v) <= Abs(value(c) - v)
         && (c != r && Abs(value(r) - v) == Abs(value(c) - v) ==> r % 2 == 0)
  }

  ghost predicate Increasing(value: nat -> nat, top: nat) {
    forall a, b {:trigger value(a), value(b)} :: 0 <= a < b <= top ==> value(a) < value(b)
  }

  /** Where values grow evenly between two neighbours, rounding the pattern rounds the value. */
  lemma BlockRounds(value: nat -> nat, top: nat, q: nat, x: nat, block: nat, ulp: nat, m: nat)
    requires Increasing(value, top) && q + 1 <= top && 0 <= x < block && ulp > 0
    requires value(q + 1) == value(q) + block * ulp
    requires m / block == q && m % block == x
    ensures CorrectlyRounded(value, top, value(q) + x * ulp, RoundEven(m, block))
  {
    var v := value(q) + x * ulp;
    var r := RoundEven(m, block);
    var down, up := x * ulp, (block - x) * ulp;
    assert down + up == block * ulp;
    CompareTimes(x, block - x, ulp);
    RoundChoice(m, block);
    hide RoundEven;
    forall c | 0 <= c <= top
      ensures Abs(value(r) - v) <= Abs(value(c) - v)
      ensures c != r && Abs(value(r) - v) == Abs(value(c) - v) ==> r % 2 == 0
    {
      if c < q { assert value(c) < value(q); }
      if c > q + 1 { assert value(q + 1) < value(c); }
    }
  }

  lemma RoundChoice(m: nat, block: nat)
    requires block > 0
    ensures var q, x, r := m / block, m % block, RoundEven(m, block);
            && (x < block - x ==> r == q)
            && (x > block - x ==> r == q + 1)
            && (x == block - x ==> r % 2 == 0 && (r == q || r == q + 1))
  {}

  lemma CompareTimes(a: nat, b: nat, c: nat)
    requires c > 0
    ensures a < b ==> a * c < b * c
    ensures a > b ==> a * c > b * c
  {
    MulLe(a + 1, b, c);
    MulLe(b + 1, a, c);
  }

  lemma RoundEvenMonotone(a: nat, b: nat, block: nat)
    requires block > 0 && a <= b
    ensures RoundEven(a, block) <= RoundEven(b, block)
  {
    DivModSplit(a, block);
    DivModSplit(b, block);
    MulLe(b / block + 1, a / block, block);
  }

  // ---------------------------------------------------------------- bf16

  /** Adds just under half a unit, plus one if the kept part is odd, and drops the low 16 bits. */
  function F32ToBf16Bits(u: Bits32): nat {
    var bias := (u / TWO16) % 2 + 0x7fff;
    ((u + bias) / TWO16) % TWO16
  }

  /** The value of a bf16 magnitude: the 32-bit number with 16 zero bits appended. */
  function ValueBf16(b: nat): nat { Value32(b * TWO16) }

  /** For every pattern, NaNs included; the truncation to 16 bits matters only when rounding overflows the magnitude. */
  lemma Bf16IsRoundEven(u: Bits32)
    ensures F32ToBf16Bits(u) == (Sign(u) * 0x8000 + RoundEven(Magnitude(u), TWO16)) % TWO16
    ensures RoundEven(Magnitude(u), TWO16) <= 0x8000
    ensures Magnitude(u) <= F32_INF ==>
              RoundEven(Magnitude(u), TWO16) <= BF16_INF &&
              F32ToBf16Bits(u) == Sign(u) * 0x8000 + RoundEven(Magnitude(u), TWO16)
  {
    hide RoundEven;
    var s, q, x := Sign(u), Magnitude(u) / TWO16, Magnitude(u) % TWO16;
    var k := s * 0x8000 + q;
    DivModUnique(u, k, x, TWO16);
    AddAndDrop(k, x);
    SameParity(s, q);
    RoundEvenIs(q, x);
    assert Magnitude(u) == q * TWO16 + x;
  }

  lemma SameParity(s: nat, q: nat)
    ensures (s * 0x8000 + q) % 2 == q % 2
  {}

  /** Adding the bias carries into the kept part exactly above half, or at half when the kept part is odd. */
  lemma AddAndDrop(k: nat, x: nat)
    requires x < TWO16
    ensures (k * TWO16 + x + k % 2 + 0x7fff) / TWO16 == if x > 0x8000 || (x == 0x8000 && k % 2 == 1) then k + 1 else k
  {
    var bias := k % 2 + 0x7fff;
    if x + bias < TWO16 {
      DivModUnique(k * TWO16 + x + bias, k, x + bias, TWO16);
    } else {
      DivModUnique(k * TWO16 + x + bias, k + 1, x + bias - TWO16, TWO16);
    }
  }

  lemma RoundEvenIs(q: nat, x: nat)
    requires x < TWO16
    ensures RoundEven(q * TWO16 + x, TWO16) == if x > 0x8000 || (x == 0x8000 && q % 2 == 1) then q + 1 else q
  {
    DivModUnique(q * TWO16 + x, q, x, TWO16);
  }

  lemma Bf16Increases()
    ensures Increasing(ValueBf16, BF16_INF)
  {
    forall a, b | 0 <= a < b <= BF16_INF ensures ValueBf16(a) < ValueBf16(b) {
      Value32Increases(a * TWO16, b * TWO16);
    }
  }

  /** Every finite number keeps its sign and goes to the nearest bf16, ties to even, overflowing to infinity. */
  lemma Bf16Rounds(u: Bits32)
    requires Magnitude(u) < F32_INF
    ensures F32ToBf16Bits(u) / 0x8000 == Sign(u)
    ensures CorrectlyRounded(ValueBf16, BF16_INF, Value32(Magnitude(u)), F32ToBf16Bits(u) % 0x8000)
  {
    hide Value32, F32ToBf16Bits, RoundEven, CorrectlyRounded, Increasing;
    var m := Magnitude(u);
    var q, x := m / TWO16, m % TWO16;
    Bf16IsRoundEven(u);
    DivModUnique(F32ToBf16Bits(u), Sign(u), RoundEven(m, TWO16), 0x8000);
    Bf16Increases();
    ValueLinear(q * TWO16, x);
    ValueLinear(q * TWO16, TWO16);
    assert (q + 1) * TWO16 == q * TWO16 + TWO16;
    BlockRounds(ValueBf16, BF16_INF, q, x, TWO16, Ulp(q * TWO16), m);
  }

  /** A larger magnitude never becomes a smaller one. */
  lemma Bf16Monotone(u: Bits32, w: Bits32)
    requires Magnitude(u) <= Magnitude(w) <= F32_INF
    ensures F32ToBf16Bits(u) % 0x8000 <= F32ToBf16Bits(w) % 0x8000
  {
    hide F32ToBf16Bits, RoundEven;
    Bf16IsRoundEven(u);
    Bf16IsRoundEven(w);
    DivModUnique(F32ToBf16Bits(u), Sign(u), RoundEven(Magnitude(u), TWO16), 0x8000);
    DivModUnique(F32ToBf16Bits(w), Sign(w), RoundEven(Magnitude(w), TWO16), 0x8000);
    RoundEvenMonotone(Magnitude(u), Magnitude(w), TWO16);
  }

  /** Packing undoes the widening of a bf16 pattern, whatever its sign, NaNs included. */
  lemma Bf16Identity(b: nat)
    requires b < TWO16
    ensures F32ToBf16Bits(b * TWO16) == b
  {
    var u := b * TWO16;
    DivModUnique(u, b, 0, TWO16);
    DivModUnique(u + b % 2 + 0x7fff, b, b % 2 + 0x7fff, TWO16);
  }

  /**
   A NaN stays a NaN exactly when its payload neither rounds down to infinity nor carries out of the magnitude;
   the payloads that carry out come back as a zero of the opposite sign.
   */
  lemma Bf16NanIff(u: Bits32)
    requires Magnitude(u) > F32_INF
    ensures F32ToBf16Bits(u) % 0x8000 > BF16_INF <==> 0x7f80_8000 < Magnitude(u) < 0x7fff_8000
    ensures Magnitude(u) <= 0x7f80_8000 ==> F32ToBf16Bits(u) == Sign(u) * 0x8000 + BF16_INF
    ensures Magnitude(u) >= 0x7fff_8000 ==> F32ToBf16Bits(u) == (1 - Sign(u)) * 0x8000
  {
    hide F32ToBf16Bits;
    Bf16IsRoundEven(u);
  }

  // ---------------------------------------------------------------- half

  /** What the packer makes of a magnitude: zero below, infinity above, rounding between. */
  function HalfMagnitude(m: nat): nat {
    if m < 113 * TWO23 then 0
    else if m >= 143 * TWO23 then HALF_INF
    else RoundEven(m - 112 * TWO23, 8192)
  }

  /** The exponent and fraction fields make up the magnitude. */
  lemma Fields(bits: Bits32)
    ensures Magnitude(bits) == ((bits / TWO23) % 256) * TWO23 + bits % TWO23
  {
    var e := bits / TWO23;
    DivModSplit(bits, TWO23);
    DivModUnique(bits, e / 256, (e % 256) * TWO23 + bits % TWO23, TWO31);
  }

  /** The bit just below the kept ones, together with the rest or the last kept bit, decides as RoundEven does. */
  lemma RoundBit(e: nat, mant: nat)
    requires mant < TWO23
    ensures RoundEven(e * TWO23 + mant, 8192) == e * 1024 + mant / 8192 +
            if (mant / 4096) % 2 != 0 && (mant % 4096 != 0 || (mant / 8192) % 2 != 0) then 1 else 0
  {
    var q, x := mant / 8192, mant % 8192;
    DivModUnique(e * TWO23 + mant, e * 1024 + q, x, 8192);
    DivModUnique(e * 1024 + q, e * 512 + q / 2, q % 2, 2);
    if x < 4096 {
      DivModUnique(mant, 2 * q, x, 4096);
      DivModUnique(mant / 4096, q, 0, 2);
    } else {
      DivModUnique(mant, 2 * q + 1, x - 4096, 4096);
      DivModUnique(mant / 4096, q, 1, 2);
    }
  }

  method HalfFromF32(bits: Bits32) returns (out: nat)
    ensures out == Sign(bits) * 0x8000 + HalfMagnitude(Magnitude(bits))
  {
    var sign := (bits / TWO31) * 0x8000;
    var exp := (bits / TWO23) % 256 - 127 + 15;
    var mant := bits % TWO23;
    Fields(bits);
    if exp <= 0 {
      return sign;
    } else if exp >= 0x1f {
      return sign + 0x7c00;
    }
    var mant10 := mant / 8192;
    var round := (mant / 4096) % 2 != 0 && (mant % 4096 != 0 || mant10 % 2 != 0);
    out := sign + exp * 1024 + mant10;
    RoundBit(exp, mant);
    if round {
      out := out + 1;
      if (out / 1024) % 32 == 31 { exp := exp + 1; }
    }
  }

  lemma HalfIncreases()
    ensures Increasing(ValueHalf, HALF_INF)
  {
    forall a, b | 0 <= a < b <= HALF_INF ensures ValueHalf(a) < ValueHalf(b) {
      ValueHalfIncreases(a, b);
    }
  }

  lemma HalfMiddle(m: nat)
    requires 113 * TWO23 <= m < 143 * TWO23
    ensures CorrectlyRounded(ValueHalf, HALF_INF, Value32(m), HalfMagnitude(m))
  {
    hide Value32, ValueHalf;
    var rest := m - 112 * TWO23;
    var q, x := rest / 8192, rest % 8192;
    HalfIncreases();
    HalfIsWide(q);
    HalfIsWide(q + 1);
    var base := 112 * TWO23 + q * 8192;
    ValueLinear(base, x);
    ValueLinear(base, 8192);
    assert 112 * TWO23 + (q + 1) * 8192 == base + 8192;
    BlockRounds(ValueHalf, HALF_INF, q, x, 8192, Ulp(base), rest);
  }

  lemma HalfTop(m: nat)
    requires m >= 143 * TWO23
    ensures CorrectlyRounded(ValueHalf, HALF_INF, Value32(m), HALF_INF)
  {
    hide Value32, ValueHalf;
    HalfIncreases();
    HalfIsWide(HALF_INF);
    if m > 143 * TWO23 { Value32Increases(143 * TWO23, m); }
    forall c | 0 <= c <= HALF_INF
      ensures Abs(ValueHalf(HALF_INF) - Value32(m)) <= Abs(ValueHalf(c) - Value32(m))
      ensures c != HALF_INF ==> Abs(ValueHalf(HALF_INF) - Value32(m)) < Abs(ValueHalf(c) - Value32(m))
    {
      if c < HALF_INF { assert ValueHalf(c) < ValueHalf(HALF_INF); }
    }
  }

  lemma SmallValues()
    ensures ValueHalf(0) == 0 && ValueHalf(1) == Pow2(125) == 2 * Pow2(124) && Value32(102 * TWO23) == Pow2(124)
  {
    hide Pow2;
    Pow2Add(23, 101);
    Pow2Small();
    Pow2Double(124);
    DivModUnique(102 * TWO23, 102, 0, TWO23);
  }

  lemma HalfBottom(m: nat)
    ensures CorrectlyRounded(ValueHalf, HALF_INF, Value32(m), 0) <==> m <= 102 * TWO23
  {
    hide Value32, ValueHalf, Pow2;
    SmallValues();
    HalfIncreases();
    if m > 102 * TWO23 {
      Value32Increases(102 * TWO23, m);
      assert Abs(ValueHalf(1) - Value32(m)) < Abs(ValueHalf(0) - Value32(m));
    } else {
      if m < 102 * TWO23 { Value32Increases(m, 102 * TWO23); }
      forall c | 0 <= c <= HALF_INF
        ensures Abs(ValueHalf(0) - Value32(m)) <= Abs(ValueHalf(c) - Value32(m))
      {
        if c > 1 { assert ValueHalf(1) < ValueHalf(c); }
      }
    }
  }

  /** The packer rounds a finite number correctly exactly when it is at most 2^-25 or at least 2^-14 in magnitude. */
  lemma HalfRoundsIff(u: Bits32)
    requires Magnitude(u) < F32_INF
    ensures CorrectlyRounded(ValueHalf, HALF_INF, Value32(Magnitude(u)), HalfMagnitude(Magnitude(u))) <==>
            Magnitude(u) <= 102 * TWO23 || Magnitude(u) >= 113 * TWO23
  {
    hide CorrectlyRounded;
    var m := Magnitude(u);
    if m < 113 * TWO23 {
      HalfBottom(m);
    } else if m < 143 * TWO23 {
      HalfMiddle(m);
    } else {
      HalfTop(m);
    }
  }

  /** A concrete miss: 2^-24 is a half subnormal, yet it is flushed to zero. */
  lemma FlushMisses()
    ensures var m := 103 * TWO23;
            HalfMagnitude(m) == 0 && Value32(m) == ValueHalf(1) && !CorrectlyRounded(ValueHalf, HALF_INF, Value32(m), 0)
  {
    hide Pow2, CorrectlyRounded, ValueHalf;
    HalfBottom(103 * TWO23);
    SmallValues();
    Pow2Add(23, 102);
    Pow2Small();
    DivModUnique(103 * TWO23, 103, 0, TWO23);
  }

  // ---------------------------------------------------------------- widening halves

  lemma {:induction false} Pow2Grows(a: nat, b: nat)
    requires a <= b
    ensures Pow2(a) <= Pow2(b)
  {
    if a < b { Pow2Grows(a, b - 1); }
  }

  /** A half subnormal as a normal 32-bit number: the fraction is doubled until its top bit is the implicit one. */
  function Normalised(f: nat, doublings: nat): nat
    requires Pow2(doublings) <= f < 2048
    decreases 2048 - f
  {
    Pow2Double(doublings);
    FewDoublings(f, doublings);
    if f >= 1024 then (113 - doublings) * TWO23 + (f - 1024) * 8192 else Normalised(2 * f, doublings + 1)
  }

  lemma FewDoublings(f: nat, doublings: nat)
    requires Pow2(doublings) <= f < 2048
    ensures doublings <= 10
  {
    if doublings > 10 { Pow2Grows(11, doublings); }
  }

  /** The 32-bit magnitude of a half magnitude, infinity and NaNs included. */
  function WidenHalfMagnitude(h: nat): nat {
    if h == 0 then 0
    else if h < 1024 then Normalised(h, 0)
    else if h < HALF_INF then 112 * TWO23 + h * 8192
    else F32_INF + (h - HALF_INF) * 8192
  }

  lemma {:induction false} NormalisedValue(f: nat, doublings: nat)
    requires Pow2(doublings) <= f < 2048
    ensures doublings <= 10 && Value32(Normalised(f, doublings)) == f * Pow2(125 - doublings)
    decreases 2048 - f
  {
    hide Value32;
    FewDoublings(f, doublings);
    Pow2Double(doublings);
    if f >= 1024 {
      NormalisedDone(f, 113 - doublings);
    } else {
      NormalisedValue(2 * f, doublings + 1);
      Pow2Double(124 - doublings);
      Doubling(f, Pow2(124 - doublings));
    }
  }

  lemma Doubling(f: nat, p: nat)
    ensures (2 * f) * p == f * (2 * p)
  {}

  lemma NormalisedDone(f: nat, e: nat)
    requires 1024 <= f < 2048 && e > 0
    ensures Value32(e * TWO23 + (f - 1024) * 8192) == f * Pow2(e + 12)
  {
    hide Pow2;
    DivModUnique(e * TWO23 + (f - 1024) * 8192, e, (f - 1024) * 8192, TWO23);
    Pow2Add(13, e - 1);
    Pow2Small();
    Regroup(f, Pow2(e - 1));
  }

  /** Widening keeps the value of every finite half, subnormals included. */
  lemma WidenKeepsValue(h: nat)
    requires h < HALF_INF
    ensures Value32(WidenHalfMagnitude(h)) == ValueHalf(h)
  {
    hide Value32, ValueHalf, Pow2;
    if h >= 1024 {
      HalfIsWide(h);
    } else {
      SmallHalf(h);
      One();
      if h > 0 { NormalisedValue(h, 0); }
    }
  }

  lemma One()
    ensures Pow2(0) == 1
  {}

  lemma SmallHalf(h: nat)
    requires h < 1024
    ensures ValueHalf(h) == h * Pow2(125) && Value32(0) == 0
  {
    hide Pow2;
  }

  /** Magnitudes that are halves already: zero, infinity, and normal halves padded by 13 zero bits. */
  predicate IsHalf(m: nat) {
    m == 0 || m == F32_INF || (113 * TWO23 <= m < 143 * TWO23 && m % 8192 == 0)
  }

  /** Rounding to half and widening again gives a magnitude back exactly if it is zero, infinite or a normal half. */
  lemma WidenUndoesHalfIff(m: nat)
    requires m < TWO31
    ensures HalfMagnitude(m) <= HALF_INF
    ensures WidenHalfMagnitude(HalfMagnitude(m)) == m <==> IsHalf(m)
  {
    if 113 * TWO23 <= m < 143 * TWO23 {
      var rest := m - 112 * TWO23;
      var q, x := rest / 8192, rest % 8192;
      DivModSplit(rest, 8192);
      DivModUnique(m, 112 * 1024 + q, x, 8192);
      var r := RoundEven(rest, 8192);
      assert q <= r <= q + 1 && (x == 0 ==> r == q);
      hide RoundEven;
    }
  }
}
