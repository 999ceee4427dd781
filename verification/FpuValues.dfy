/** The formats that drivers/FPU-emu reads and writes, and the rounding modes, in literal words. */
module FpuValues {

  import opened Bits
  import opened FpuRound
  import D = FpuStore
  import S = FpuSingle
  import opened FpuBcd
  import opened FpuState

  // ---- rounding ----------------------------------------------------------------------------

  /** Two and a half and one and a half, rounded in every mode. */
  lemma {:induction false} RoundedHalves(m: nat)
    ensures Rounded(Nearest, false, 5, 1, m) <==> m == 2
    ensures Rounded(Nearest, true, 3, 1, m) <==> m == 2
    ensures Rounded(Down, false, 5, 1, m) <==> m == 2
    ensures Rounded(Down, true, 5, 1, m) <==> m == 3
    ensures Rounded(Up, false, 5, 1, m) <==> m == 3
    ensures Rounded(Up, true, 5, 1, m) <==> m == 2
    ensures Rounded(Chop, true, 5, 1, m) <==> m == 2
  {
    ShlByOne(m);
    ShlByOne(m + 1);
    if m > 0 {
      ShlByOne(m - 1);
    }
    assert Pow2(1) == 2;
    hide Shl, Pow2;
  }

  // ---- doubles and singles -----------------------------------------------------------------

  /** The words of a double: a sign, eleven bits of exponent and 52 of fraction. */
  lemma {:induction false} DoubleFields(sign: bool, e: nat, f: nat)
    requires e < 2048 && f < 0x10_0000_0000_0000
    ensures var lo, hi := f % 0x1_0000_0000, (if sign then 0x8000_0000 else 0) + e * 0x10_0000 + f / 0x1_0000_0000;
      && (D.Sign(hi) <==> sign) && D.Exponent(hi) == e && D.Fraction(lo, hi) == f
      && D.DoubleValue(lo, hi) == if e == 0 then f else Shl(0x10_0000_0000_0000 + f, e - 1)
  {
    var s, t := if sign then 1 else 0, f / 0x1_0000_0000;
    var hi := s * 0x8000_0000 + e * 0x10_0000 + t;
    assert hi / 0x10_0000 == s * 2048 + e && hi % 0x10_0000 == t;
    assert hi / 0x8000_0000 == s;
    hide Shl;
  }

  /** One is 2^1074 times the smallest double. */
  lemma {:induction false} DoubleOne()
    ensures D.DoubleValue(0, 0x3ff0_0000) == Pow2(1074) && D.DoubleValue(1, 0) == 1
    ensures !D.Sign(0x3ff0_0000) && D.Sign(0xbff0_0000)
  {
    hide Shl, Pow2, D.DoubleValue, D.Sign;
    DoubleFields(false, 1023, 0);
    DoubleFields(true, 1023, 0);
    DoubleFields(false, 0, 1);
    Fifty(52);
    Pow2IsShl(52);
    ShlMore(1, 52, 1022);
    Pow2IsShl(1074);
  }

  lemma {:induction false} Fifty(n: nat)
    requires n == 52
    ensures Pow2(n) == 0x10_0000_0000_0000 && Pow2(53) == 0x20_0000_0000_0000 && Pow2(23) == 0x80_0000
    ensures Pow2(24) == 0x100_0000
  {
    PowerIs(16);
    PowerIs(8);
    PowerIs(4);
    Pow2Add(16, 16);
    Pow2Add(32, 16);
    Pow2Add(48, 4);
    Pow2Add(52, 1);
    Pow2Add(16, 8);
    PowerIs(1);
    PowerIs(7);
    Pow2Add(16, 7);
    hide Pow2;
  }

  lemma {:induction false} Pow2Add(a: nat, b: nat)
    ensures Pow2(a + b) == Pow2(a) * Pow2(b)
  {
    ShlMore(1, a, b);
    ShlMul(Pow2(a), b);
  }

  /** A register of exponent `exp` counts units of 2^(exp - 63). A double of that size keeps 53 of its 64 bits, or
      all from 2^-1074 up. */
  lemma {:induction false} DoubleScale(exp: int)
    ensures D.DoublePlace(exp) - 1074 == exp - 63 + D.DoubleLost(exp)
    ensures exp >= -1022 ==> D.DoubleLost(exp) == 64 - 53
    ensures exp < -1022 ==> D.DoublePlace(exp) == 0
  {
  }

  /** A rounded number overflows when it is 2^1024 or more. */
  lemma {:induction false} DoubleOverflow(exp: int, m: nat)
    requires exp >= -1022 && 0x10_0000_0000_0000 <= m <= 0x20_0000_0000_0000
    ensures D.Overflows(exp, m) <==> Shl(m, D.DoublePlace(exp)) >= Pow2(1074 + 1024)
  {
    hide Shl, Pow2;
    Fifty(52);
    TooLarge(m, 52, exp, 1022, 1023);
  }

  /** A number of `w + 1` bits, or the next power of two, whose lowest bit is worth `2^(exp + bias)`. */
  lemma {:induction false} TooLarge(m: nat, w: nat, exp: int, bias: nat, top: nat)
    requires exp + bias >= 0 && Pow2(w) <= m <= Pow2(w + 1) && top > 0
    ensures exp > top || (exp == top && m == Pow2(w + 1)) <==> Shl(m, exp + bias) >= Pow2(w + bias + top + 1)
  {
    var k, limit := exp + bias, w + bias + top + 1;
    Pow2IsShl(w);
    Pow2IsShl(w + 1);
    ShlMore(1, w, k);
    ShlMore(1, w + 1, k);
    Pow2IsShl(w + k);
    Pow2IsShl(w + 1 + k);
    ShlOrder(Pow2(w), m, k);
    ShlOrder(m, Pow2(w + 1), k);
    ShlOrder(Pow2(w + 1), m, k);
    hide Shl, Pow2;
    if exp > top {
      Pow2Mono(limit, w + k);
    } else if exp == top {
    } else {
      Pow2Mono(w + 1 + k, limit);
    }
  }

  /** Quieting a NaN sets the top bit of its fraction and nothing else. */
  lemma {:induction false} QuietBit(f: nat)
    requires f < 0x10_0000_0000_0000
    ensures D.Quiet(f) % 0x8_0000_0000_0000 == f % 0x8_0000_0000_0000
    ensures D.Quiet(f) / 0x8_0000_0000_0000 == 1
    ensures f < 0x80_0000 ==> S.Quiet(f) % 0x40_0000 == f % 0x40_0000 && S.Quiet(f) / 0x40_0000 == 1
  {
  }

  /** A single: a sign, eight bits of exponent and 23 of fraction. */
  lemma {:induction false} SingleFields(sign: bool, e: nat, f: nat)
    requires e < 256 && f < 0x80_0000
    ensures var w := (if sign then 0x8000_0000 else 0) + e * 0x80_0000 + f;
      && (S.Sign(w) <==> sign) && S.Exponent(w) == e && S.Fraction(w) == f
      && S.SingleValue(w) == if e == 0 then f else Shl(0x80_0000 + f, e - 1)
  {
    var s := if sign then 1 else 0;
    var w := s * 0x8000_0000 + e * 0x80_0000 + f;
    assert w / 0x80_0000 == s * 256 + e && w % 0x80_0000 == f;
    assert w / 0x8000_0000 == s;
    hide Shl;
  }

  lemma {:induction false} SingleOne()
    ensures S.SingleValue(0x3f80_0000) == Pow2(149) && S.SingleValue(1) == 1
    ensures !S.Sign(0x3f80_0000) && S.Sign(0xbf80_0000)
  {
    hide Shl, Pow2, S.SingleValue, S.Sign;
    SingleFields(false, 127, 0);
    SingleFields(true, 127, 0);
    SingleFields(false, 0, 1);
    Fifty(52);
    Pow2IsShl(23);
    ShlMore(1, 23, 126);
    Pow2IsShl(149);
  }

  lemma {:induction false} SingleScale(exp: int)
    ensures S.SinglePlace(exp) - 149 == exp - 63 + S.SingleLost(exp)
    ensures exp >= -126 ==> S.SingleLost(exp) == 64 - 24
    ensures exp < -126 ==> S.SinglePlace(exp) == 0
  {
  }

  lemma {:induction false} SingleOverflow(exp: int, m: nat)
    requires exp >= -126 && 0x80_0000 <= m <= 0x100_0000
    ensures S.Overflows(exp, m) <==> Shl(m, S.SinglePlace(exp)) >= Pow2(149 + 128)
  {
    hide Shl, Pow2;
    Fifty(52);
    TooLarge(m, 23, exp, 126, 127);
  }

  // ---- ten-byte formats --------------------------------------------------------------------

  /** A normal ten-byte real: sixteen bits of sign and exponent, biased by 16383, and 64 of significand. */
  lemma {:induction false} ExtendedForm(sign: bool, e: nat, hi: nat, lo: nat)
    requires 0 < e < 0x7fff && 0x8000_0000 <= hi < 0x1_0000_0000 && lo < 0x1_0000_0000
    ensures Loaded(lo, hi, e + if sign then 0x8000 else 0) == Content(sign, Valid, e - 16383, hi, lo)
  {
  }

  /** One, the two zeros, infinity, the indefinite NaN, and two unsupported forms. */
  lemma {:induction false} ExtendedValues()
    ensures Loaded(0, 0x8000_0000, 0x3fff) == Content(false, Valid, 0, 0x8000_0000, 0)
    ensures Loaded(0, 0, 0) == Content(false, Zero, -0x3fff, 0, 0)
    ensures Loaded(0, 0, 0x8000) == Content(true, Zero, -0x3fff, 0, 0)
    ensures Loaded(0, 0x8000_0000, 0x7fff) == Content(false, Infinity, 0x4000, 0x8000_0000, 0)
    ensures Loaded(0, 0xc000_0000, 0xffff) == Content(true, NaN, 0x4000, 0xc000_0000, 0)
    ensures Loaded(0, 0x7fff_ffff, 0x3fff) == Loaded(0, 0, 0x7fff) == Content(true, NaN, 0x4000, 0x8000_0000, 1)
  {
    hide Lead, Shl;
  }

  /** The smallest real is 2^-16445. */
  lemma {:induction false} ExtendedLeast()
    ensures Loaded(1, 0, 0) == Content(false, Valid, -16445, 0x8000_0000, 0)
  {
    hide Shl, Pow2, Lead;
    Pow2IsShl(63);
    PowerIs(16);
    PowerIs(15);
    Pow2Add(16, 16);
    Pow2Add(32, 16);
    Pow2Add(48, 15);
    LeadIs(1, 63);
  }

  /** What is written of a normal number. */
  lemma {:induction false} WrittenForm(rc: Rc, r: Content, lo: nat, hi: nat, e: nat)
    requires Normalised(r) && r.exp > -16383 && Written(rc, r, lo, hi, e)
    ensures e == r.exp + 16383 + (if r.sign then 0x8000 else 0) && hi == r.sigh && lo == r.sigl
  {
  }

  lemma {:induction false} TenBytes()
    ensures Pair(0x21) == 21 && Pair(0x43) == 43 && Pair(0x65) == 65 && Pair(0x87) == 87 && Pair(0x09) == 9
    ensures Pair(0x34) == 34 && Pair(0x12) == 12 && Pair(0x78) == 78 && Pair(0x56) == 56 && Pair(0x99) == 99
  {
  }

  /** Digits are written two to a byte, the lower one in the low half, lower bytes first. */
  lemma {:induction false} BcdValue()
    ensures Value([0x21, 0x43, 0x65, 0x87, 0x09, 0x34, 0x12, 0x78, 0x56]) == 56_78_12_34_09_87_65_43_21
  {
    hide Value, Pair;
    TenBytes();
    ValueMany([0x21, 0x43, 0x65, 0x87, 0x09, 0x34, 0x12, 0x78, 0x56]);
  }

  lemma {:induction false} BcdMost()
    ensures Value([0x99, 0x99, 0x99, 0x99, 0x99, 0x99, 0x99, 0x99, 0x99]) == 999_999_999_999_999_999 == MOST
  {
    hide Value, Pair;
    TenBytes();
    ValueMany([0x99, 0x99, 0x99, 0x99, 0x99, 0x99, 0x99, 0x99, 0x99]);
  }

  lemma {:induction false} ValueMany(s: seq<nat>)
    requires |s| == 9
    ensures Value(s) == Pair(s[0]) + 100 * Pair(s[1]) + 10_000 * Pair(s[2]) + 1_000_000 * Pair(s[3])
                        + 100_000_000 * Pair(s[4]) + 10_000_000_000 * Pair(s[5]) + 1_000_000_000_000 * Pair(s[6])
                        + 100_000_000_000_000 * Pair(s[7]) + 10_000_000_000_000_000 * Pair(s[8])
  {
    hide Pair;
    assert Value(s) == Pair(s[0]) + 100 * Value(s[1..]);
    assert Value(s[1..]) == Pair(s[1]) + 100 * Value(s[2..]);
    assert Value(s[2..]) == Pair(s[2]) + 100 * Value(s[3..]);
    assert Value(s[3..]) == Pair(s[3]) + 100 * Value(s[4..]);
    assert Value(s[4..]) == Pair(s[4]) + 100 * Value(s[5..]);
    assert Value(s[5..]) == Pair(s[5]) + 100 * Value(s[6..]);
    assert Value(s[6..]) == Pair(s[6]) + 100 * Value(s[7..]);
    assert Value(s[7..]) == Pair(s[7]) + 100 * Value(s[8..]);
    assert Value(s[8..]) == Pair(s[8]) + 100 * Value(s[9..]);
  }

  /** The indefinite value of the decimal format is the negative quiet NaN of the ten-byte reals: the sign and the
      whole exponent set, then two ones and 62 zeros; its bytes are no digits. */
  lemma {:induction false} IndefiniteForm()
    ensures var s := Indefinite();
      && |s| == 10 && s[8] + 0x100 * s[9] == 0x8000 + 0x7fff
      && s[4] + 0x100 * s[5] + 0x1_0000 * s[6] + 0x100_0000 * s[7] == 0xc000_0000
      && s[0] + 0x100 * s[1] + 0x1_0000 * s[2] + 0x100_0000 * s[3] == 0
      && Loaded(0, 0xc000_0000, 0xffff).tag == NaN && !Digits(s[7])
  {
    ExtendedValues();
  }
}
