/** reg_store_double of drivers/FPU-emu/reg_ld_str.c, with all exceptions
    masked: what is stored is the register's value, correctly rounded.
 */
module FpuStore {

  import opened Bits
  import opened FpuRound

  // ---- what a stored double is -------------------------------------------------------------

  function Sign(hi: nat): bool { hi / 0x8000_0000 % 2 == 1 }
  function Exponent(hi: nat): nat { hi / 0x10_0000 % 0x800 }
  function Fraction(lo: nat, hi: nat): nat { hi % 0x10_0000 * W32 + lo }

  const TWO52: nat := 0x10_0000_0000_0000

  /** The magnitude of a finite double, in units of 2^-1074. */
  function DoubleValue(lo: nat, hi: nat): nat
  {
    if Exponent(hi) == 0 then Fraction(lo, hi) else Shl(TWO52 + Fraction(lo, hi), Exponent(hi) - 1)
  }

  /** The register's last place in a double of its size, as a power of two above 2^-1074; and the
      bits of its significand below that place. */
  function DoublePlace(exp: int): nat { if exp < -1022 then 0 else exp + 1022 }
  function DoubleLost(exp: int): nat { if exp < -1022 then -1011 - exp else 11 }

  // ---- eleven bits -------------------------------------------------------------------------

  lemma {:induction false} ShlEleven(m: nat)
    ensures Shl(m, 11) == 2048 * m && Pow2(11) == 2048
  {
    ShlFive(m);
    ShlFive(32 * m);
    ShlMore(m, 5, 5);
    ShlMore(m, 10, 1);
    hide Shl;
    ShlByOne(1024 * m);
  }

  lemma {:induction false} ShlFive(m: nat)
    ensures Shl(m, 5) == 32 * m
  {
    assert Shl(m, 1) == 2 * m;
    assert Shl(m, 2) == 4 * m;
    assert Shl(m, 3) == 8 * m;
    assert Shl(m, 4) == 16 * m;
  }

  /** Storing a double loses the low eleven bits; lines 540-554 decide by them as GoesUp does. */
  lemma {:induction false} DoubleBits(sigh: nat, sigl: nat)
    requires sigl < W32
    ensures var x, f := sigh * W32 + sigl, sigl % 2048;
      && Drop(x, 11) == sigh * 0x20_0000 + sigl / 2048
      && Half(x, 11) == (f >= 1024) && Below(x, 11) == (f % 1024 != 0)
      && Drop(x, 11) % 2 == sigl / 2048 % 2
  {
    hide Shl, Pow2, Drop, Half, Below;
    var x, d, f := sigh * W32 + sigl, sigh * 0x20_0000 + sigl / 2048, sigl % 2048;
    TenBits(2 * d + f / 1024);
    assert sigl == 2048 * (sigl / 2048) + f && f == 1024 * (f / 1024) + f % 1024;
    assert x == f % 1024 + 1024 * (2 * d + f / 1024);
    Parts(x, 11, d, f / 1024, f % 1024);
    TwoTimes(sigh * 0x10_0000, sigl / 2048);
  }

  /** More than half, or at least half and odd (lines 542-543). */
  lemma {:induction false} NearestUp(sigl: nat, f: nat)
    requires f == sigl % 2048
    ensures f > 1024 || sigl / 1024 % 4 == 3 <==> f >= 1024 && (f % 1024 != 0 || sigl / 2048 % 2 == 1)
    ensures f != 0 <==> f >= 1024 || f % 1024 != 0
  {
    var a, h, e := sigl / 2048, f / 1024, f % 1024;
    assert f == 1024 * h + e && h < 2;
    NextBits(a, h, e, sigl);
  }

  /** The two bits above bit ten. */
  lemma {:induction false} NextBits(a: nat, h: nat, e: nat, sigl: nat)
    requires h < 2 && e < 1024 && sigl == 2048 * a + 1024 * h + e
    ensures sigl / 1024 % 4 == 3 <==> h == 1 && a % 2 == 1
  {
    assert sigl / 1024 == 2 * a + h;
    LastTwo(a, h);
  }

  lemma {:induction false} TenBits(m: nat)
    ensures Shl(m, 10) == 1024 * m && Pow2(10) == 1024
  {
    ShlFive(m);
    ShlFive(32 * m);
    ShlMore(m, 5, 5);
    ShlFive(1);
    ShlFive(32);
    ShlMore(1, 5, 5);
    hide Shl;
  }

  /** The words put together from a rounded significand of 53 bits. */
  lemma {:induction false} DoubleWords(sigh: nat, sigl: nat, m: nat, e: nat)
    requires 0x8000_0000 <= sigh < W32 && sigl < W32 && sigl % 2048 == 0 && sigh * W32 + sigl == 2048 * m && e < 2048
    ensures var lo, hi := sigl / 2048 + sigh % 2048 * 0x20_0000, sigh / 2048 % 0x10_0000 + e * 0x10_0000;
      && lo < W32 && hi < 0x8000_0000 && Exponent(hi) == e && TWO52 + Fraction(lo, hi) == m
  {
    var b, c, a := sigh / 2048, sigh % 2048, sigl / 2048;
    assert sigh == 2048 * b + c && sigl == 2048 * a && 0x10_0000 <= b < 0x20_0000 && a < 0x20_0000;
    assert b % 0x10_0000 == b - 0x10_0000;
  }

  lemma {:induction false} SignWords(lo: nat, hi: nat)
    requires hi < 0x8000_0000
    ensures !Sign(hi) && Sign(hi + 0x8000_0000)
    ensures DoubleValue(lo, hi + 0x8000_0000) == DoubleValue(lo, hi)
    ensures Exponent(hi + 0x8000_0000) == Exponent(hi) && Fraction(lo, hi + 0x8000_0000) == Fraction(lo, hi)
    ensures (hi + 0x8000_0000) % 0x8000_0000 == hi
  {
    assert (hi + 0x8000_0000) % 0x10_0000 == hi % 0x10_0000;
    assert (hi + 0x8000_0000) / 0x10_0000 == hi / 0x10_0000 + 0x800;
  }

  /** A rounded denormal fits in 52 bits, or is the smallest normal. */
  lemma {:induction false} DenormalFits(rc: Rc, negative: bool, x: nat, n: nat, m: nat)
    requires n >= 12 && x < W64 && Rounded(rc, negative, x, n, m)
    ensures m <= TWO52
  {
    TenBits(TWO52);
    ShlMore(TWO52, 10, 2);
    assert Shl(4503599627370496 * 1024, 2) == 4 * (4503599627370496 * 1024);
    ShlMore(TWO52, 12, n - 12);
    RoundedMost(rc, negative, x, n, m, TWO52) by {
      hide Rounded;
      assert Shl(Shl(TWO52, 12), n - 12) >= Shl(TWO52, 12);
    }
  }

  lemma {:induction false} DenormalWords(lo: nat, hi: nat)
    requires lo < W32 && hi * W32 + lo <= TWO52
    ensures hi < 0x8000_0000 && DoubleValue(lo, hi) == hi * W32 + lo
  {
    assert hi <= 0x10_0000;
    if hi == 0x10_0000 {
      assert lo == 0 && Exponent(hi) == 1 && Fraction(lo, hi) == 0;
      assert Shl(TWO52, 0) == TWO52;
    } else {
      assert Exponent(hi) == 0;
    }
  }

  lemma {:induction false} NormalValue(lo: nat, hi: nat, m: nat, exp: int)
    requires Exponent(hi) == exp + 1023 && -1022 <= exp && TWO52 + Fraction(lo, hi) == m
    ensures DoubleValue(lo, hi) == Shl(m, exp + 1022)
  {
  }

  /** The magnitude is above what a double holds. */
  predicate Overflows(exp: int, m: nat) { exp > 1023 || (exp == 1023 && m == 2 * TWO52) }

  /** Lines 563-584: one unit of 53 bits more; a carry out makes it one half, an exponent up. */
  method Increment(sigh0: nat, sigl0: nat, exp0: int) returns (sigh: nat, sigl: nat, exp: int)
    requires 0x8000_0000 <= sigh0 < W32 && sigl0 < W32 && sigl0 % 2048 == 0
    ensures 0x8000_0000 <= sigh < W32 && sigl < W32 && sigl % 2048 == 0
    ensures var x := sigh0 * W32 + sigl0 + 2048;
      if x == W64 then exp == exp0 + 1 && sigh == 0x8000_0000 && sigl == 0 else exp == exp0 && sigh * W32 + sigl == x
  {
    sigh, sigl, exp := sigh0, sigl0, exp0;
    if sigl >= 0xffff_f800 {
      if sigh == W32 - 1 {
        sigh, exp := 0x8000_0000, exp + 1;
      } else {
        sigh := sigh + 1;
      }
      sigl := 0;
    } else {
      sigl := sigl + 2048;
    }
  }

  /** Lines 538-556: whether the significand is to go up. */
  function Increments(rc: Rc, sign: bool, sigl: nat): bool {
    match rc
    case Nearest => sigl % 2048 > 1024 || sigl / 1024 % 4 == 3
    case Down => sign
    case Up => !sign
    case Chop => false
  }

  /** It goes up as a correct rounding does. */
  lemma {:induction false} IncrementsRounds(rc: Rc, sign: bool, sigh: nat, sigl: nat)
    requires sigl < W32
    ensures var x, d, exact := sigh * W32 + sigl, sigh * 0x20_0000 + sigl / 2048, sigl % 2048 == 0;
      && Rounded(rc, sign, x, 11, if !exact && Increments(rc, sign, sigl) then d + 1 else d)
      && 2048 * d + sigl % 2048 == x
  {
    hide Rounded, Shl, Drop, Half, Below;
    DoubleBits(sigh, sigl);
    BitsRound(rc, sign, sigh * W32 + sigl, 11);
    NearestUp(sigl, sigl % 2048);
    assert sigl == 2048 * (sigl / 2048) + sigl % 2048;
  }

  /** Rounding the significand of a normal number to 53 bits (lines 536-588): it, and the exponent
      after a carry. */
  method RoundNormal(sign: bool, sigh0: nat, sigl0: nat, exp0: int, rc: Rc)
    returns (sigh: nat, sigl: nat, exp: int, loss: Loss, ghost m: nat)
    requires 0x8000_0000 <= sigh0 < W32 && sigl0 < W32
    ensures 0x8000_0000 <= sigh < W32 && sigl < W32 && sigl % 2048 == 0
    ensures Rounded(rc, sign, sigh0 * W32 + sigl0, 11, m) && TWO52 <= m <= 2 * TWO52
    ensures loss == if 2048 * m == sigh0 * W32 + sigl0 then Exact
                    else if 2048 * m > sigh0 * W32 + sigl0 then LostUp else LostDown
    ensures if m == 2 * TWO52 then exp == exp0 + 1 && sigh * W32 + sigl == 2048 * TWO52
            else exp == exp0 && sigh * W32 + sigl == 2048 * m
  {
    hide Rounded, Increments;
    IncrementsRounds(rc, sign, sigh0, sigl0);
    sigh, sigl, exp := sigh0, sigl0, exp0;
    m := sigh * 0x20_0000 + sigl / 2048;
    loss := Exact;
    if sigl % 2048 != 0 {
      var increment := Increments(rc, sign, sigl);
      sigl := sigl - sigl % 2048;
      Truncated(sigl0);
      if increment {
        m, loss := m + 1, LostUp;
        sigh, sigl, exp := Increment(sigh, sigl, exp);
      } else {
        loss := LostDown;
      }
    }
  }

  lemma {:induction false} Truncated(sigl: nat)
    ensures (sigl - sigl % 2048) % 2048 == 0 && sigl - sigl % 2048 == 2048 * (sigl / 2048)
  {
    assert sigl == 2048 * (sigl / 2048) + sigl % 2048;
  }

  /** Lines 513-518: underflow is flagged for a denormal that lost bits, unless it became the smallest
      normal number and the register's last eleven bits are not zero. */
  predicate Underflows(exp: int, x: nat, loss: Loss, m: nat) {
    exp < -1022 && loss != Exact && !(m == TWO52 && x % 2048 != 0)
  }

  lemma {:induction false} InPlaces(q: nat, r: nat)
    requires r < 2048
    ensures (2048 * q + r) % 2048 == r
  {
  }

  lemma {:induction false} LowEleven(sigh: nat, sigl: nat)
    ensures (sigh * W32 + sigl) % 2048 == sigl % 2048
  {
    var q, r := sigl / 2048, sigl % 2048;
    assert sigl == 2048 * q + r && r < 2048;
    InPlaces(sigh * 0x20_0000 + q, r);
  }

  lemma {:induction false} ShlTwelve(m: nat)
    ensures Shl(m, 12) == 4096 * m && Pow2(12) == 4096
  {
    ShlEleven(m);
    ShlEleven(1);
    assert Shl(m, 12) == 2 * Shl(m, 11);
    assert Shl(1, 12) == 2 * Shl(1, 11);
  }

  /** The comment there says that an 80486 rounds to 53 bits first and then decides. For the largest
      numbers below the smallest normal, with significand `x`, 52-bit rounding `m52` and 53-bit
      rounding `m53`, the test made is that one except just below: between the points where
      rounding to 52 and to 53 bits carries. */
  lemma {:induction false} UnderflowTest(rc: Rc, negative: bool, x: nat, m52: nat, m53: nat)
    requires W64 / 2 <= x < W64 && Rounded(rc, negative, x, 12, m52) && Rounded(rc, negative, x, 11, m53)
    ensures ((m52 == TWO52 && x % 2048 != 0) == (m53 == 2 * TWO52)) <==>
      !(if rc == Nearest then W64 - 2048 < x < W64 - 1024
        else AwayFromZero(rc, negative) && W64 - 4096 < x < W64 - 2048)
  {
    ShlTwelve(TWO52 - 1);
    ShlTwelve(TWO52);
    ShlTwelve(TWO52 + 1);
    ShlEleven(2 * TWO52 - 1);
    ShlEleven(2 * TWO52);
    ShlEleven(2 * TWO52 + 1);
    hide Shl, Rounded;
    Carries(rc, negative, x, 12, 4096, TWO52, m52);
    Carries(rc, negative, x, 11, 2048, 2 * TWO52, m53);
    if W64 - 4096 <= x {
      NearTop(x);
    }
  }

  /** One of them: to 53 bits this number stays below the smallest normal, yet no underflow is
      flagged. */
  lemma {:induction false} UnderflowMissed()
    ensures var x := W64 - 1500;
      && Rounded(Nearest, false, x, 12, TWO52) && Rounded(Nearest, false, x, 11, 2 * TWO52 - 1)
      && !Underflows(-1023, x, LostUp, TWO52)
  {
    ShlTwelve(TWO52);
    ShlEleven(2 * TWO52 - 1);
  }

  /** Numbers with lower exponents do not round up to the smallest normal one, so that for them the test
      is simply whether bits are lost. */
  lemma {:induction false} LowerStays(rc: Rc, negative: bool, x: nat, exp: int, loss: Loss, m: nat)
    requires exp < -1023 && x < W64 && Rounded(rc, negative, x, DoubleLost(exp), m)
    ensures m < TWO52 && (Underflows(exp, x, loss, m) <==> loss != Exact)
  {
    hide Rounded, Shl;
    var n := DoubleLost(exp);
    ShlTwelve(TWO52);
    ShlTwice(TWO52 / 2, 12);
    ShlMore(TWO52 / 2, 13, n - 13);
    RoundedMost(rc, negative, x, n, m, TWO52 / 2);
  }

  lemma {:induction false} NearTop(x: nat)
    requires W64 - 4096 <= x < W64
    ensures x % 2048 == 0 <==> x == W64 - 4096 || x == W64 - 2048
  {
    assert x < W64 - 2048 ==> x % 2048 == x - (W64 - 4096);
    assert x >= W64 - 2048 ==> x % 2048 == x - (W64 - 2048);
  }

  /** Lines 493-533: a number too small for a normal double. */
  method DenormalDouble(st0: Reg, rc: Rc) returns (lo: nat, hi: nat, loss: Loss, underflow: bool, ghost m: nat)
    requires st0.Words() && st0.tag == Valid && st0.exp < -1022
    ensures lo < W32 && hi < 0x8000_0000 && DoubleValue(lo, hi) == m
    ensures Rounded(rc, st0.sign, st0.Sig(), DoubleLost(st0.exp), m)
    ensures loss == var whole := Shl(m, DoubleLost(st0.exp));
                    if whole == st0.Sig() then Exact else if whole > st0.Sig() then LostUp else LostDown
    ensures underflow <==> Underflows(st0.exp, st0.Sig(), loss, m)
  {
    hide Rounded, Shl, DoubleValue;
    var tmp := new Reg.Copy(st0);
    tmp.exp := tmp.exp + 1022 + 52;
    assert tmp.Sig() == st0.Sig() && 63 - tmp.exp == DoubleLost(st0.exp);
    loss := RoundToInt(tmp, rc);
    lo, hi, m := tmp.sigl, tmp.sigh, tmp.Sig();
    DenormalFits(rc, st0.sign, st0.Sig(), DoubleLost(st0.exp), m);
    DenormalWords(lo, hi);
    underflow := loss != Exact && !(hi == 0x10_0000 && lo == 0 && st0.sigl % 2048 != 0);
    LowEleven(st0.sigh, st0.sigl);
  }

  /** Lines 534-613: a number not too small. */
  method NormalDouble(st0: Reg, rc: Rc) returns (lo: nat, hi: nat, loss: Loss, ghost m: nat)
    requires st0.Words() && st0.tag == Valid && st0.sigh >= 0x8000_0000 && st0.exp >= -1022
    ensures lo < W32 && hi < 0x8000_0000
    ensures Rounded(rc, st0.sign, st0.Sig(), 11, m)
    ensures loss == if Shl(m, 11) == st0.Sig() then Exact else if Shl(m, 11) > st0.Sig() then LostUp else LostDown
    ensures if Overflows(st0.exp, m) then lo == 0 && hi == 0x7ff0_0000
            else DoubleValue(lo, hi) == Shl(m, st0.exp + 1022)
  {
    hide Rounded, Shl, DoubleValue, Exponent, Fraction;
    var sigh, sigl, exp;
    sigh, sigl, exp, loss, m := RoundNormal(st0.sign, st0.sigh, st0.sigl, st0.exp, rc);
    ShlEleven(m);
    if exp > 1023 {
      lo, hi := 0, 0x7ff0_0000;
    } else {
      lo, hi := sigl / 2048 + sigh % 2048 * 0x20_0000, sigh / 2048 % 0x10_0000 + (exp + 1023) % 0x800 * 0x10_0000;
      ghost var stored := if m == 2 * TWO52 then TWO52 else m;
      DoubleWords(sigh, sigl, stored, exp + 1023);
      NormalValue(lo, hi, stored, exp);
      ShlTwice(TWO52, st0.exp + 1022);
    }
  }

  /** Lines 486-613: the words of a number without their sign. */
  method DoubleOf(st0: Reg, rc: Rc) returns (lo: nat, hi: nat, loss: Loss, underflow: bool, ghost m: nat)
    requires st0.Words() && st0.tag == Valid && st0.sigh >= 0x8000_0000
    ensures lo < W32 && hi < 0x8000_0000
    ensures Rounded(rc, st0.sign, st0.Sig(), DoubleLost(st0.exp), m)
    ensures !Overflows(st0.exp, m) ==>
      && DoubleValue(lo, hi) == Shl(m, DoublePlace(st0.exp))
      && loss == var whole := Shl(m, DoubleLost(st0.exp));
                 if whole == st0.Sig() then Exact else if whole > st0.Sig() then LostUp else LostDown
    ensures Overflows(st0.exp, m) ==> lo == 0 && hi == 0x7ff0_0000
    ensures underflow <==> Underflows(st0.exp, st0.Sig(), loss, m)
  {
    hide Rounded, Shl, DoubleValue;
    if st0.exp < -1022 {
      lo, hi, loss, underflow, m := DenormalDouble(st0, rc);
      NoShift(m);
    } else {
      lo, hi, loss, m := NormalDouble(st0, rc);
      underflow := false;
    }
  }

  /** The fraction of a NaN with its first bit set. */
  function Quiet(fraction: nat): nat { if fraction < TWO52 / 2 then fraction + TWO52 / 2 else fraction }

  /** Lines 629-639: a NaN keeps its leading bits and becomes quiet. */
  method NaNOf(sigh: nat, sigl: nat) returns (lo: nat, hi: nat)
    requires sigh < W32 && sigl < W32
    ensures lo < W32 && hi < 0x8000_0000 && Exponent(hi) == 0x7ff
    ensures Fraction(lo, hi) == Quiet((sigh * W32 + sigl) / 2048 % TWO52)
  {
    lo, hi := sigl / 2048 + sigh % 2048 * 0x20_0000, sigh / 2048 % 0x10_0000;
    QuietNaN(hi, sigh);
    Leading(sigh, sigl);
    if sigh / 0x4000_0000 % 2 == 0 {
      hi := hi + 0x8_0000;
    }
    hi := hi + 0x7ff0_0000;
  }

  /** The quiet bit of a NaN, or'ed in when it is not there. */
  lemma {:induction false} QuietNaN(hi: nat, sigh: nat)
    requires hi == sigh / 2048 % 0x10_0000
    ensures hi < 0x10_0000 && (sigh / 0x4000_0000 % 2 == 0 <==> hi < 0x8_0000)
  {
  }

  /** The leading 52 bits below the first. */
  lemma {:induction false} Leading(sigh: nat, sigl: nat)
    requires sigl < W32
    ensures (sigh * W32 + sigl) / 2048 % TWO52 == sigh / 2048 % 0x10_0000 * W32 + sigl / 2048 + sigh % 2048 * 0x20_0000
  {
    var a, b, c, d := sigh / 2048 / 0x10_0000, sigh / 2048 % 0x10_0000, sigh % 2048, sigl / 2048;
    assert sigh == 2048 * (0x10_0000 * a + b) + c;
    assert (sigh * W32 + sigl) / 2048 == TWO52 * a + (b * W32 + c * 0x20_0000 + d);
  }

  /** reg_store_double (lines 478-669), exceptions masked. For a number, `m` is its correct rounding
      in the last place of a double of its size, and that is what the stored words say; `loss` tells
      on which side of the register's value it is. */
  method StoreDouble(st0: Reg, rc: Rc) returns (lo: nat, hi: nat, loss: Loss, underflow: bool, ghost m: nat)
    requires st0.Words() && (st0.tag == Valid ==> st0.sigh >= 0x8000_0000)
    ensures lo < W32 && hi < W32
    ensures st0.tag == Valid ==> Sign(hi) == st0.sign && Rounded(rc, st0.sign, st0.Sig(), DoubleLost(st0.exp), m)
    ensures st0.tag == Valid && !Overflows(st0.exp, m) ==>
      && DoubleValue(lo, hi) == Shl(m, DoublePlace(st0.exp))
      && loss == var whole := Shl(m, DoubleLost(st0.exp));
                 if whole == st0.Sig() then Exact else if whole > st0.Sig() then LostUp else LostDown
    ensures underflow <==> st0.tag == Valid && Underflows(st0.exp, st0.Sig(), loss, m)
    ensures st0.tag != Valid ==> loss == Exact
    ensures st0.tag == Valid && Overflows(st0.exp, m) ==> lo == 0 && hi % 0x8000_0000 == 0x7ff0_0000
    ensures st0.tag == Zero ==> Sign(hi) == st0.sign && DoubleValue(lo, hi) == 0
    ensures st0.tag == Infinity ==> Sign(hi) == st0.sign && lo == 0 && hi % 0x8000_0000 == 0x7ff0_0000
    ensures st0.tag == NaN ==>
      Sign(hi) == st0.sign && Exponent(hi) == 0x7ff && Fraction(lo, hi) == Quiet(st0.Sig() / 2048 % TWO52)
    ensures st0.tag == Empty ==> lo == 0 && hi == 0xfff8_0000
  {
    hide Rounded, Shl, Exponent, Fraction, Sign, DoubleValue, Quiet;
    loss, underflow, m := Exact, false, 0;
    if st0.tag == Valid {
      lo, hi, loss, underflow, m := DoubleOf(st0, rc);
    } else if st0.tag == Zero {
      lo, hi := 0, 0;
      ZeroValue();
    } else if st0.tag == Infinity {
      lo, hi := 0, 0x7ff0_0000;
    } else if st0.tag == NaN {
      lo, hi := NaNOf(st0.sigh, st0.sigl);
    } else {
      return 0, 0xfff8_0000, Exact, false, 0;
    }
    SignWords(lo, hi);
    if st0.sign {
      hi := hi + 0x8000_0000;
    }
  }

  lemma {:induction false} ZeroValue()
    ensures DoubleValue(0, 0) == 0
  {
  }
}
