/** reg_store_single of drivers/FPU-emu/reg_ld_str.c, with all exceptions masked. */
module FpuSingle {

  import opened Bits
  import opened FpuRound

  function Sign(w: nat): bool { w / 0x8000_0000 % 2 == 1 }
  function Exponent(w: nat): nat { w / 0x80_0000 % 0x100 }
  function Fraction(w: nat): nat { w % 0x80_0000 }

  const TWO23: nat := 0x80_0000

  /** The magnitude of a finite single, in units of 2^-149. */
  function SingleValue(w: nat): nat
  {
    if Exponent(w) == 0 then Fraction(w) else Shl(TWO23 + Fraction(w), Exponent(w) - 1)
  }

  /** The register's last place in a single of its size, as a power of two above 2^-149; and the
      bits of its significand below that place. */
  function SinglePlace(exp: int): nat { if exp < -126 then 0 else exp + 126 }
  function SingleLost(exp: int): nat { if exp < -126 then -86 - exp else 40 }

  predicate Overflows(exp: int, m: nat) { exp > 127 || (exp == 127 && m == 2 * TWO23) }

  // ---- forty bits --------------------------------------------------------------------------

  lemma {:induction false} ShlMany(m: nat)
    ensures Shl(m, 32) == W32 * m && Shl(m, 40) == 256 * W32 * m && Shl(m, 39) == 128 * W32 * m
  {
    ShlEight(m);
    ShlEight(256 * m);
    ShlEight(65536 * m);
    ShlEight(16777216 * m);
    ShlEight(W32 * m);
    ShlMore(m, 8, 8);
    ShlMore(m, 16, 8);
    ShlMore(m, 24, 8);
    ShlMore(m, 32, 8);
    assert Shl(m, 40) == 2 * Shl(m, 39);
  }

  /** Storing a single loses the low forty bits. */
  lemma {:induction false} SingleBits(sigh: nat, sigl: nat)
    requires sigl < W32
    ensures var x, f := sigh * W32 + sigl, sigh % 256;
      && Drop(x, 40) == sigh / 256
      && Half(x, 40) == (f >= 128) && Below(x, 40) == (f % 128 != 0 || sigl != 0)
  {
    var x, d, f := sigh * W32 + sigl, sigh / 256, sigh % 256;
    ShlMany(2 * d + f / 128);
    ShlMany(1);
    hide Shl, Drop, Half, Below;
    assert Pow2(39) == 128 * W32;
    assert sigh == f % 128 + 128 * (2 * d + f / 128);
    assert x == f % 128 * W32 + sigl + 128 * W32 * (2 * d + f / 128);
    Parts(x, 40, d, f / 128, f % 128 * W32 + sigl);
  }

  /** The two bits above bit seven. */
  lemma {:induction false} NextBits(a: nat, h: nat, e: nat, sigh: nat)
    requires h < 2 && e < 128 && sigh == 256 * a + 128 * h + e
    ensures sigh / 128 % 4 == 3 <==> h == 1 && a % 2 == 1
  {
    assert sigh / 128 == 2 * a + h;
    LastTwo(a, h);
  }

  /** More than half, or at least half and odd (lines 738-740). */
  lemma {:induction false} NearestUp(sigh: nat, sigl: nat, f: nat)
    requires f == sigh % 256
    ensures f > 128 || (f == 128 && sigl != 0) || sigh / 128 % 4 == 3
       <==> f >= 128 && ((f % 128 != 0 || sigl != 0) || sigh / 256 % 2 == 1)
    ensures f != 0 || sigl != 0 <==> f >= 128 || (f % 128 != 0 || sigl != 0)
  {
    var a, h, e := sigh / 256, f / 128, f % 128;
    assert f == 128 * h + e && h < 2;
    NextBits(a, h, e, sigh);
  }

  // ---- rounding to 24 bits -----------------------------------------------------------------

  /** Lines 762-774. */
  method Increment(sigh0: nat, exp0: int) returns (sigh: nat, exp: int)
    requires 0x8000_0000 <= sigh0 < W32
    ensures 0x8000_0000 <= sigh < W32 && sigh % 256 == 0
    ensures var x := sigh0 / 256 + 1;
      if x == 2 * TWO23 then exp == exp0 + 1 && sigh == 0x8000_0000 else exp == exp0 && sigh == 256 * x
  {
    sigh, exp := sigh0, exp0;
    if sigh >= 0xffff_ff00 {
      sigh, exp := 0x8000_0000, exp + 1;
    } else {
      sigh := sigh - sigh % 256 + 0x100;
    }
  }

  /** Lines 735-753: whether the significand is to go up. */
  function Increments(rc: Rc, sign: bool, sigh: nat, sigl: nat): bool {
    var f := sigh % 256;
    match rc
    case Nearest => f > 128 || (f == 128 && sigl != 0) || sigh / 128 % 4 == 3
    case Down => sign
    case Up => !sign
    case Chop => false
  }

  /** It goes up as a correct rounding does. */
  lemma {:induction false} IncrementsRounds(rc: Rc, sign: bool, sigh: nat, sigl: nat)
    requires sigh < W32 && sigl < W32
    ensures var x, d, exact := sigh * W32 + sigl, sigh / 256, sigl == 0 && sigh % 256 == 0;
      && Rounded(rc, sign, x, 40, if !exact && Increments(rc, sign, sigh, sigl) then d + 1 else d)
      && 256 * W32 * d <= x < 256 * W32 * (d + 1) && (256 * W32 * d == x <==> exact)
  {
    hide Rounded, Shl, Drop, Half, Below;
    var x, f := sigh * W32 + sigl, sigh % 256;
    SingleBits(sigh, sigl);
    BitsRound(rc, sign, x, 40);
    NearestUp(sigh, sigl, f);
    assert x == 256 * W32 * (sigh / 256) + (W32 * f + sigl);
  }

  /** Rounding the significand of a normal number to 24 bits (lines 730-781). */
  method RoundNormal(sign: bool, sigh0: nat, sigl0: nat, exp0: int, rc: Rc)
    returns (sigh: nat, exp: int, loss: Loss, ghost m: nat)
    requires 0x8000_0000 <= sigh0 < W32 && sigl0 < W32
    ensures 0x8000_0000 <= sigh < W32 && sigh % 256 == 0
    ensures Rounded(rc, sign, sigh0 * W32 + sigl0, 40, m) && TWO23 <= m <= 2 * TWO23
    ensures loss == if 256 * W32 * m == sigh0 * W32 + sigl0 then Exact
                    else if 256 * W32 * m > sigh0 * W32 + sigl0 then LostUp else LostDown
    ensures if m == 2 * TWO23 then exp == exp0 + 1 && sigh == 256 * TWO23 else exp == exp0 && sigh == 256 * m
  {
    hide Rounded, Increments;
    IncrementsRounds(rc, sign, sigh0, sigl0);
    sigh, exp := sigh0, exp0;
    m := sigh / 256;
    loss := Exact;
    if sigl0 != 0 || sigh % 256 != 0 {
      if Increments(rc, sign, sigh, sigl0) {
        m, loss := m + 1, LostUp;
        sigh, exp := Increment(sigh, exp);
      } else {
        sigh, loss := sigh - sigh % 256, LostDown;
      }
    }
  }

  /** A rounded denormal fits in 23 bits, or is the smallest normal. */
  lemma {:induction false} DenormalFits(rc: Rc, negative: bool, x: nat, n: nat, m: nat)
    requires n >= 41 && x < W64 && Rounded(rc, negative, x, n, m)
    ensures m <= TWO23
  {
    ShlMany(TWO23);
    ShlMore(TWO23, 40, 1);
    ShlMore(TWO23, 41, n - 41);
    hide Rounded;
    assert Shl(Shl(TWO23, 40), 1) == 2 * Shl(TWO23, 40);
    RoundedMost(rc, negative, x, n, m, TWO23);
  }

  lemma {:induction false} DenormalWord(w: nat)
    requires w <= TWO23
    ensures w < 0x8000_0000 && SingleValue(w) == w
  {
    if w == TWO23 {
      assert Exponent(w) == 1 && Fraction(w) == 0;
      assert Shl(TWO23, 0) == TWO23;
    } else {
      assert Exponent(w) == 0;
    }
  }

  /** The word put together from a rounded significand of 24 bits. */
  lemma {:induction false} NormalWord(sigh: nat, m: nat, exp: int)
    requires sigh == 256 * m && TWO23 <= m < 2 * TWO23 && -126 <= exp <= 127
    ensures var w := sigh / 256 % 0x80_0000 + (exp + 127) % 0x100 * 0x80_0000;
      w < 0x8000_0000 && SingleValue(w) == Shl(m, exp + 126)
  {
    hide Shl;
    var w := sigh / 256 % 0x80_0000 + (exp + 127) % 0x100 * 0x80_0000;
    assert w == m - TWO23 + (exp + 127) * TWO23;
    assert Exponent(w) == exp + 127 && Fraction(w) == m - TWO23;
  }

  lemma {:induction false} SignWord(w: nat)
    requires w < 0x8000_0000
    ensures !Sign(w) && Sign(w + 0x8000_0000) && (w + 0x8000_0000) % 0x8000_0000 == w
    ensures SingleValue(w + 0x8000_0000) == SingleValue(w)
    ensures Exponent(w + 0x8000_0000) == Exponent(w) && Fraction(w + 0x8000_0000) == Fraction(w)
  {
    assert (w + 0x8000_0000) % 0x80_0000 == w % 0x80_0000;
    assert (w + 0x8000_0000) / 0x80_0000 == w / 0x80_0000 + 0x100;
  }

  const TWO40: nat := 0x100_0000_0000

  /** Lines 702-708: underflow is flagged for a denormal that lost bits, unless it became the smallest
      normal number and the register's last forty bits are not zero. */
  predicate Underflows(exp: int, x: nat, loss: Loss, m: nat) {
    exp < -126 && loss != Exact && !(m == TWO23 && x % TWO40 != 0)
  }

  lemma {:induction false} LowForty(sigh: nat, sigl: nat)
    requires sigl < W32
    ensures (sigh * W32 + sigl) % TWO40 == sigh % 256 * W32 + sigl
  {
    assert sigh * W32 + sigl == TWO40 * (sigh / 256) + (sigh % 256 * W32 + sigl);
  }

  /** As for doubles, the test made is that of rounding to 24 bits first, except just below the
      smallest normal number, between the points where rounding to 23 and to 24 bits carries. */
  lemma {:induction false} UnderflowTest(rc: Rc, negative: bool, x: nat, m23: nat, m24: nat)
    requires W64 / 2 <= x < W64 && Rounded(rc, negative, x, 41, m23) && Rounded(rc, negative, x, 40, m24)
    ensures ((m23 == TWO23 && x % TWO40 != 0) == (m24 == 2 * TWO23)) <==>
      !(if rc == Nearest then W64 - TWO40 < x < W64 - TWO40 / 2
        else AwayFromZero(rc, negative) && W64 - 2 * TWO40 < x < W64 - TWO40)
  {
    Shl41(1);
    Shl41(TWO23 - 1);
    Shl41(TWO23);
    Shl41(TWO23 + 1);
    ShlMany(1);
    ShlMany(2 * TWO23 - 1);
    ShlMany(2 * TWO23);
    ShlMany(2 * TWO23 + 1);
    hide Shl, Rounded;
    Carries(rc, negative, x, 41, 2 * TWO40, TWO23, m23);
    Carries(rc, negative, x, 40, TWO40, 2 * TWO23, m24);
    if W64 - 2 * TWO40 <= x {
      NearTop(x);
    }
  }

  /** One such number: to 24 bits it stays below the smallest normal, yet no underflow is flagged. */
  lemma {:induction false} UnderflowMissed()
    ensures var x := W64 - 3 * (TWO40 / 4);
      && Rounded(Nearest, false, x, 41, TWO23) && Rounded(Nearest, false, x, 40, 2 * TWO23 - 1)
      && !Underflows(-127, x, LostUp, TWO23)
  {
    hide Shl;
    Shl41(TWO23);
    ShlMany(2 * TWO23 - 1);
    Shl41(1);
    ShlMany(1);
  }

  /** Numbers with lower exponents do not round up to the smallest normal one, so that for them the test
      is simply whether bits are lost. */
  lemma {:induction false} LowerStays(rc: Rc, negative: bool, x: nat, exp: int, loss: Loss, m: nat)
    requires exp < -127 && x < W64 && Rounded(rc, negative, x, SingleLost(exp), m)
    ensures m < TWO23 && (Underflows(exp, x, loss, m) <==> loss != Exact)
  {
    hide Rounded, Shl;
    var n := SingleLost(exp);
    Shl41(TWO23);
    ShlTwice(TWO23 / 2, 41);
    ShlMore(TWO23 / 2, 42, n - 42);
    RoundedMost(rc, negative, x, n, m, TWO23 / 2);
  }

  lemma {:induction false} Shl41(m: nat)
    ensures Shl(m, 41) == 2 * TWO40 * m
  {
    ShlMany(m);
    assert Shl(m, 41) == 2 * Shl(m, 40);
  }

  lemma {:induction false} NearTop(x: nat)
    requires W64 - 2 * TWO40 <= x < W64
    ensures x % TWO40 == 0 <==> x == W64 - 2 * TWO40 || x == W64 - TWO40
  {
    assert x < W64 - TWO40 ==> x % TWO40 == x - (W64 - 2 * TWO40);
    assert x >= W64 - TWO40 ==> x % TWO40 == x - (W64 - TWO40);
  }

  /** Lines 690-727: a number too small for a normal single. */
  method DenormalSingle(st0: Reg, rc: Rc) returns (w: nat, loss: Loss, underflow: bool, ghost m: nat)
    requires st0.Words() && st0.tag == Valid && st0.exp < -126
    ensures w < 0x8000_0000 && SingleValue(w) == m
    ensures Rounded(rc, st0.sign, st0.Sig(), SingleLost(st0.exp), m)
    ensures loss == var whole := Shl(m, SingleLost(st0.exp));
                    if whole == st0.Sig() then Exact else if whole > st0.Sig() then LostUp else LostDown
    ensures underflow <==> Underflows(st0.exp, st0.Sig(), loss, m)
  {
    hide Rounded, Shl, SingleValue;
    var tmp := new Reg.Copy(st0);
    tmp.exp := tmp.exp + 126 + 23;
    assert tmp.Sig() == st0.Sig() && 63 - tmp.exp == SingleLost(st0.exp);
    loss := RoundToInt(tmp, rc);
    m := tmp.Sig();
    DenormalFits(rc, st0.sign, st0.Sig(), SingleLost(st0.exp), m);
    w := tmp.sigl;
    assert w == m;
    DenormalWord(w);
    underflow := loss != Exact && !(w == 0x80_0000 && (st0.sigh % 256 != 0 || st0.sigl != 0));
    LowForty(st0.sigh, st0.sigl);
  }

  /** Lines 728-801: a number not too small. */
  method NormalSingle(st0: Reg, rc: Rc) returns (w: nat, loss: Loss, ghost m: nat)
    requires st0.Words() && st0.tag == Valid && st0.sigh >= 0x8000_0000 && st0.exp >= -126
    ensures w < 0x8000_0000 && Rounded(rc, st0.sign, st0.Sig(), 40, m)
    ensures loss == if Shl(m, 40) == st0.Sig() then Exact else if Shl(m, 40) > st0.Sig() then LostUp else LostDown
    ensures if Overflows(st0.exp, m) then w == 0x7f80_0000 else SingleValue(w) == Shl(m, st0.exp + 126)
  {
    hide Rounded, Shl, SingleValue, Exponent, Fraction;
    var sigh, exp;
    sigh, exp, loss, m := RoundNormal(st0.sign, st0.sigh, st0.sigl, st0.exp, rc);
    ShlMany(m);
    if exp > 127 {
      w := 0x7f80_0000;
    } else {
      ghost var stored := if m == 2 * TWO23 then TWO23 else m;
      NormalWord(sigh, stored, exp);
      w := sigh / 256 % 0x80_0000 + (exp + 127) % 0x100 * 0x80_0000;
      ShlTwice(TWO23, st0.exp + 126);
    }
  }

  /** Lines 684-801: the word of a number without its sign. */
  method SingleOf(st0: Reg, rc: Rc) returns (w: nat, loss: Loss, underflow: bool, ghost m: nat)
    requires st0.Words() && st0.tag == Valid && st0.sigh >= 0x8000_0000
    ensures w < 0x8000_0000
    ensures Rounded(rc, st0.sign, st0.Sig(), SingleLost(st0.exp), m)
    ensures !Overflows(st0.exp, m) ==>
      && SingleValue(w) == Shl(m, SinglePlace(st0.exp))
      && loss == var whole := Shl(m, SingleLost(st0.exp));
                 if whole == st0.Sig() then Exact else if whole > st0.Sig() then LostUp else LostDown
    ensures Overflows(st0.exp, m) ==> w == 0x7f80_0000
    ensures underflow <==> Underflows(st0.exp, st0.Sig(), loss, m)
  {
    hide Rounded, Shl, SingleValue;
    if st0.exp < -126 {
      w, loss, underflow, m := DenormalSingle(st0, rc);
      NoShift(m);
    } else {
      w, loss, m := NormalSingle(st0, rc);
      underflow := false;
    }
  }

  lemma {:induction false} ZeroValue()
    ensures SingleValue(0) == 0
  {
  }

  /** The fraction of a NaN with its first bit set. */
  function Quiet(fraction: nat): nat { if fraction < TWO23 / 2 then fraction + TWO23 / 2 else fraction }

  /** Lines 814-821: a NaN keeps its leading bits and becomes quiet. */
  method NaNOf(sigh: nat) returns (w: nat)
    requires 0x8000_0000 <= sigh < W32
    ensures w < 0x8000_0000 && Exponent(w) == 0xff && Fraction(w) == Quiet(sigh / 256 % TWO23)
  {
    w := sigh / 256;
    if sigh / 0x4000_0000 % 2 == 0 {
      w := w + 0x40_0000;
    }
    w := w + 0x7f80_0000 - 0x80_0000;
  }

  /** reg_store_single (lines 673-850), exceptions masked. For a number, `m` is its correct rounding
      in the last place of a single of its size, and that is what the stored word says. */
  method StoreSingle(st0: Reg, rc: Rc) returns (w: nat, loss: Loss, underflow: bool, ghost m: nat)
    requires st0.Words() && (st0.tag == Valid || st0.tag == NaN ==> st0.sigh >= 0x8000_0000)
    ensures w < W32
    ensures st0.tag == Valid ==> Sign(w) == st0.sign && Rounded(rc, st0.sign, st0.Sig(), SingleLost(st0.exp), m)
    ensures st0.tag == Valid && !Overflows(st0.exp, m) ==>
      && SingleValue(w) == Shl(m, SinglePlace(st0.exp))
      && loss == var whole := Shl(m, SingleLost(st0.exp));
                 if whole == st0.Sig() then Exact else if whole > st0.Sig() then LostUp else LostDown
    ensures st0.tag == Valid && Overflows(st0.exp, m) ==> w % 0x8000_0000 == 0x7f80_0000
    ensures underflow <==> st0.tag == Valid && Underflows(st0.exp, st0.Sig(), loss, m)
    ensures st0.tag != Valid ==> loss == Exact
    ensures st0.tag == Zero ==> Sign(w) == st0.sign && SingleValue(w) == 0
    ensures st0.tag == Infinity ==> Sign(w) == st0.sign && w % 0x8000_0000 == 0x7f80_0000
    ensures st0.tag == NaN ==>
      Sign(w) == st0.sign && Exponent(w) == 0xff && Fraction(w) == Quiet(st0.sigh / 256 % TWO23)
    ensures st0.tag == Empty ==> w == 0xffc0_0000
  {
    hide Rounded, Shl, Exponent, Fraction, Sign, SingleValue, Quiet;
    loss, underflow, m := Exact, false, 0;
    if st0.tag == Valid {
      w, loss, underflow, m := SingleOf(st0, rc);
    } else if st0.tag == Zero {
      w := 0;
      ZeroValue();
    } else if st0.tag == Infinity {
      w := 0x7f80_0000;
    } else if st0.tag == NaN {
      w := NaNOf(st0.sigh);
    } else {
      return 0xffc0_0000, Exact, false, 0;
    }
    SignWord(w);
    if st0.sign {
      w := w + 0x8000_0000;
    }
  }
}
