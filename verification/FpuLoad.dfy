/** reg_load_double and reg_load_single of drivers/FPU-emu/reg_ld_str.c: nothing is lost, and what
    is stored after a load is what was loaded.
 */
module FpuLoad {

  import opened Bits
  import opened FpuRound
  import D = FpuStore
  import S = FpuSingle

  // ---- doubles -----------------------------------------------------------------------------

  /** The words of a double without the sign, as one number. */
  function Magnitude(lo: nat, hi: nat): nat { D.Exponent(hi) * D.TWO52 + D.Fraction(lo, hi) }

  /** The words of finite doubles are ordered as the values are; those of infinities and NaNs would
      be above all. */
  lemma {:induction false} DoubleOrder(lo: nat, hi: nat, lo': nat, hi': nat)
    requires lo < W32 && lo' < W32 && Magnitude(lo, hi) < Magnitude(lo', hi')
    ensures D.DoubleValue(lo, hi) < D.DoubleValue(lo', hi')
  {
    var e, f, e', f' := D.Exponent(hi), D.Fraction(lo, hi), D.Exponent(hi'), D.Fraction(lo', hi');
    assert f < D.TWO52 && f' < D.TWO52;
    NoShift(f);
    hide D.Exponent, D.Fraction;
    if e == e' {
      ShlOrder(D.TWO52 + f', D.TWO52 + f, if e == 0 then 0 else e - 1);
      hide Shl;
    } else {
      assert e < e';
      ShlOrder(D.TWO52, D.TWO52 + f', e' - 1);
      Wider(D.TWO52, if e == 0 then 0 else e - 1, e' - 1, f, e == 0);
      hide Shl;
    }
  }

  /** A significand of one size with a smaller exponent is below the least of the size. */
  lemma {:induction false} Wider(least: nat, a: nat, b: nat, f: nat, denormal: bool)
    requires f < least && (if denormal then a == 0 else a < b)
    ensures (if denormal then f else Shl(least + f, a)) < Shl(least, b)
  {
    if denormal {
      assert Shl(least, b) >= least;
    } else {
      ShlTwice(least, a);
      ShlMore(least, a + 1, b - a - 1);
      ShlOrder(2 * least, least + f, a);
      hide Shl;
    }
  }

  /** A finite double is determined by its sign and value. */
  lemma {:induction false} DoubleUnique(lo: nat, hi: nat, lo': nat, hi': nat)
    requires lo < W32 && lo' < W32 && hi < W32 && hi' < W32
    requires D.Sign(hi) == D.Sign(hi') && D.DoubleValue(lo, hi) == D.DoubleValue(lo', hi')
    ensures lo == lo' && hi == hi'
  {
    if Magnitude(lo, hi) < Magnitude(lo', hi') {
      DoubleOrder(lo, hi, lo', hi');
    } else if Magnitude(lo', hi') < Magnitude(lo, hi) {
      DoubleOrder(lo', hi', lo, hi);
    }
    WordsUnique(lo, hi, lo', hi');
  }

  lemma {:induction false} WordsUnique(lo: nat, hi: nat, lo': nat, hi': nat)
    requires lo < W32 && lo' < W32 && hi < W32 && hi' < W32
    requires D.Sign(hi) == D.Sign(hi') && Magnitude(lo, hi) == Magnitude(lo', hi')
    ensures lo == lo' && hi == hi'
  {
    hide Magnitude, D.Exponent, D.Fraction;
    MagnitudeIs(lo, hi);
    MagnitudeIs(lo', hi');
    SamePair(hi % 0x8000_0000, lo, hi' % 0x8000_0000, lo');
    SameWord(hi, hi');
  }

  lemma {:induction false} SamePair(a: nat, b: nat, c: nat, d: nat)
    requires b < W32 && d < W32 && a * W32 + b == c * W32 + d
    ensures a == c && b == d
  {
  }

  lemma {:induction false} SameWord(hi: nat, hi': nat)
    requires hi < W32 && hi' < W32 && D.Sign(hi) == D.Sign(hi') && hi % 0x8000_0000 == hi' % 0x8000_0000
    ensures hi == hi'
  {
    assert hi == hi / 0x8000_0000 * 0x8000_0000 + hi % 0x8000_0000 && hi / 0x8000_0000 < 2;
    assert hi' == hi' / 0x8000_0000 * 0x8000_0000 + hi' % 0x8000_0000 && hi' / 0x8000_0000 < 2;
  }

  lemma {:induction false} MagnitudeIs(lo: nat, hi: nat)
    ensures Magnitude(lo, hi) == hi % 0x8000_0000 * W32 + lo
  {
    assert hi / 0x10_0000 % 0x800 * 0x10_0000 + hi % 0x10_0000 == hi % 0x8000_0000;
  }

  /** The significand of a loaded double, less its top bit. */
  lemma {:induction false} DoubleSig(lo: nat, m64: nat)
    requires lo < W32 && m64 < 0x10_0000
    ensures var sigh, sigl := m64 * 2048 + lo / 0x20_0000, lo % 0x20_0000 * 2048;
      sigh < 0x8000_0000 && sigl < W32 && sigh * W32 + sigl == 2048 * (m64 * W32 + lo)
  {
    assert lo == lo / 0x20_0000 * 0x20_0000 + lo % 0x20_0000;
  }

  /** reg_load_double (lines 147-218). For a number, `m` is the integer that it and the register are
      in the last place of a double of its size. */
  method LoadDouble(r: Reg, lo: nat, hi: nat) returns (denormal: bool, ghost m: nat)
    requires lo < W32 && hi < W32
    modifies r
    ensures r.Words() && r.sign == D.Sign(hi)
    ensures denormal <==> D.Exponent(hi) == 0 && D.Fraction(lo, hi) != 0
    ensures r.tag == if D.Exponent(hi) == 0x7ff then (if D.Fraction(lo, hi) == 0 then Infinity else NaN)
                     else if D.Exponent(hi) == 0 && D.Fraction(lo, hi) == 0 then Zero else Valid
    ensures r.tag == Valid ==>
      && r.sigh >= 0x8000_0000 && r.Sig() == Shl(m, D.DoubleLost(r.exp))
      && D.DoubleValue(lo, hi) == Shl(m, D.DoublePlace(r.exp)) && !D.Overflows(r.exp, m)
    ensures r.tag == NaN ==> r.Sig() == 2048 * (D.TWO52 + D.Fraction(lo, hi))
  {
    hide Shl;
    m := D.Fraction(lo, hi);
    r.sign := hi / 0x8000_0000 % 2 == 1;
    var exp := hi / 0x10_0000 % 0x800 - 1023;
    var m64 := hi % 0x10_0000;
    denormal := false;
    DoubleSig(lo, m64);
    if exp > 1023 {
      if m64 == 0 && lo == 0 {
        r.sigh, r.sigl, r.exp, r.tag := 0x8000_0000, 0, EXP_OVER, Infinity;
      } else {
        r.exp, r.tag := EXP_OVER, NaN;
        r.sigh, r.sigl := m64 * 2048 + 0x8000_0000 + lo / 0x20_0000, lo % 0x20_0000 * 2048;
      }
    } else if exp < -1022 {
      if m64 == 0 && lo == 0 {
        r.tag, r.exp, r.sigh, r.sigl := Zero, EXP_UNDER, 0, 0;
      } else {
        r.exp, r.tag := -1022, Valid;
        r.sigh, r.sigl := m64 * 2048 + lo / 0x20_0000, lo % 0x20_0000 * 2048;
        ghost var s := NormalizeNuo(r);
        DenormalSig(m, 11, s, r.Sig()) by { D.ShlEleven(m); }
        NoShift(m);
        denormal := true;
      }
    } else {
      r.exp, r.tag := exp, Valid;
      r.sigh, r.sigl := m64 * 2048 + 0x8000_0000 + lo / 0x20_0000, lo % 0x20_0000 * 2048;
      m := m + D.TWO52;
      D.ShlEleven(m);
    }
  }

  /** A denormal is moved at least one place up. */
  lemma {:induction false} DenormalSig(m: nat, n: nat, s: nat, x: nat)
    requires Shl(Shl(m, n), s) == x && 0x8000_0000_0000_0000 <= x && Shl(m, n) < 0x8000_0000_0000_0000
    ensures x == Shl(m, n + s) && s > 0
  {
    ShlMore(m, n, s);
    NoShift(Shl(m, n));
  }

  /** A number that needs no rounding. */
  lemma {:induction false} ExactRounded(rc: Rc, negative: bool, m: nat, n: nat)
    ensures Rounded(rc, negative, Shl(m, n), n, m)
  {
    hide Shl, Pow2;
    PowPositive(n);
    ShlSucc(m, n);
    if m > 0 {
      ShlSucc(m - 1, n);
    }
  }

  /** A double that is loaded and stored again comes back bit for bit, whatever the rounding mode, but
      a signalling NaN comes back quiet. */
  method DoubleThrough(lo: nat, hi: nat, rc: Rc) returns (lo': nat, hi': nat, loss: Loss)
    requires lo < W32 && hi < W32
    ensures lo' == lo && loss == Exact
    ensures hi' == if D.Exponent(hi) == 0x7ff && 0 < D.Fraction(lo, hi) < D.TWO52 / 2 then hi + 0x8_0000 else hi
  {
    hide Shl, Rounded, D.DoubleValue, D.Sign, D.Exponent, D.Fraction, D.Quiet, D.Overflows;
    var r := new Reg(false, Empty, 0, 0, 0);
    var underflow, denormal;
    ghost var m, m';
    denormal, m := LoadDouble(r, lo, hi);
    lo', hi', loss, underflow, m' := D.StoreDouble(r, rc);
    if r.tag == Valid {
      ExactRounded(rc, r.sign, m, D.DoubleLost(r.exp));
      RoundedUnique(rc, r.sign, r.Sig(), D.DoubleLost(r.exp), m, m');
      DoubleUnique(lo, hi, lo', hi');
    } else if r.tag == Zero {
      DoubleZero(lo, hi);
      DoubleUnique(lo, hi, lo', hi');
    } else {
      SpecialBack(lo, hi, lo', hi');
    }
  }

  lemma {:induction false} DoubleZero(lo: nat, hi: nat)
    requires D.Exponent(hi) == 0 && D.Fraction(lo, hi) == 0
    ensures D.DoubleValue(lo, hi) == 0
  {
  }

  /** Infinities and NaNs. */
  lemma {:induction false} SpecialBack(lo: nat, hi: nat, lo': nat, hi': nat)
    requires lo < W32 && hi < W32 && lo' < W32 && hi' < W32 && D.Sign(hi) == D.Sign(hi') && D.Exponent(hi) == 0x7ff
    requires
      var f := D.Fraction(lo, hi);
      if f == 0 then lo' == 0 && hi' % 0x8000_0000 == 0x7ff0_0000
      else D.Exponent(hi') == 0x7ff && D.Fraction(lo', hi') == D.Quiet(f)
    ensures lo' == lo && hi' == if 0 < D.Fraction(lo, hi) < D.TWO52 / 2 then hi + 0x8_0000 else hi
  {
    hide D.Exponent, D.Fraction, D.Sign;
    var f := D.Fraction(lo, hi);
    if f == 0 {
      MagnitudeIs(lo', hi');
      WordsUnique(lo, hi, lo', hi');
    } else if f < D.TWO52 / 2 {
      QuietWord(lo, hi);
      WordsUnique(lo, hi + 0x8_0000, lo', hi');
    } else {
      WordsUnique(lo, hi, lo', hi');
    }
  }

  /** Setting the first bit of a fraction. */
  lemma {:induction false} QuietWord(lo: nat, hi: nat)
    requires lo < W32 && hi < W32 && D.Fraction(lo, hi) < D.TWO52 / 2
    ensures hi + 0x8_0000 < W32 && D.Sign(hi + 0x8_0000) == D.Sign(hi)
    ensures D.Exponent(hi + 0x8_0000) == D.Exponent(hi)
    ensures D.Fraction(lo, hi + 0x8_0000) == D.Fraction(lo, hi) + D.TWO52 / 2
  {
    var a, b := hi / 0x10_0000, hi % 0x10_0000;
    assert b < 0x8_0000;
    assert hi + 0x8_0000 == a * 0x10_0000 + (b + 0x8_0000);
    assert (hi + 0x8_0000) / 0x10_0000 == a && (hi + 0x8_0000) % 0x10_0000 == b + 0x8_0000;
    assert hi / 0x8000_0000 == a / 0x800 && (hi + 0x8_0000) / 0x8000_0000 == a / 0x800;
  }

  // ---- singles -----------------------------------------------------------------------------

  lemma {:induction false} SingleParts(w: nat)
    ensures S.Exponent(w) * S.TWO23 + S.Fraction(w) == w % 0x8000_0000
  {
    assert w / 0x80_0000 % 0x100 * 0x80_0000 + w % 0x80_0000 == w % 0x8000_0000;
  }

  lemma {:induction false} SingleOrder(w: nat, w': nat)
    requires w % 0x8000_0000 < w' % 0x8000_0000
    ensures S.SingleValue(w) < S.SingleValue(w')
  {
    SingleParts(w);
    SingleParts(w');
    var e, f, e', f' := S.Exponent(w), S.Fraction(w), S.Exponent(w'), S.Fraction(w');
    assert f < S.TWO23 && f' < S.TWO23;
    NoShift(f);
    hide S.Exponent, S.Fraction;
    if e == e' {
      ShlOrder(S.TWO23 + f', S.TWO23 + f, if e == 0 then 0 else e - 1);
      hide Shl;
    } else {
      assert e < e';
      ShlOrder(S.TWO23, S.TWO23 + f', e' - 1);
      Wider(S.TWO23, if e == 0 then 0 else e - 1, e' - 1, f, e == 0);
      hide Shl;
    }
  }

  /** A finite single is determined by its sign and value. */
  lemma {:induction false} SingleUnique(w: nat, w': nat)
    requires w < W32 && w' < W32 && S.Sign(w) == S.Sign(w') && S.SingleValue(w) == S.SingleValue(w')
    ensures w == w'
  {
    if w % 0x8000_0000 < w' % 0x8000_0000 {
      SingleOrder(w, w');
    } else if w' % 0x8000_0000 < w % 0x8000_0000 {
      SingleOrder(w', w);
    }
    assert w == w / 0x8000_0000 * 0x8000_0000 + w % 0x8000_0000;
    assert w' == w' / 0x8000_0000 * 0x8000_0000 + w' % 0x8000_0000;
  }

  /** reg_load_single (lines 222-289), which tells a zero by the whole word. */
  method LoadSingle(r: Reg, w: nat) returns (denormal: bool, ghost m: nat)
    requires w < W32
    modifies r
    ensures r.Words() && r.sign == S.Sign(w)
    ensures denormal <==> S.Exponent(w) == 0 && S.Fraction(w) != 0
    ensures r.tag == if S.Exponent(w) == 0xff then (if S.Fraction(w) == 0 then Infinity else NaN)
                     else if S.Exponent(w) == 0 && S.Fraction(w) == 0 then Zero else Valid
    ensures r.tag == Valid ==>
      && r.sigh >= 0x8000_0000 && r.Sig() == Shl(m, S.SingleLost(r.exp))
      && S.SingleValue(w) == Shl(m, S.SinglePlace(r.exp)) && !S.Overflows(r.exp, m)
    ensures r.tag == NaN ==> r.sigl == 0 && r.sigh == 256 * (S.TWO23 + S.Fraction(w))
  {
    hide Shl;
    m := S.Fraction(w);
    SingleParts(w);
    denormal := false;
    r.sign := w / 0x8000_0000 % 2 == 1;
    if w % 0x8000_0000 == 0 {
      r.tag, r.exp, r.sigh, r.sigl := Zero, EXP_UNDER, 0, 0;
      return;
    }
    var exp := w / 0x80_0000 % 0x100 - 127;
    var m32 := w % 0x80_0000 * 256;
    S.ShlMany(m);
    if exp < -126 {
      r.exp, r.tag, r.sigh, r.sigl := -126, Valid, m32, 0;
      ghost var s := NormalizeNuo(r);
      DenormalSig(m, 40, s, r.Sig());
      NoShift(m);
      denormal := true;
    } else if exp > 127 {
      if m32 == 0 {
        r.sigh, r.sigl, r.exp, r.tag := 0x8000_0000, 0, EXP_OVER, Infinity;
      } else {
        r.exp, r.tag, r.sigh, r.sigl := EXP_OVER, NaN, m32 + 0x8000_0000, 0;
      }
    } else {
      r.exp, r.sigh, r.sigl, r.tag := exp, m32 + 0x8000_0000, 0, Valid;
      m := m + S.TWO23;
      S.ShlMany(m);
    }
  }

  /** The same for singles: loaded and stored again, a single comes back bit for bit. */
  method SingleThrough(w: nat, rc: Rc) returns (w': nat, loss: Loss)
    requires w < W32
    ensures loss == Exact
    ensures w' == if S.Exponent(w) == 0xff && 0 < S.Fraction(w) < S.TWO23 / 2 then w + 0x40_0000 else w
  {
    hide Shl, Rounded, S.SingleValue, S.Sign, S.Exponent, S.Fraction, S.Quiet, S.Overflows;
    var r := new Reg(false, Empty, 0, 0, 0);
    var underflow, denormal;
    ghost var m, m';
    denormal, m := LoadSingle(r, w);
    w', loss, underflow, m' := S.StoreSingle(r, rc);
    if r.tag == Valid {
      ExactRounded(rc, r.sign, m, S.SingleLost(r.exp));
      RoundedUnique(rc, r.sign, r.Sig(), S.SingleLost(r.exp), m, m');
      SingleUnique(w, w');
    } else if r.tag == Zero {
      SingleZero(w);
      SingleUnique(w, w');
    } else {
      SpecialSingle(w, w');
    }
  }

  lemma {:induction false} SingleZero(w: nat)
    requires S.Exponent(w) == 0 && S.Fraction(w) == 0
    ensures S.SingleValue(w) == 0
  {
  }

  lemma {:induction false} SpecialSingle(w: nat, w': nat)
    requires w < W32 && w' < W32 && S.Sign(w) == S.Sign(w') && S.Exponent(w) == 0xff
    requires
      var f := S.Fraction(w);
      if f == 0 then w' % 0x8000_0000 == 0x7f80_0000 else S.Exponent(w') == 0xff && S.Fraction(w') == S.Quiet(f)
    ensures w' == if 0 < S.Fraction(w) < S.TWO23 / 2 then w + 0x40_0000 else w
  {
    SingleParts(w);
    SingleParts(w');
    assert w == w / 0x8000_0000 * 0x8000_0000 + w % 0x8000_0000;
    assert w' == w' / 0x8000_0000 * 0x8000_0000 + w' % 0x8000_0000;
    hide S.Exponent, S.Fraction;
  }
}
