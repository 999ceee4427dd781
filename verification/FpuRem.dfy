/** fprem of drivers/FPU-emu/fpu_trig.c on two numbers whose exponents differ by less than 64: the
    remainder, exact, and the low bits of the quotient.
 */
module FpuRem {

  import opened Bits
  import opened FpuRound

  // ---- products ----------------------------------------------------------------------------

  /** `mull`. */
  function Mull(a: nat, b: nat): nat { a * b }

  lemma {:induction false} MullIs(a: nat, b: nat)
    ensures Mull(a, b) == a * b && Mull(a + 1, b) == Mull(a, b) + b
  {
  }

  lemma {:induction false} MullTwice(a: nat, b: nat)
    ensures Mull(2 * a, b) == 2 * Mull(a, b)
  {
  }

  lemma {:induction false} ShlTimes(x: nat, y: nat, n: nat)
    ensures Mull(Shl(x, n), y) == Shl(Mull(x, y), n)
  {
    hide Mull;
    if n > 0 {
      ShlTimes(x, y, n - 1);
      MullTwice(Shl(x, n - 1), y);
    }
  }

  lemma {:induction false} TimesOrder(x: nat, y: nat, z: nat)
    requires x <= y
    ensures Mull(x, z) <= Mull(y, z)
  {
  }

  /** A product of two 64-bit numbers from their 32-bit halves. */
  lemma {:induction false} Halves(st1: nat, quo: nat, a1: nat, a0: nat, q1: nat, q0: nat)
    requires st1 == a1 * W32 + a0 && quo == q1 * W32 + q0
    ensures quo * st1 == Mull(a0, q0) + W32 * (Mull(a1, q0) + Mull(a0, q1)) + W64 * Mull(a1, q1)
  {
    var a, q := a1 * W32 + a0, q1 * W32 + q0;
    assert a * q == a * (q1 * W32) + a * q0;
    assert a * q0 == a1 * W32 * q0 + a0 * q0;
    assert a * (q1 * W32) == W32 * (a * q1);
    assert a * q1 == W32 * (a1 * q1) + a0 * q1;
  }

  // ---- rem_kernel --------------------------------------------------------------------------

  /** `movl; mull; subl; sbbl` and two more `mull; subl`: only the low 64 bits of `q * st1` are
      formed, in four 32-bit parts. */
  method RemKernel(st0: nat, st1: nat, q: nat, n: nat) returns (y: nat, ghost k: int)
    requires st0 < W64 && st1 < W64 && q < W64
    ensures y < W64 && y == Shl(st0, n) - q * st1 + W64 * k
  {
    hide Shl, Mull;
    var x := Shl(st0, n) % W64;
    k := -(Shl(st0, n) / W64);
    var a0, a1, q0, q1 := st1 % W32, st1 / W32, q % W32, q / W32;
    var lo, hi := x % W32, x / W32;

    var low := Mull(a0, q0);
    var eax, edx := low % W32, low / W32;
    var borrow := if lo < eax then 1 else 0;
    lo := lo - eax + borrow * W32;
    hi, k := Sub32(hi, edx + borrow, k);

    var cross1 := Mull(a1, q0);
    hi, k := Sub32(hi, cross1 % W32, k);
    ghost var c1 := cross1 / W32;

    var cross2 := Mull(a0, q1);
    hi, k := Sub32(hi, cross2 % W32, k);
    ghost var c2 := cross2 / W32;

    y := hi * W32 + lo;
    ghost var top := Mull(a1, q1);
    Halves(st1, q, a1, a0, q1, q0);
    k := k + c1 + c2 + top;
  }

  /** `subl` on the high half: what goes below zero comes round. */
  method Sub32(hi: nat, v: nat, ghost k0: int) returns (r: nat, ghost k: int)
    requires hi < W32
    ensures r < W32 && r == hi - v + W32 * (k - k0)
  {
    r := (hi - v) % W32;
    k := k0 - (hi - v) / W32;
  }

  /** Nothing is lost when the remainder is one. */
  lemma {:induction false} LowBitsEnough(y: nat, k: int, rem: int)
    requires y < W64 && 0 <= rem < W64 && y == rem + W64 * k
    ensures y == rem
  {
  }

  // ---- reg_div, normalize_nuo --------------------------------------------------------------

  lemma {:induction false} Quotient(a: nat, b: nat)
    requires b > 0
    ensures Mull(a / b, b) <= a < Mull(a / b + 1, b)
  {
  }

  /** The assembler routine reg_div for two significands, chopped to 64 bits: `sig` times two to
      the power `exp - 63` is the quotient, less than one unit short of it. */
  method RegDiv(x: nat, y: nat, expdif: int) returns (sig: nat, exp: int)
    requires 0x8000_0000_0000_0000 <= x < W64 && 0x8000_0000_0000_0000 <= y < W64
    ensures sig < W64 && exp == (if x < y then expdif - 1 else expdif)
    ensures Mull(sig, y) <= Shl(x, 63 + (expdif - exp)) < Mull(sig + 1, y)
  {
    hide Shl, Mull;
    exp := if x < y then expdif - 1 else expdif;
    var num := Shl(x, 63 + (expdif - exp));
    sig := num / y;
    Quotient(num, y);
    QuotientFits(x, y, num, sig, expdif - exp);
  }

  lemma {:induction false} QuotientFits(x: nat, y: nat, num: nat, sig: nat, more: nat)
    requires 0x8000_0000_0000_0000 <= y && x < W64 && more <= 1 && (more == 1 ==> x < y)
    requires num == Shl(x, 63 + more) && Mull(sig, y) <= num
    ensures sig < W64
  {
    Shl63(x);
    ShlMore(x, 63, 1);
    ShlByOne(Shl(x, 63));
    Mull64(y);
    hide Shl, Mull;
    if sig >= W64 {
      TimesOrder(W64, sig, y);
    }
  }

  lemma {:induction false} Mull64(y: nat)
    ensures Mull(W64, y) == W64 * y
  {
  }

  lemma {:induction false} Shl63(m: nat)
    ensures Shl(m, 63) == 0x8000_0000_0000_0000 * m
  {
    hide Shl;
    ShlEight(m);
    ShlEight(0x100 * m);
    ShlEight(0x1_0000 * m);
    ShlEight(0x100_0000 * m);
    ShlEight(0x1_0000_0000 * m);
    ShlEight(0x100_0000_0000 * m);
    ShlEight(0x1_0000_0000_0000 * m);
    ShlEight(0x100_0000_0000_0000 * m);
    ShlMore(m, 8, 8);
    ShlMore(m, 16, 8);
    ShlMore(m, 24, 8);
    ShlMore(m, 32, 8);
    ShlMore(m, 40, 8);
    ShlMore(m, 48, 8);
    ShlMore(m, 56, 7);
  }

  // ---- the quotient is the integer quotient ------------------------------------------------

  /** Chopping to 64 bits and then to an integer is chopping once. */
  lemma {:induction false} ChopTwice(x: nat, y: nat, d: nat, t: nat, sig: nat, q: nat)
    requires t >= d && Mull(sig, y) <= Shl(x, t) < Mull(sig + 1, y)
    requires Shl(q, t - d) <= sig < Shl(q + 1, t - d)
    ensures Mull(q, y) <= Shl(x, d) < Mull(q + 1, y)
  {
    hide Shl, Mull;
    ShlMore(x, d, t - d);
    TimesOrder(Shl(q, t - d), sig, y);
    TimesOrder(sig + 1, Shl(q + 1, t - d), y);
    ShlTimes(q, y, t - d);
    ShlTimes(q + 1, y, t - d);
    ShlOrder(Mull(q, y), Shl(x, d), t - d);
    ShlOrder(Mull(q + 1, y), Shl(x, d), t - d);
  }

  /** `q` is the whole quotient of the two magnitudes and `rem` what is left, in units of the smaller
      of the two last places; `d` is the difference of the exponents. */
  ghost predicate Divides(x: nat, y: nat, d: int, q: nat, rem: nat) {
    if d >= 0 then Shl(x, d) == q * y + rem && rem < y
    else q == 0 && rem == x && rem < Shl(y, -d)
  }

  lemma {:induction false} BelowDivisor(x: nat, y: nat, d: int)
    requires x < W64 && 0x8000_0000_0000_0000 <= y && d < 0
    ensures Divides(x, y, d, 0, x)
  {
    assert Shl(y, -d) == 2 * Shl(y, -d - 1);
  }

  /** There is one quotient and one remainder. */
  lemma {:induction false} DividesOnce(x: nat, y: nat, d: int, q: nat, rem: nat, q': nat, rem': nat)
    requires Divides(x, y, d, q, rem) && Divides(x, y, d, q', rem')
    ensures q == q' && rem == rem'
  {
    MullIs(q, y);
    MullIs(q', y);
    hide Shl, Mull;
    if d >= 0 {
      if q < q' {
        TimesOrder(q + 1, q', y);
      } else if q' < q {
        TimesOrder(q' + 1, q, y);
      }
    }
  }

  /** Condition code bits of the status word. */
  datatype Codes = Codes(c0: bool, c1: bool, c2: bool, c3: bool)

  lemma {:induction false} Chopped(x: nat, y: nat, d: nat, exp: nat, sig: nat, q: nat, sign: bool)
    requires exp <= d < 64 && Mull(sig, y) <= Shl(x, 63 + (d - exp)) < Mull(sig + 1, y)
    requires Rounded(Chop, sign, sig, 63 - exp, q)
    ensures Mull(q, y) <= Shl(x, d) < Mull(q, y) + y && Mull(q, y) == q * y
    ensures Divides(x, y, d, q, Shl(x, d) - q * y)
  {
    ChopTwice(x, y, d, 63 + (d - exp), sig, q);
    MullIs(q, y);
    hide Shl, Mull;
  }

  /** A quotient below one leaves the dividend. */
  lemma {:induction false} Small(x: nat, y: nat, d: int)
    requires x < W64 && 0x8000_0000_0000_0000 <= y && (d < 0 || (d == 0 && x < y))
    ensures Divides(x, y, d, 0, x) && Shl(x, 0) == x
  {
    if d < 0 {
      BelowDivisor(x, y, d);
    } else {
      assert 0 * y == 0;
    }
  }

  /** Lines 798-810: the remainder when the exponents allow a quotient of one or more. */
  method Remainder(x: nat, y: nat, expdif: nat, exp: nat, sig: nat, sign: bool) returns (quo: nat, r: nat)
    requires x < W64 && y < W64 && sig < W64 && exp <= expdif < 64
    requires Mull(sig, y) <= Shl(x, 63 + (expdif - exp)) < Mull(sig + 1, y)
    ensures r < W64 && Divides(x, y, expdif, quo, r)
  {
    hide Shl, Rounded, Mull, Divides;
    var tmp := new Reg(sign, Valid, exp, 0, 0);
    tmp.SetSig(sig);
    var _ := RoundToInt(tmp, Chop);
    quo := tmp.Sig();
    Chopped(x, y, expdif, exp, sig, quo, sign);
    ghost var k;
    r, k := RemKernel(x, y, quo, expdif);
    LowBitsEnough(r, k, Shl(x, expdif) - quo * y);
  }

  /** do_fprem with RC_CHOP (lines 763-857, 902-906), exceptions masked: st(0) becomes the remainder
      exactly, with its own sign, and the codes hold the low bits of the quotient. */
  method Fprem(st0: Reg, st1: Reg) returns (cc: Codes, ghost q: nat, ghost rem: nat, ghost s: nat)
    requires st0 != st1 && st0.Words() && st1.Words() && st0.tag == Valid && st1.tag == Valid
    requires st0.sigh >= 0x8000_0000 && st1.sigh >= 0x8000_0000 && st0.exp - st1.exp < 64
    modifies st0
    ensures st0.Words() && st0.sign == old(st0.sign)
    ensures Divides(old(st0.Sig()), st1.Sig(), old(st0.exp) - st1.exp, q, rem)
    ensures rem == 0 ==> st0.tag == Zero && st0.Sig() == 0
    ensures rem != 0 ==> st0.tag == Valid && st0.sigh >= 0x8000_0000 && st0.Sig() == Shl(rem, s)
    ensures rem != 0 ==> st0.exp == (if old(st0.exp) < st1.exp then old(st0.exp) else st1.exp) - s
    ensures cc == Codes(q / 4 % 2 == 1, q % 2 == 1, false, q / 2 % 2 == 1)
  {
    hide Shl, Mull, Divides;
    var x, y, expdif := st0.Sig(), st1.Sig(), st0.exp - st1.exp;
    q, rem, s := 0, x, 0;
    NoShift(x);
    if expdif < -1 {
      Small(x, y, expdif);
      return Codes(false, false, false, false), q, rem, s;
    }
    var sig, exp := RegDiv(x, y, expdif);
    var quo := 0;
    if exp >= 0 {
      var tmp := new Reg.Copy(st0);
      var r;
      quo, r := Remainder(x, y, expdif, exp, sig, st0.sign);
      q, rem := quo, r;
      tmp.SetSig(r);
      tmp.exp := st1.exp;
      s := NormalizeNuo(tmp);
      st0.tag, st0.exp, st0.sigh, st0.sigl := tmp.tag, tmp.exp, tmp.sigh, tmp.sigl;
    } else {
      Small(x, y, expdif);
    }
    cc := Codes(quo / 4 % 2 == 1, quo % 2 == 1, false, quo / 2 % 2 == 1);
  }
}
