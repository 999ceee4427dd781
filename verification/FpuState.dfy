/** fsave and frstor of drivers/FPU-emu/reg_ld_str.c in the 32-bit format: the image one writes
    brings the other back to the same state. User memory is an array of 16-bit words.
 */
module FpuState {

  import opened Bits
  import opened FpuRound

  /** An element of `regs[]`. */
  datatype Content = Content(sign: bool, tag: Tag, exp: int, sigh: nat, sigl: nat)

  function SigOf(r: Content): nat { r.sigh * W32 + r.sigl }

  /** What registers hold: two words and an exponent below EXP_OVER's successor. */
  predicate Plain(r: Content) { r.sigl < W32 && r.sigh < W32 && r.exp <= 0x4000 }

  // ---- ten-byte reals ----------------------------------------------------------------------

  const EXT_BIAS: int := 0x3fff
  const INF_HIGH: nat := 0x8000_0000

  /** Places the significand of `x` is short of 64 bits. */
  function Lead(x: nat): nat
    requires 0 < x < W64
    decreases W64 - x
  {
    if x >= 0x8000_0000_0000_0000 then 0 else 1 + Lead(2 * x)
  }

  lemma {:induction false} LeadShifts(x: nat)
    requires 0 < x < W64
    ensures 0x8000_0000_0000_0000 <= Shl(x, Lead(x)) < W64
    decreases W64 - x
  {
    if x < 0x8000_0000_0000_0000 {
      LeadShifts(2 * x);
      ShlTwice(x, Lead(2 * x));
    } else {
      assert Shl(x, 0) == x;
    }
  }

  /** Only one shift fills the significand. */
  lemma {:induction false} LeadIs(x: nat, k: nat)
    requires 0 < x < W64 && 0x8000_0000_0000_0000 <= Shl(x, k) < W64
    ensures k == Lead(x)
    decreases k
  {
    if k == 0 {
      assert Shl(x, 0) == x;
    } else {
      ShlTwice(x, k - 1);
      hide Shl;
      assert Shl(x, k) == Shl(2 * x, k - 1);
      ShlGrows(2 * x, k - 1);
      LeadIs(2 * x, k - 1);
    }
  }

  lemma {:induction false} ShlGrows(x: nat, n: nat)
    ensures Shl(x, n) >= x
  {
  }

  function WithSig(r: Content, x: nat): Content
    requires x < W64
  {
    r.(sigh := x / W32, sigl := x % W32)
  }

  /** A signalling NaN in place of a format that is not supported. */
  function Unsupported(): Content { Content(true, NaN, 0x4000, INF_HIGH, 1) }

  /** reg_load_extended: the register for two words of significand and one of sign and exponent. */
  function Loaded(lo: nat, hi: nat, e: nat): (r: Content)
    requires lo < W32 && hi < W32 && e < 0x1_0000
  {
    var sign, exp := e >= 0x8000, e % 0x8000;
    var x := hi * W32 + lo;
    if exp == 0 then
      if x == 0 then Content(sign, Zero, -EXT_BIAS, 0, 0)
      else if hi >= INF_HIGH then Content(sign, Valid, 1 - EXT_BIAS, hi, lo)
      else
        LeadShifts(x);
        WithSig(Content(sign, Valid, 1 - EXT_BIAS - Lead(x), 0, 0), Shl(x, Lead(x)))
    else if exp == 0x7fff then
      if hi == INF_HIGH && lo == 0 then Content(sign, Infinity, 0x4000, hi, lo)
      else if hi >= INF_HIGH then Content(sign, NaN, 0x4000, hi, lo)
      else Unsupported()
    else if hi < INF_HIGH then Unsupported()
    else Content(sign, Valid, exp - EXT_BIAS, hi, lo)
  }

  /** What write_to_extended may leave for register `r`: a number too small for a normal one is
      rounded to the last place of a denormal. */
  ghost predicate Written(rc: Rc, r: Content, lo: nat, hi: nat, e: nat) {
    && lo < W32 && hi < W32
    && e == (if r.exp + EXT_BIAS > 0 then r.exp + EXT_BIAS else 0) + (if r.sign then 0x8000 else 0)
    && (r.exp + EXT_BIAS > 0 ==> hi == r.sigh && lo == r.sigl)
    && (r.exp + EXT_BIAS <= 0 && r.tag == Zero ==> hi == 0 && lo == 0)
    && (r.exp + EXT_BIAS <= 0 && r.tag != Zero ==> Rounded(rc, r.sign, SigOf(r), 1 - EXT_BIAS - r.exp, hi * W32 + lo))
  }

  /** The registers that have a ten-byte form of the right kind: normal numbers, denormals whose
      significand ends in the zeros that a denormal drops, zeros, infinities and NaNs. */
  ghost predicate Representable(r: Content) {
    && Plain(r)
    && match r.tag
       case Valid =>
         && r.sigh >= INF_HIGH && r.exp <= EXT_BIAS
         && (r.exp + EXT_BIAS <= 0 ==> Low(SigOf(r), 1 - EXT_BIAS - r.exp) == 0)
       case Zero => r.exp == -EXT_BIAS && r.sigh == 0 && r.sigl == 0
       case Infinity => r.exp == 0x4000 && r.sigh == INF_HIGH && r.sigl == 0
       case NaN => r.exp == 0x4000 && r.sigh >= INF_HIGH && !(r.sigh == INF_HIGH && r.sigl == 0)
       case Empty => false
  }

  /** A register with a normalised significand. */
  predicate Normalised(r: Content) { Plain(r) && r.tag == Valid && r.sigh >= INF_HIGH && r.exp <= EXT_BIAS }

  /** A denormal comes back, or it lost bits. */
  lemma {:induction false} DenormalBack(rc: Rc, r: Content, lo: nat, hi: nat, e: nat)
    requires Normalised(r) && r.exp + EXT_BIAS <= 0 && Written(rc, r, lo, hi, e)
    ensures Loaded(lo, hi, e) == r <==> Low(SigOf(r), 1 - EXT_BIAS - r.exp) == 0
  {
    var x, k, m := SigOf(r), 1 - EXT_BIAS - r.exp, hi * W32 + lo;
    Split(x, k);
    BitsRound(rc, r.sign, x, k);
    LostNone(x, k);
    hide Rounded, Shl, Drop, Low, Half, Below;
    if Low(x, k) == 0 {
      assert m == Drop(x, k) by {
        DropRounded(rc, r.sign, x, k);
        RoundedUnique(rc, r.sign, x, k, m, Drop(x, k));
      }
      Denormal(r, lo, hi, e, k);
    } else if m > 0 && hi < INF_HIGH {
      LeadShifts(m);
      if Loaded(lo, hi, e) == r {
        assert Lead(m) == k && Shl(m, k) == x;
        Join0(m, k);
      }
    }
  }

  lemma {:induction false} Join0(m: nat, k: nat)
    ensures Low(Shl(m, k), k) == 0
  {
    Join(0, m, k) by { PowPositive(k); }
  }

  lemma {:induction false} LostNone(x: nat, k: nat)
    ensures Low(x, k) == 0 <==> Shl(Drop(x, k), k) == x
  {
    Split(x, k);
    hide Shl, Drop, Low;
  }

  lemma {:induction false} DropRounded(rc: Rc, negative: bool, x: nat, k: nat)
    requires Shl(Drop(x, k), k) == x
    ensures Rounded(rc, negative, x, k, Drop(x, k))
  {
    hide Drop, Shl, Pow2;
    var d := Drop(x, k);
    PowPositive(k);
    ShlSucc(d, k);
    if d > 0 {
      ShlSucc(d - 1, k);
    }
  }

  lemma {:induction false} Denormal(r: Content, lo: nat, hi: nat, e: nat, k: nat)
    requires Normalised(r) && k == 1 - EXT_BIAS - r.exp && k > 0 && lo < W32 && hi < W32
    requires Shl(hi * W32 + lo, k) == SigOf(r) && e == if r.sign then 0x8000 else 0
    ensures Loaded(lo, hi, e) == r
  {
    var m, x := hi * W32 + lo, SigOf(r);
    ZeroShl(k);
    ShlMoreThan(m, k);
    hide Shl;
    assert 0 < m < 0x8000_0000_0000_0000;
    LeadIs(m, k);
    assert x / W32 == r.sigh && x % W32 == r.sigl;
  }

  /** Every representable register comes back from its ten bytes. */
  lemma {:induction false} RegisterBack(rc: Rc, r: Content, lo: nat, hi: nat, e: nat)
    requires Representable(r) && Written(rc, r, lo, hi, e)
    ensures Loaded(lo, hi, e) == r
  {
    hide Rounded, Low;
    if r.tag == Valid && r.exp + EXT_BIAS <= 0 {
      DenormalBack(rc, r, lo, hi, e);
    }
  }

  // ---- control, status and tag words -------------------------------------------------------

  /** The control word with bits 7 and 13 to 15 clear and, as an 80486 has it, bit 6 set. */
  function Control(cw: nat): nat { cw % 64 + 64 + cw / 256 % 32 * 256 }

  /** `control_word & ~0xe080`. */
  function Cleared(cw: nat): nat { cw % 128 + cw / 256 % 32 * 256 }

  /** status_word(): `top` in bits 11 to 13. */
  function Status(ps: nat, top: nat): nat { ps % 2048 + top * 2048 + ps / 16384 % 4 * 16384 }

  predicate BitOf(w: nat, b: nat)
    requires b > 0
  {
    w / b % 2 == 1
  }

  /** Some exception bit of `p` has no mask bit in `c`. */
  predicate Unmasked(p: nat, c: nat) {
    || (BitOf(p, 1) && !BitOf(c, 1)) || (BitOf(p, 2) && !BitOf(c, 2)) || (BitOf(p, 4) && !BitOf(c, 4))
    || (BitOf(p, 8) && !BitOf(c, 8)) || (BitOf(p, 16) && !BitOf(c, 16)) || (BitOf(p, 32) && !BitOf(c, 32))
  }

  /** `status & ~control & CW_Exceptions`: an exception has happened and is not masked. */
  predicate Pending(ps: nat, cw: nat) { Unmasked(ps % 64, cw % 64) }

  /** The summary and busy bits, 7 and 15, set or cleared together. */
  function Summed(ps: nat, on: bool): nat {
    ps % 128 + (if on then 128 else 0) + ps / 256 % 128 * 256 + (if on then 0x8000 else 0)
  }

  /** The bits agree with the exceptions. */
  predicate Consistent(ps: nat, cw: nat) { BitOf(ps, 128) == Pending(ps, cw) && BitOf(ps, 0x8000) == Pending(ps, cw) }

  /** A status word in order is not changed by setting its summary bits again. */
  lemma {:induction false} SummedSame(ps: nat, cw: nat)
    requires ps < 0x1_0000 && Consistent(ps, cw)
    ensures Summed(ps, Pending(ps, cw)) == ps
  {
    hide Pending;
    var a, b, c, d := ps % 128, ps / 128 % 2, ps / 256 % 128, ps / 0x8000;
    assert ps == a + b * 128 + c * 256 + d * 0x8000;
  }

  lemma {:induction false} StatusTop(ps: nat, top: nat)
    requires top < 8
    ensures Status(ps, top) / 2048 % 8 == top && Status(ps, top) < 0x1_0000
    ensures Status(Status(ps, top), top) == Status(ps, top)
  {
    var a, b := ps % 2048, ps / 16384 % 4;
    var w := Status(ps, top);
    assert w == a + 2048 * (top + 8 * b);
    assert w / 2048 == top + 8 * b;
    assert w / 16384 == b;
  }

  /** Two bits a register: valid, zero, special, empty. */
  function TagBits(r: Content): nat {
    match r.tag
    case Valid => if r.exp <= -EXT_BIAS then 2 else 0
    case Zero => 1
    case Infinity => 2
    case NaN => 2
    case Empty => 3
  }

  function TagWord(regs: seq<Content>): nat {
    if regs == [] then 0 else TagBits(regs[0]) + 4 * TagWord(regs[1..])
  }
}
