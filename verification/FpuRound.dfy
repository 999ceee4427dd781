/** Rounding in drivers/FPU-emu: registers, what a correct rounding is, and round_to_int. */
module FpuRound {

  import opened Bits

  const W32: nat := 0x1_0000_0000
  const W64: nat := 0x1_0000_0000_0000_0000

  const EXP_UNDER: int := -0x3fff
  const EXP_OVER: int := 0x4000

  /** The rounding control field of the control word. */
  datatype Rc = Nearest | Down | Up | Chop

  datatype Tag = Valid | Zero | Infinity | NaN | Empty

  /** What a conversion reports: nothing lost, or magnitude lost or gained. */
  datatype Loss = Exact | LostDown | LostUp | TooBig

  /** FPU_REG: `sigh:sigl` times two to the power `exp - 63`. */
  class Reg {
    var sign: bool
    var tag: Tag
    var exp: int
    var sigl: nat
    var sigh: nat

    predicate Words()
      reads this
    {
      sigl < W32 && sigh < W32
    }

    function Sig(): nat
      reads this
    {
      sigh * W32 + sigl
    }

    constructor (sign: bool, tag: Tag, exp: int, sigh: nat, sigl: nat)
      ensures this.sign == sign && this.tag == tag && this.exp == exp && this.sigh == sigh && this.sigl == sigl
    {
      this.sign, this.tag, this.exp, this.sigh, this.sigl := sign, tag, exp, sigh, sigl;
    }

    /** reg_move. */
    constructor Copy(r: Reg)
      ensures sign == r.sign && tag == r.tag && exp == r.exp && sigh == r.sigh && sigl == r.sigl
    {
      sign, tag, exp, sigh, sigl := r.sign, r.tag, r.exp, r.sigh, r.sigl;
    }

    method SetSig(x: nat)
      requires x < W64
      modifies `sigl, `sigh
      ensures Words() && Sig() == x
    {
      sigl, sigh := x % W32, x / W32;
    }
  }

  // ---- correct rounding --------------------------------------------------------------------

  function Gap(a: nat, b: nat): nat { if a <= b then b - a else a - b }

  /** `m` is what `x` is, counted in units of `2^n`, rounded as `rc` says for a number of this sign:
      section 4 of IEEE 754-1985. */
  ghost predicate Rounded(rc: Rc, negative: bool, x: nat, n: nat, m: nat) {
    match rc
    case Chop => Shl(m, n) <= x < Shl(m + 1, n)
    case Down => if negative then x <= Shl(m, n) && (m > 0 ==> Shl(m - 1, n) < x) else Shl(m, n) <= x < Shl(m + 1, n)
    case Up => if negative then Shl(m, n) <= x < Shl(m + 1, n) else x <= Shl(m, n) && (m > 0 ==> Shl(m - 1, n) < x)
    case Nearest => 2 * Gap(Shl(m, n), x) <= Pow2(n) && (2 * Gap(Shl(m, n), x) == Pow2(n) ==> m % 2 == 0)
  }

  predicate AwayFromZero(rc: Rc, negative: bool) { (rc == Down && negative) || (rc == Up && !negative) }

  lemma {:induction false} ShlSucc(m: nat, n: nat)
    ensures Shl(m + 1, n) == Shl(m, n) + Pow2(n)
  {
    ShlAdd(m, 1, n);
    ShlOne(n);
  }

  lemma {:induction false} ShlOne(n: nat)
    ensures Shl(1, n) == Pow2(n)
  {
    if n > 0 {
      ShlOne(n - 1);
      ShlAdd(1, 1, n - 1);
    }
  }

  /** There is only one correct rounding. */
  lemma {:induction false} RoundedUnique(rc: Rc, negative: bool, x: nat, n: nat, m: nat, k: nat)
    requires Rounded(rc, negative, x, n, m) && Rounded(rc, negative, x, n, k)
    ensures m == k
  {
    hide Shl, Pow2;
    if m < k {
      Between(x, n, m, k);
      RoundedApart(rc, negative, x, n, m, k);
    } else if k < m {
      Between(x, n, k, m);
      RoundedApart(rc, negative, x, n, k, m);
    }
  }

  lemma {:induction false} Between(x: nat, n: nat, m: nat, k: nat)
    requires m < k
    ensures Shl(m, n) + Pow2(n) == Shl(m + 1, n) <= Shl(k, n) && Shl(m, n) <= Shl(k - 1, n)
    ensures m + 1 < k ==> Shl(m, n) + 2 * Pow2(n) <= Shl(k, n)
  {
    hide Shl, Pow2;
    ShlSucc(m, n);
    ShlOrder(m + 1, k, n);
    ShlOrder(m, k - 1, n);
    if m + 1 < k {
      ShlSucc(m + 1, n);
      ShlOrder(m + 2, k, n);
    }
  }

  lemma {:induction false} RoundedApart(rc: Rc, negative: bool, x: nat, n: nat, m: nat, k: nat)
    requires m < k && Rounded(rc, negative, x, n, m)
    requires Shl(m, n) + Pow2(n) == Shl(m + 1, n) <= Shl(k, n) && Shl(m, n) <= Shl(k - 1, n)
    requires m + 1 < k ==> Shl(m, n) + 2 * Pow2(n) <= Shl(k, n)
    ensures !Rounded(rc, negative, x, n, k)
  {
    hide Shl, Pow2;
    PowPositive(n);
    if rc == Nearest && k == m + 1 {
      assert m % 2 == 0 ==> k % 2 == 1;
    }
  }

  /** Rounding does not pass a multiple of the place. */
  lemma {:induction false} RoundedMost(rc: Rc, negative: bool, x: nat, n: nat, m: nat, k: nat)
    requires Rounded(rc, negative, x, n, m) && x <= Shl(k, n)
    ensures m <= k
  {
    hide Shl, Pow2;
    PowPositive(n);
    if m > k {
      Between(x, n, k, m);
    }
  }

  /** When rounding in units of `2^n` carries out of 64 bits, `top` units being `2^64`. */
  lemma {:induction false} Carries(rc: Rc, negative: bool, x: nat, n: nat, unit: nat, top: nat, m: nat)
    requires x < W64 && Rounded(rc, negative, x, n, m) && top > 0 && top % 2 == 0 && 0 < unit == Pow2(n)
    requires Shl(top - 1, n) + unit == Shl(top, n) == W64 && Shl(top + 1, n) == W64 + unit
    ensures m == top <==> if rc == Nearest then 2 * (W64 - x) <= unit else AwayFromZero(rc, negative) && W64 < x + unit
  {
    hide Shl, Pow2;
    assert Rounded(rc, negative, x, n, top) <==>
      if rc == Nearest then 2 * (W64 - x) <= unit else AwayFromZero(rc, negative) && W64 < x + unit;
    hide Rounded;
    if Rounded(rc, negative, x, n, top) {
      RoundedUnique(rc, negative, x, n, m, top);
    }
  }

  lemma {:induction false} PowPositive(n: nat)
    ensures Pow2(n) >= 1
  {
  }

  /** Whether the magnitude goes up, from the lost bits: as the code decides it. */
  function GoesUp(rc: Rc, negative: bool, odd: bool, half: bool, below: bool): bool {
    match rc
    case Nearest => half && (below || odd)
    case Down => negative && (half || below)
    case Up => !negative && (half || below)
    case Chop => false
  }

  /** The first bit lost when `n` are dropped, and whether any lower one is set. */
  function Half(x: nat, n: nat): bool { n > 0 && Bit(x, n - 1) == 1 }
  function Below(x: nat, n: nat): bool { n > 0 && Low(x, n - 1) != 0 }

  lemma {:induction false} LostBits(x: nat, n: nat)
    requires n > 0
    ensures Low(x, n) == Low(x, n - 1) + (if Half(x, n) then Pow2(n - 1) else 0)
    ensures Pow2(n) == 2 * Pow2(n - 1) && Low(x, n - 1) < Pow2(n - 1)
  {
    LowSucc(x, n - 1);
    ShlOne(n - 1);
    ZeroShl(n - 1);
    hide Low, Shl;
  }

  /** Deciding by the lost bits rounds correctly. */
  lemma {:induction false} BitsRound(rc: Rc, negative: bool, x: nat, n: nat)
    ensures var d := Drop(x, n);
      var m := if GoesUp(rc, negative, d % 2 == 1, Half(x, n), Below(x, n)) then d + 1 else d;
      Rounded(rc, negative, x, n, m)
    ensures !Half(x, n) && !Below(x, n) <==> Shl(Drop(x, n), n) == x
    ensures Shl(Drop(x, n), n) <= x < Shl(Drop(x, n) + 1, n)
  {
    hide Shl, Drop, Low, Half, Below, Pow2;
    var d := Drop(x, n);
    Split(x, n);
    ShlSucc(d, n);
    PowPositive(n);
    if d > 0 {
      ShlSucc(d - 1, n);
    }
    if n == 0 {
      NoBits(x);
    } else {
      LostBits(x, n);
      BelowIs(x, n);
      PowPositive(n - 1);
    }
  }

  lemma {:induction false} NoBits(x: nat)
    ensures Low(x, 0) == 0 && Pow2(0) == 1 && !Half(x, 0) && !Below(x, 0)
  {
  }

  lemma {:induction false} BelowIs(x: nat, n: nat)
    requires n > 0
    ensures Below(x, n) <==> Low(x, n - 1) > 0
  {
  }

  lemma {:induction false} BitIsDrop(x: nat, n: nat)
    ensures Bit(x, n) == Drop(x, n) % 2
  {
  }

  /** The lost bits of a number given in three parts. */
  lemma {:induction false} Parts(x: nat, n: nat, d: nat, h: nat, f: nat)
    requires n > 0 && h < 2 && f < Pow2(n - 1) && x == f + Shl(2 * d + h, n - 1)
    ensures Drop(x, n) == d && Half(x, n) == (h == 1) && Below(x, n) == (f != 0)
  {
    hide Drop, Low, Bit, Shl, Pow2;
    Join(f, 2 * d + h, n - 1);
    SplitTwice(x, n - 1, 1);
    BitIsDrop(x, n - 1);
    DropOne(2 * d + h);
    TwoTimes(d, h);
    assert (2 * d + h) / 2 == d;
  }

  lemma {:induction false} DropOne(x: nat)
    ensures Drop(x, 1) == x / 2
  {
    assert Drop(x / 2, 0) == x / 2;
  }

  /** normalize_nuo: the significand moves up until its top bit is set. */
  method NormalizeNuo(r: Reg) returns (ghost s: nat)
    requires r.Words()
    modifies r
    ensures r.Words() && r.sign == old(r.sign)
    ensures old(r.Sig()) == 0 ==> r.tag == Zero && r.exp == EXP_UNDER && r.Sig() == 0 && s == 0
    ensures old(r.Sig()) != 0 ==>
      r.tag == old(r.tag) && r.sigh >= 0x8000_0000 && r.Sig() == Shl(old(r.Sig()), s) && r.exp == old(r.exp) - s
  {
    s := 0;
    var x := r.Sig();
    if x == 0 {
      r.exp, r.tag := EXP_UNDER, Zero;
      return;
    }
    ghost var x0 := x;
    while x < 0x8000_0000_0000_0000
      invariant 0 < x < W64 && x == Shl(x0, s)
      invariant r.exp == old(r.exp) - s && r.sign == old(r.sign) && r.tag == old(r.tag)
      decreases W64 - x
    {
      x := 2 * x;
      r.exp := r.exp - 1;
      s := s + 1;
    }
    r.SetSig(x);
  }

  lemma {:induction false} InFours(q: nat, r: nat)
    requires r < 4
    ensures (4 * q + r) % 4 == r
  {
  }

  lemma {:induction false} LastTwo(a: nat, h: nat)
    requires h < 2
    ensures (2 * a + h) % 4 == 2 * (a % 2) + h
  {
    var q, e := a / 2, a % 2;
    assert a == 2 * q + e && e < 2;
    InFours(q, 2 * e + h);
  }

  // ---- round_to_int ------------------------------------------------------------------------

  /** The assembler routine shrxs: the significand shifted right, with the first lost bit and
      whether any other was set. */
  method Shrxs(r: Reg, n: nat) returns (half: bool, below: bool)
    requires r.Words()
    modifies r`sigl, r`sigh
    ensures r.Words() && r.Sig() == Drop(old(r.Sig()), n)
    ensures half == Half(old(r.Sig()), n) && below == Below(old(r.Sig()), n)
  {
    var x := r.Sig();
    half, below := Half(x, n), Below(x, n);
    DropSmall(x, n);
    r.SetSig(Drop(x, n));
  }

  lemma {:induction false} DropSmall(x: nat, n: nat)
    ensures Drop(x, n) <= x
  {
    Split(x, n);
    hide Drop, Low;
  }

  /** A significand that has been shifted is not full. */
  lemma {:induction false} ShiftedNotFull(x: nat, n: nat)
    requires x < W64
    ensures Drop(x, n) < W64 - 1 || (n == 0 && !Half(x, n) && !Below(x, n))
  {
    if n > 0 {
      Split(x, n);
      ShlMoreThan(Drop(x, n), n);
      hide Drop, Low, Shl;
    }
  }

  lemma {:induction false} ShlMoreThan(x: nat, n: nat)
    requires n > 0
    ensures Shl(x, n) >= 2 * x
  {
  }

  lemma {:induction false} SigOdd(sigh: nat, sigl: nat)
    ensures (sigh * W32 + sigl) % 2 == sigl % 2
  {
    TwoTimes(sigh * (W32 / 2), sigl);
  }

  lemma {:induction false} InTwos(q: nat, r: nat)
    requires r < 2
    ensures (2 * q + r) % 2 == r
  {
  }

  lemma {:induction false} TwoTimes(k: nat, e: nat)
    ensures (2 * k + e) % 2 == e % 2
  {
    var q, r := e / 2, e % 2;
    assert e == 2 * q + r && r < 2;
    InTwos(k + q, r);
  }

  /** Lines 1125-1160: the shifted significand goes up or stays, by the bits it lost. */
  method RoundShifted(r: Reg, rc: Rc, half: bool, below: bool) returns (up: bool)
    requires r.Words() && (r.Sig() == W64 - 1 ==> !half && !below)
    modifies r`sigl, r`sigh
    ensures r.Words() && up == GoesUp(rc, r.sign, old(r.Sig()) % 2 == 1, half, below)
    ensures r.Sig() == if up then old(r.Sig()) + 1 else old(r.Sig())
  {
    var veryBig := r.sigh == W32 - 1 && r.sigl == W32 - 1;
    SigOdd(r.sigh, r.sigl);
    up := match rc
      case Nearest => (half && below) || (half && r.sigl % 2 == 1)
      case Down => (half || below) && r.sign
      case Up => (half || below) && !r.sign
      case Chop => false;
    if up {
      if veryBig {
        assert false;
      }
      r.SetSig(r.Sig() + 1);
    }
  }

  /** round_to_int (lines 1106-1162): the significand becomes the value rounded to an integer. */
  method RoundToInt(r: Reg, rc: Rc) returns (loss: Loss)
    requires r.Words()
    modifies r`sigl, r`sigh
    ensures r.Words()
    ensures r.tag == Zero ==> r.Sig() == 0 && loss == Exact
    ensures r.tag != Zero && r.exp > 63 ==> r.Sig() == W64 - 1 && loss == TooBig
    ensures r.tag != Zero && r.exp <= 63 ==>
      var x, n := old(r.Sig()), 63 - r.exp;
      && Rounded(rc, r.sign, x, n, r.Sig())
      && loss == if Shl(r.Sig(), n) == x then Exact else if Shl(r.Sig(), n) > x then LostUp else LostDown
  {
    hide Rounded, Half, Below, Shl, Drop, Low, Bit, Pow2;
    if r.tag == Zero {
      r.SetSig(0);
      return Exact;
    }
    if r.exp > 63 {
      r.SetSig(W64 - 1);
      return TooBig;
    }
    ghost var x := r.Sig();
    BitsRound(rc, r.sign, x, 63 - r.exp);
    ShiftedNotFull(x, 63 - r.exp);
    var half, below := Shrxs(r, 63 - r.exp);
    var up := RoundShifted(r, rc, half, below);
    loss := if up then LostUp else if half || below then LostDown else Exact;
  }
}
