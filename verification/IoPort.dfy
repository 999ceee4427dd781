/** The I/O permission bitmaps of kernel/ioport.c: setting and testing a run of bits a word at a
    time.
 */
module IoPort {

  const IO_BITMAP_SIZE: nat := 32

  function Up(a: bv32): bv32 { a << 1 }

  /** `1 << k`. */
  function One(k: nat): bv32
  {
    if k == 0 then 1 else Up(One(k - 1))
  }

  /** `~0 << n`. */
  function From(n: nat): bv32
  {
    if n == 0 then 0xffff_ffff else Up(From(n - 1))
  }

  function And(a: bv32, b: bv32): bv32 { a & b }
  function Or(a: bv32, b: bv32): bv32 { a | b }
  function Not(a: bv32): bv32 { !a }

  /** Bit `k` of a word. */
  predicate Bit(w: bv32, k: nat) { And(w, One(k)) != 0 }

  // ---- masks -------------------------------------------------------------------------------

  lemma {:induction false} ShiftBoth(a: bv32, b: bv32)
    ensures And(Up(a), Up(b)) == Up(And(a, b)) && Up(0) == 0
  {
  }

  lemma {:induction false} FromAbove(n: nat, k: nat)
    requires k < n
    ensures And(From(n), One(k)) == 0
  {
    FromStep(n - 1);
    if k == 0 {
      assert One(0) == 1;
      hide From, One, And, Up;
      EvenBit(From(n - 1));
    } else {
      OneStep(k - 1);
      hide From, One, And, Up;
      FromAbove(n - 1, k - 1);
      ShiftBoth(From(n - 1), One(k - 1));
    }
  }

  lemma {:induction false} AllOnes(o: bv32)
    ensures And(0xffff_ffff, o) == o
  {
  }

  lemma {:induction false} EvenBit(a: bv32)
    ensures And(Up(a), 1) == 0
  {
  }

  lemma {:induction false} FromBelow(n: nat, k: nat)
    requires n <= k
    ensures And(From(n), One(k)) == One(k)
  {
    if n == 0 {
      assert From(0) == 0xffff_ffff;
      hide From, One, And, Up;
      AllOnes(One(k));
    } else {
      FromStep(n - 1);
      OneStep(k - 1);
      hide From, One, And, Up;
      FromBelow(n - 1, k - 1);
      ShiftBoth(From(n - 1), One(k - 1));
    }
  }

  lemma {:induction false} FromStep(k: nat)
    ensures From(k + 1) == Up(From(k))
  {
  }

  lemma {:induction false} OneStep(k: nat)
    ensures One(k + 1) == Up(One(k))
  {
  }

  function UpFour(a: bv32): bv32 { Up(Up(Up(Up(a)))) }

  function UpEight(a: bv32): bv32 { UpFour(UpFour(a)) }

  lemma {:induction false} OneByte(k: nat)
    ensures One(k + 8) == UpEight(One(k))
  {
    hide Up, One;
    OneStep(k);
    OneStep(k + 1);
    OneStep(k + 2);
    OneStep(k + 3);
    OneStep(k + 4);
    OneStep(k + 5);
    OneStep(k + 6);
    OneStep(k + 7);
    hide One;
  }

  lemma {:induction false} Constants()
    ensures UpFour(1) == 0x10 && UpFour(0x10) == 0x100 && UpFour(0x100) == 0x1000 && UpFour(0x1000) == 0x1_0000
    ensures UpFour(0x1_0000) == 0x10_0000 && UpFour(0x10_0000) == 0x100_0000 && UpFour(0x100_0000) == 0x1000_0000
    ensures Up(Up(Up(0x1000_0000))) == 0x8000_0000
  {
  }

  /** The top bit. */
  lemma {:induction false} OneTop()
    ensures One(31) == 0x8000_0000
  {
    assert One(0) == 1;
    OneByte(0);
    OneByte(8);
    OneByte(16);
    Constants();
    hide One, Up, UpFour;
    OneStep(24);
    OneStep(25);
    OneStep(26);
    OneStep(27);
    OneStep(28);
    OneStep(29);
    OneStep(30);
    assert One(24) == 0x100_0000;
    assert One(28) == UpFour(One(24)) by { OneFour(24); }
  }

  lemma {:induction false} OneFour(k: nat)
    ensures One(k + 4) == UpFour(One(k))
  {
    OneStep(k);
    OneStep(k + 1);
    OneStep(k + 2);
    OneStep(k + 3);
    hide One, Up;
  }

  lemma {:induction false} OneSet(k: nat)
    requires k < 32
    ensures One(k) != 0
    decreases 32 - k
  {
    if k == 31 {
      OneTop();
    } else {
      OneSet(k + 1);
      OneStep(k);
      hide One;
    }
  }

  /** Word `w'` is `w` with bits `lo` to `hi - 1` set to `v`. */
  ghost predicate Ranged(w: bv32, w': bv32, lo: int, hi: int, v: bool) {
    forall k :: 0 <= k < 32 ==> (Bit(w', k) <==> if lo <= k < hi then v else Bit(w, k))
  }

  /** `|= mask` and `&= ~mask`. */
  function Applied(w: bv32, mask: bv32, v: bool): bv32 { if v then Or(w, mask) else And(w, Not(mask)) }

  lemma {:induction false} OrAnd(w: bv32, m: bv32, o: bv32)
    ensures And(Or(w, m), o) == Or(And(w, o), And(m, o))
  {
  }

  lemma {:induction false} AndNot(w: bv32, m: bv32, o: bv32)
    ensures And(And(w, Not(m)), o) == And(And(w, o), Not(And(m, o)))
  {
  }

  lemma {:induction false} OrAbsorbs(w: bv32, o: bv32)
    ensures Or(And(w, o), o) == o
  {
  }

  lemma {:induction false} NotExcludes(w: bv32, o: bv32)
    ensures And(And(w, o), Not(o)) == 0
  {
  }

  lemma {:induction false} Neutral(w: bv32)
    ensures Or(w, 0) == w && And(w, Not(0)) == w
  {
  }

  lemma {:induction false} AppliedBit(w: bv32, mask: bv32, v: bool, one: bv32)
    requires one != 0 && (And(mask, one) == one || And(mask, one) == 0)
    ensures And(Applied(w, mask, v), one) != 0 <==> if And(mask, one) == one then v else And(w, one) != 0
  {
    hide And, Or, Not;
    OrAnd(w, mask, one);
    AndNot(w, mask, one);
    OrAbsorbs(w, one);
    NotExcludes(w, one);
    Neutral(And(w, one));
  }

  lemma {:induction false} FromBit(n: nat, k: nat)
    requires k < 32
    ensures And(From(n), One(k)) == (if n <= k then One(k) else 0) && One(k) != 0
  {
    hide One, From;
    OneSet(k);
    if n <= k { FromBelow(n, k); } else { FromAbove(n, k); }
  }

  lemma {:induction false} NotFrom(f: bv32, o: bv32)
    ensures And(f, o) == 0 ==> And(Not(f), o) == o
    ensures And(f, o) == o ==> And(Not(f), o) == 0
  {
  }

  lemma {:induction false} BothMasks(f: bv32, g: bv32, o: bv32)
    ensures And(And(f, g), o) == And(And(f, o), And(g, o)) && And(o, o) == o && And(o, 0) == 0 && And(0, o) == 0
    ensures And(0, 0) == 0
  {
  }

  /** The mask of lines 56-58. */
  function FirstMask(low: nat, length: nat): bv32 {
    if length < 32 then And(From(low), Not(From(length))) else From(low)
  }

  lemma {:induction false} FirstMaskBit(low: nat, length: nat, k: nat)
    requires k < 32
    ensures And(FirstMask(low, length), One(k)) == (if low <= k < length then One(k) else 0) && One(k) != 0
  {
    hide And, Not, From, One;
    FromBit(low, k);
    FromBit(length, k);
    NotFrom(From(length), One(k));
    BothMasks(From(low), Not(From(length)), One(k));
  }

  lemma {:induction false} FirstRange(w: bv32, low: nat, length: nat, v: bool)
    ensures Ranged(w, Applied(w, FirstMask(low, length), v), low, length, v)
  {
    hide One, From, Applied, FirstMask, And;
    forall k | 0 <= k < 32
      ensures Bit(Applied(w, FirstMask(low, length), v), k) <==> if low <= k < length then v else Bit(w, k)
    {
      FirstMaskBit(low, length, k);
      AppliedBit(w, FirstMask(low, length), v, One(k));
    }
  }

  /** The mask of line 73. */
  function LastMask(length: nat): bv32 { Not(From(length)) }

  lemma {:induction false} LastRange(w: bv32, length: nat, v: bool)
    ensures Ranged(w, Applied(w, LastMask(length), v), 0, length, v)
  {
    hide One, From, Applied, And, Not;
    forall k | 0 <= k < 32
      ensures Bit(Applied(w, LastMask(length), v), k) <==> if 0 <= k < length then v else Bit(w, k)
    {
      FromBit(length, k);
      NotFrom(From(length), One(k));
      AppliedBit(w, LastMask(length), v, One(k));
    }
  }

  function Whole(v: bool): bv32 { if v then 0xffff_ffff else 0 }

  lemma {:induction false} WholeRange(w: bv32, v: bool)
    ensures Ranged(w, Whole(v), 0, 32, v)
  {
    hide One;
    forall k | 0 <= k < 32
      ensures Bit(Whole(v), k) <==> v
    {
      OneSet(k);
      AllOrNone(One(k));
    }
  }

  lemma {:induction false} AllOrNone(o: bv32)
    ensures And(Whole(true), o) == o && And(Whole(false), o) == 0
  {
  }

  // ---- bitmaps -----------------------------------------------------------------------------

  /** Bit `i` of a bitmap. */
  predicate BitAt(s: seq<bv32>, i: nat)
    requires i < 32 * |s|
  {
    Bit(s[i / 32], i % 32)
  }

  lemma {:induction false} ThreeBits()
    ensures FirstMask(5, 8) == 0xe0 && FirstMask(0, 3) == 0x07
  {
    assert From(0) == 0xffff_ffff && From(3) == 0xffff_fff8 && From(5) == 0xffff_ffe0 && From(8) == 0xffff_ff00;
  }

  /** Bits are numbered from the lowest of the first word on: three of a byte, and three of the next word. */
  lemma {:induction false} BitNumbers(s: seq<bv32>, i: nat)
    requires s == [0xe0, 0x07] && i < 64
    ensures BitAt(s, i) <==> 5 <= i <= 7 || 32 <= i <= 34
  {
    hide One, FirstMask, And;
    ThreeBits();
    FirstMaskBit(5, 8, i % 32);
    FirstMaskBit(0, 3, i % 32);
    assert s[i / 32] == if i < 32 then 0xe0 else 0x07;
  }

  /** So far, bits `base` to `end - 1` are `v` in the words before `p`. */
  ghost predicate SetUpTo(s: seq<bv32>, s': seq<bv32>, base: nat, end: nat, p: nat, v: bool) {
    |s'| == |s| && forall i: nat :: i < 32 * |s| ==>
      (BitAt(s', i) <==> if base <= i < end && i < 32 * p then v else BitAt(s, i))
  }

  lemma {:induction false} SetWord(s: seq<bv32>, s': seq<bv32>, base: nat, end: nat, p: nat, v: bool, w: bv32)
    requires SetUpTo(s, s', base, end, p, v) && p < |s|
    requires Ranged(s'[p], w, base - 32 * p, end - 32 * p, v)
    ensures SetUpTo(s, s'[p := w], base, end, p + 1, v)
  {
    hide Bit, Ranged;
    var r := s'[p := w];
    forall i: nat | i < 32 * |s|
      ensures BitAt(r, i) <==> if base <= i < end && i < 32 * (p + 1) then v else BitAt(s, i)
    {
      assert BitAt(s', i) <==> if base <= i < end && i < 32 * p then v else BitAt(s, i);
      if i / 32 == p {
        RangedAt(s'[p], w, base - 32 * p, end - 32 * p, v, i % 32);
        assert i == 32 * p + i % 32;
      }
    }
  }

  lemma {:induction false} RangedAt(w: bv32, w': bv32, lo: int, hi: int, v: bool, k: nat)
    requires Ranged(w, w', lo, hi, v) && k < 32
    ensures Bit(w', k) <==> if lo <= k < hi then v else Bit(w, k)
  {
  }

  /** A range that starts at or below a word's first bit, or ends above its last. */
  lemma {:induction false} RangedWider(w: bv32, w': bv32, lo: int, hi: int, lo': int, hi': int, v: bool)
    requires Ranged(w, w', lo, hi, v)
    requires lo' == lo || (lo <= 0 && lo' <= 0)
    requires hi' == hi || (hi >= 32 && hi' >= 32)
    ensures Ranged(w, w', lo', hi', v)
  {
    hide Bit;
  }

  /** set_bitmap (lines 47-79): exactly the bits `base` to `base + extent - 1` become `newValue`. */
  method SetBitmap(bitmap: array<bv32>, base: nat, extent: nat, newValue: bool)
    requires base + extent <= 32 * bitmap.Length
    modifies bitmap
    ensures forall i: nat :: i < 32 * bitmap.Length ==>
      (BitAt(bitmap[..], i) <==> if base <= i < base + extent then newValue else BitAt(old(bitmap[..]), i))
  {
    hide BitAt, Bit, One, From, Applied, FirstMask, LastMask, Whole, Ranged, SetUpTo, And, Or, Not;
    ghost var s, end := bitmap[..], base + extent;
    var p, low := base / 32, base % 32;
    var length: int := low + extent;
    Untouched(s, base, end, p, newValue);
    if low != 0 {
      var w := Applied(bitmap[p], FirstMask(low, length), newValue);
      FirstRange(bitmap[p], low, length, newValue);
      SetWord(s, bitmap[..], base, end, p, newValue, w);
      bitmap[p] := w;
      p, length := p + 1, length - 32;
    }
    var mask := Whole(newValue);
    while length >= 32
      invariant length == end - 32 * p && base <= 32 * p
      invariant SetUpTo(s, bitmap[..], base, end, p, newValue)
    {
      WholeRange(bitmap[p], newValue);
      RangedWider(bitmap[p], mask, 0, 32, base - 32 * p, end - 32 * p, newValue);
      SetWord(s, bitmap[..], base, end, p, newValue, mask);
      bitmap[p] := mask;
      p, length := p + 1, length - 32;
    }
    if length > 0 {
      var w := Applied(bitmap[p], LastMask(length), newValue);
      LastRange(bitmap[p], length, newValue);
      RangedWider(bitmap[p], w, 0, length, base - 32 * p, length, newValue);
      SetWord(s, bitmap[..], base, end, p, newValue, w);
      bitmap[p] := w;
      p := p + 1;
    }
    SetAll(s, bitmap[..], base, end, p, newValue);
  }

  lemma {:induction false} SetAll(s: seq<bv32>, s': seq<bv32>, base: nat, end: nat, p: nat, v: bool)
    requires SetUpTo(s, s', base, end, p, v) && end <= 32 * p
    ensures forall i: nat :: i < 32 * |s| ==> (BitAt(s', i) <==> if base <= i < end then v else BitAt(s, i))
  {
    hide BitAt;
  }

  lemma {:induction false} Untouched(s: seq<bv32>, base: nat, end: nat, p: nat, v: bool)
    requires p == base / 32
    ensures SetUpTo(s, s, base, end, p, v)
  {
    hide BitAt;
  }

  // ---- testing a run of bits ---------------------------------------------------------------

  /** Whether some bit of `base` to `end - 1` below `top` is set. */
  ghost predicate AnySet(s: seq<bv32>, base: nat, end: nat, top: nat) {
    exists i: nat :: base <= i < end && i < top && i < 32 * |s| && BitAt(s, i)
  }

  lemma {:induction false} WordHit(s: seq<bv32>, base: nat, end: nat, p: nat, k: nat)
    requires p < |s| && k < 32 && base <= 32 * p + k < end && Bit(s[p], k)
    ensures AnySet(s, base, end, 32 * (p + 1))
  {
    hide Bit;
    var i := 32 * p + k;
    assert i / 32 == p && i % 32 == k;
    assert BitAt(s, i);
  }

  lemma {:induction false} WordMiss(s: seq<bv32>, base: nat, end: nat, p: nat)
    requires p < |s| && !AnySet(s, base, end, 32 * p)
    requires forall k :: 0 <= k < 32 && base <= 32 * p + k < end ==> !Bit(s[p], k)
    ensures !AnySet(s, base, end, 32 * (p + 1))
  {
    hide Bit;
    forall i: nat | base <= i < end && i < 32 * (p + 1) && i < 32 * |s|
      ensures !BitAt(s, i)
    {
      if i / 32 == p {
        assert i == 32 * p + i % 32;
      }
    }
  }

  /** A word and-ed with a mask is not zero exactly when it has a bit of the mask. */
  lemma {:induction false} AndFirst(w: bv32, low: nat, length: nat)
    ensures And(w, FirstMask(low, length)) != 0 <==> exists k :: 0 <= k < 32 && low <= k < length && Bit(w, k)
  {
    hide One, And, FirstMask;
    var m := FirstMask(low, length);
    if exists k :: 0 <= k < 32 && low <= k < length && Bit(w, k) {
      var k :| 0 <= k < 32 && low <= k < length && Bit(w, k);
      FirstMaskBit(low, length, k);
      AndThree(w, m, One(k));
      AndZero(One(k));
    }
    if And(w, m) != 0 {
      var k := SomeBit(And(w, m));
      FirstMaskBit(low, length, k);
      AndThree(w, m, One(k));
      AndZero(w);
      assert Bit(w, k);
    }
  }

  lemma {:induction false} AndLast(w: bv32, length: nat)
    ensures And(w, LastMask(length)) != 0 <==> exists k :: 0 <= k < 32 && k < length && Bit(w, k)
  {
    hide One, And, Not, From;
    var m := LastMask(length);
    if exists k :: 0 <= k < 32 && k < length && Bit(w, k) {
      var k :| 0 <= k < 32 && k < length && Bit(w, k);
      FromBit(length, k);
      NotFrom(From(length), One(k));
      AndThree(w, m, One(k));
      AndZero(One(k));
    }
    if And(w, m) != 0 {
      var k := SomeBit(And(w, m));
      FromBit(length, k);
      NotFrom(From(length), One(k));
      AndThree(w, m, One(k));
      AndZero(w);
      assert Bit(w, k);
    }
  }

  lemma {:induction false} AndThree(w: bv32, m: bv32, o: bv32)
    ensures And(And(w, m), o) == And(w, And(m, o))
  {
  }

  lemma {:induction false} AndZero(o: bv32)
    ensures And(0, o) == 0 && And(o, 0) == 0
  {
  }

  /** A word that is not zero has a bit set. */
  lemma {:induction false} SomeBit(w: bv32) returns (k: nat)
    requires w != 0
    ensures k < 32 && Bit(w, k)
  {
    hide And, One;
    k := 0;
    LowClearZero(w);
    while k < 32 && !Bit(w, k)
      invariant k <= 32 && And(w, Not(From(k))) == 0
      decreases 32 - k
    {
      NextClear(w, k);
      k := k + 1;
    }
    if k == 32 {
      AllClear(w);
    }
  }

  lemma {:induction false} LowClearZero(w: bv32)
    ensures And(w, Not(From(0))) == 0
  {
    assert From(0) == 0xffff_ffff;
  }

  /** The bits below `k + 1` are those below `k` and bit `k`. */
  lemma {:induction false} NotFromNext(k: nat)
    ensures Not(From(k + 1)) == Or(Not(From(k)), One(k))
    decreases k
  {
    if k == 0 {
      assert From(1) == Up(From(0)) == 0xffff_fffe;
    } else {
      NotFromNext(k - 1);
      assert From(k + 1) == Up(From(k)) && From(k) == Up(From(k - 1)) && One(k) == Up(One(k - 1));
      hide From, One;
      NextMask(From(k), From(k - 1), One(k - 1));
    }
  }

  lemma {:induction false} NextMask(f: bv32, g: bv32, o: bv32)
    requires Not(f) == Or(Not(g), o)
    ensures Not(Up(f)) == Or(Not(Up(g)), Up(o))
  {
  }

  lemma {:induction false} NextClear(w: bv32, k: nat)
    requires And(w, Not(From(k))) == 0 && And(w, One(k)) == 0
    ensures And(w, Not(From(k + 1))) == 0
  {
    NotFromNext(k);
    hide From, One, Not;
    AndOr(w, Not(From(k)), One(k));
  }

  lemma {:induction false} AndOr(w: bv32, a: bv32, b: bv32)
    requires And(w, a) == 0 && And(w, b) == 0
    ensures And(w, Or(a, b)) == 0
  {
  }

  lemma {:induction false} FromAll()
    ensures From(32) == 0
  {
    FromByte(0);
    FromByte(8);
    FromByte(16);
    FromByte(24);
    assert From(0) == 0xffff_ffff;
    hide From;
  }

  lemma {:induction false} FromByte(k: nat)
    ensures From(k + 8) == UpEight(From(k))
  {
    hide Up, From;
    FromStep(k);
    FromStep(k + 1);
    FromStep(k + 2);
    FromStep(k + 3);
    FromStep(k + 4);
    FromStep(k + 5);
    FromStep(k + 6);
    FromStep(k + 7);
    hide From;
  }

  lemma {:induction false} AllClear(w: bv32)
    requires And(w, Not(From(32))) == 0
    ensures w == 0
  {
    FromAll();
    hide From;
  }

  lemma {:induction false} AndWhole(w: bv32)
    ensures w != 0 <==> exists k :: 0 <= k < 32 && Bit(w, k)
  {
    hide One, And;
    if w != 0 {
      var k := SomeBit(w);
    } else {
      forall k | 0 <= k < 32
        ensures !Bit(w, k)
      {
        AndZero(One(k));
      }
    }
  }

  /** check_bitmap (lines 81-109): true exactly when one of the bits is set. */
  method CheckBitmap(bitmap: array<bv32>, base: nat, extent: nat) returns (r: bool)
    requires base + extent <= 32 * bitmap.Length
    ensures r <==> exists i: nat :: base <= i < base + extent && BitAt(bitmap[..], i)
  {
    hide BitAt, Bit, FirstMask, LastMask, And, AnySet;
    ghost var s, end := bitmap[..], base + extent;
    var p, low := base / 32, base % 32;
    var length: int := low + extent;
    NoneYet(s, base, end, p);
    AnyMore(s, base, end);
    if low != 0 {
      AndFirst(bitmap[p], low, length);
      HitOrMiss(s, base, end, p, low, length);
      if And(bitmap[p], FirstMask(low, length)) != 0 {
        return true;
      }
      p, length := p + 1, length - 32;
    }
    while length >= 32
      invariant length == end - 32 * p && base <= 32 * p
      invariant bitmap[..] == s && !AnySet(s, base, end, 32 * p)
    {
      AndWhole(bitmap[p]);
      HitOrMiss(s, base, end, p, 0, 32);
      if bitmap[p] != 0 {
        assert AnySet(s, base, end, 32 * (p + 1));
        return true;
      }
      p, length := p + 1, length - 32;
    }
    if length > 0 {
      AndLast(bitmap[p], length);
      HitOrMiss(s, base, end, p, 0, length);
      if And(bitmap[p], LastMask(length)) != 0 {
        return true;
      }
      p := p + 1;
    }
    NoneLeft(s, base, end, p);
    return false;
  }

  lemma {:induction false} NoneYet(s: seq<bv32>, base: nat, end: nat, p: nat)
    requires p == base / 32
    ensures !AnySet(s, base, end, 32 * p)
  {
  }

  lemma {:induction false} AnyMore(s: seq<bv32>, base: nat, end: nat)
    requires end <= 32 * |s|
    ensures forall top: nat :: AnySet(s, base, end, top) ==> exists i: nat :: base <= i < end && BitAt(s, i)
  {
    hide BitAt;
  }

  lemma {:induction false} NoneLeft(s: seq<bv32>, base: nat, end: nat, p: nat)
    requires end <= 32 * |s| && end <= 32 * p && !AnySet(s, base, end, 32 * p)
    ensures forall i: nat :: base <= i < end ==> !BitAt(s, i)
  {
    hide BitAt;
  }

  /** What a word tested decides, for the bits `lo` to `hi - 1` that it has of the run. */
  lemma {:induction false} HitOrMiss(s: seq<bv32>, base: nat, end: nat, p: nat, lo: nat, hi: nat)
    requires p < |s| && !AnySet(s, base, end, 32 * p)
    requires (lo == 0 && base <= 32 * p) || 32 * p + lo == base
    requires 32 * p + hi == end || (hi >= 32 && end >= 32 * p + 32)
    ensures (exists k :: 0 <= k < 32 && lo <= k < hi && Bit(s[p], k)) ==> AnySet(s, base, end, 32 * (p + 1))
    ensures (forall k :: 0 <= k < 32 && lo <= k < hi ==> !Bit(s[p], k)) ==> !AnySet(s, base, end, 32 * (p + 1))
  {
    hide Bit, AnySet;
    if exists k :: 0 <= k < 32 && lo <= k < hi && Bit(s[p], k) {
      var k :| 0 <= k < 32 && lo <= k < hi && Bit(s[p], k);
      WordHit(s, base, end, p, k);
    } else {
      forall k | 0 <= k < 32 && base <= 32 * p + k < end
        ensures !Bit(s[p], k)
      {
        assert lo <= k < hi;
      }
      WordMiss(s, base, end, p);
    }
  }

  // ---- claimed regions ---------------------------------------------------------------------

  /** A region as claimed: the part of it inside the bitmap. */
  datatype Region = Region(from: nat, num: nat)

  predicate Covers(r: Region, i: nat) { r.from <= i < r.from + r.num && i < 1024 }

  ghost predicate Claimed(claims: seq<Region>, i: nat) { exists c :: 0 <= c < |claims| && Covers(claims[c], i) }

  /** ioport_registrar. */
  class Registrar {
    const bitmap: array<bv32>
    ghost var claims: seq<Region>

    /** The bits set are those of the regions claimed. */
    ghost predicate Valid()
      reads this, bitmap
    {
      && bitmap.Length == IO_BITMAP_SIZE
      && forall i: nat :: i < 32 * IO_BITMAP_SIZE ==> (BitAt(bitmap[..], i) <==> Claimed(claims, i))
    }

    constructor ()
      ensures Valid() && claims == []
    {
      bitmap := new bv32[IO_BITMAP_SIZE](_ => 0);
      claims := [];
      new;
      forall i: nat | i < 32 * IO_BITMAP_SIZE
        ensures !BitAt(bitmap[..], i)
      {
        AndZero(One(i % 32));
      }
    }

    /** snarf_region (lines 158-166). */
    method SnarfRegion(from: nat, num: nat)
      requires Valid() && from + num < 0x1_0000_0000
      modifies this, bitmap
      ensures Valid() && claims == old(claims) + [Region(from, num)]
    {
      hide BitAt, Claimed;
      ghost var old0 := claims;
      claims := claims + [Region(from, num)];
      ClaimsMore(old0, Region(from, num));
      if from > IO_BITMAP_SIZE * 32 {
        return;
      }
      var n := if from + num > IO_BITMAP_SIZE * 32 then IO_BITMAP_SIZE * 32 - from else num;
      SetBitmap(bitmap, from, n, true);
    }

    /** check_region (lines 168-175): whether the region meets one claimed. */
    method CheckRegion(from: nat, num: nat) returns (r: bool)
      requires Valid() && from + num < 0x1_0000_0000
      ensures r <==> exists i: nat :: Claimed(claims, i) && Covers(Region(from, num), i)
    {
      hide BitAt, Claimed;
      if from > IO_BITMAP_SIZE * 32 {
        return false;
      }
      var n := if from + num > IO_BITMAP_SIZE * 32 then IO_BITMAP_SIZE * 32 - from else num;
      r := CheckBitmap(bitmap, from, n);
      if r {
        var i: nat :| from <= i < from + n && BitAt(bitmap[..], i);
        assert Claimed(claims, i) && Covers(Region(from, num), i);
      } else {
        forall i: nat | Covers(Region(from, num), i)
          ensures !Claimed(claims, i)
        {
          assert !BitAt(bitmap[..], i);
        }
      }
    }
  }

  lemma {:induction false} ClaimsMore(claims: seq<Region>, r: Region)
    ensures forall i: nat :: Claimed(claims + [r], i) <==> Claimed(claims, i) || Covers(r, i)
  {
    forall i: nat
      ensures Claimed(claims + [r], i) <==> Claimed(claims, i) || Covers(r, i)
    {
      ClaimsAt(claims, r, i);
    }
  }

  lemma {:induction false} ClaimsAt(claims: seq<Region>, r: Region, i: nat)
    ensures Claimed(claims + [r], i) <==> Claimed(claims, i) || Covers(r, i)
  {
    hide Covers;
    var all := claims + [r];
    if Claimed(claims, i) {
      var c :| 0 <= c < |claims| && Covers(claims[c], i);
      assert Covers(all[c], i);
    }
    if Covers(r, i) {
      assert Covers(all[|claims|], i);
    }
    if Claimed(all, i) {
      var c :| 0 <= c < |all| && Covers(all[c], i);
      assert c < |claims| ==> Covers(claims[c], i);
    }
  }
}
