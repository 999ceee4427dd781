/** The control, status and tag words of drivers/FPU-emu bit by bit. */
module FpuWords {

  import opened Bits
  import opened FpuRound
  import opened FpuState

  lemma {:induction false} Cut(x: nat, a: nat, b: nat, p: nat, q: nat)
    requires p == Pow2(a) && q == Pow2(b)
    ensures x / p % q == Low(Drop(x, a), b) < q
  {
    hide Low, Drop, Pow2;
    DivPow2(x, a);
    DivPow2(Drop(x, a), b);
  }

  /** The bits of three numbers put together. */
  lemma {:induction false} ThreeParts(lo: nat, m: nat, mid: nat, n: nat, hi: nat, k: nat)
    requires lo < Pow2(m) && mid < Pow2(n)
    ensures Bit(lo + Pow2(m) * mid + Pow2(m + n) * hi, k)
         == if k < m then Bit(lo, k) else if k < m + n then Bit(mid, k - m) else Bit(hi, k - m - n)
  {
    hide Bit, Shl, Pow2;
    ShlMul(mid, m);
    ShlMul(hi, m + n);
    ShlMore(hi, n, m);
    ShlAdd(mid, Shl(hi, n), m);
    BitJoin(lo, mid + Shl(hi, n), m, k);
    if k >= m {
      BitJoin(mid, hi, n, k - m);
    }
  }

  lemma {:induction false} OneBit(k: nat, one: bool)
    ensures Bit(if one then 1 else 0, k) == if k == 0 && one then 1 else 0
  {
    ZeroBit(k);
    if k > 0 {
      ZeroBit(k - 1);
    }
  }

  /** In memory bit 6 of the control word is 1 and bits 7 and 13 to 15 are 0; the others are the unit's. */
  ghost predicate ControlKept(c: nat, cw: nat) {
    forall k: nat :: Bit(c, k) == if k == 6 then 1 else if k == 7 || k >= 13 then 0 else Bit(cw, k)
  }

  lemma {:induction false} ControlBits(cw: nat)
    ensures ControlKept(Control(cw), cw)
  {
    hide Bit;
    forall k: nat
      ensures Bit(Control(cw), k) == if k == 6 then 1 else if k == 7 || k >= 13 then 0 else Bit(cw, k)
    {
      ControlBit(cw, k);
    }
  }

  lemma {:induction false} ControlBit(cw: nat, k: nat)
    ensures Bit(Control(cw), k) == if k == 6 then 1 else if k == 7 || k >= 13 then 0 else Bit(cw, k)
  {
    hide Bit, Shl, Pow2, Low, Drop;
    var lo, hi := cw % 64, cw / 256 % 32;
    PowerIs(0);
    PowerIs(2);
    PowerIs(5);
    PowerIs(6);
    PowerIs(8);
    Cut(cw, 0, 6, 1, 64);
    Cut(cw, 8, 5, 256, 32);
    BitCut(cw, 0, 6, k);
    ThreeParts(lo, 6, 1, 2, hi, k);
    if 6 <= k < 8 {
      OneBit(k - 6, true);
    }
    if k >= 8 {
      BitCut(cw, 8, 5, k - 8);
    }
  }

  /** Bits 7 and 13 to 15 are 0 and the others stay. */
  lemma {:induction false} ClearedBits(cw: nat, k: nat)
    ensures Bit(Cleared(cw), k) == if k == 7 || k >= 13 then 0 else Bit(cw, k)
  {
    hide Bit, Shl, Pow2, Low, Drop;
    var lo, hi := cw % 128, cw / 256 % 32;
    PowerIs(0);
    PowerIs(1);
    PowerIs(5);
    PowerIs(7);
    PowerIs(8);
    Cut(cw, 0, 7, 1, 128);
    Cut(cw, 8, 5, 256, 32);
    BitCut(cw, 0, 7, k);
    ThreeParts(lo, 7, 0, 1, hi, k);
    if k == 7 {
      ZeroBit(0);
    }
    if k >= 8 {
      BitCut(cw, 8, 5, k - 8);
    }
  }

  /** The stack top is in bits 11 to 13 and the other thirteen are `ps`'s own. */
  ghost predicate StatusWord(w: nat, ps: nat, top: nat) {
    forall k: nat :: Bit(w, k) == if 11 <= k < 14 then Bit(top, k - 11) else if k < 16 then Bit(ps, k) else 0
  }

  lemma {:induction false} StatusBits(ps: nat, top: nat)
    requires top < 8
    ensures StatusWord(Status(ps, top), ps, top)
  {
    hide Bit;
    forall k: nat
      ensures Bit(Status(ps, top), k) == if 11 <= k < 14 then Bit(top, k - 11) else if k < 16 then Bit(ps, k) else 0
    {
      StatusBit(ps, top, k);
    }
  }

  lemma {:induction false} StatusBit(ps: nat, top: nat, k: nat)
    requires top < 8
    ensures Bit(Status(ps, top), k) == if 11 <= k < 14 then Bit(top, k - 11) else if k < 16 then Bit(ps, k) else 0
  {
    hide Bit, Shl, Pow2, Low, Drop;
    var lo, hi := ps % 2048, ps / 16384 % 4;
    PowerIs(0);
    PowerIs(2);
    PowerIs(3);
    PowerIs(11);
    PowerIs(14);
    Cut(ps, 0, 11, 1, 2048);
    Cut(ps, 14, 2, 16384, 4);
    BitCut(ps, 0, 11, k);
    ThreeParts(lo, 11, top, 3, hi, k);
    if k >= 14 {
      BitCut(ps, 14, 2, k - 14);
    }
  }

  /** Bits 7 and 15 are set, or they are cleared, and the others stay. */
  lemma {:induction false} SummedBits(ps: nat, on: bool, k: nat)
    ensures Bit(Summed(ps, on), k)
         == if k == 7 || k == 15 then (if on then 1 else 0) else if k < 15 then Bit(ps, k) else 0
  {
    hide Bit, Shl, Pow2, Low, Drop;
    var one := if on then 1 else 0;
    var lo, mid := ps % 128, ps / 256 % 128;
    PowerIs(0);
    PowerIs(1);
    PowerIs(7);
    PowerIs(8);
    Cut(ps, 0, 7, 1, 128);
    Cut(ps, 8, 7, 256, 128);
    BitCut(ps, 0, 7, k);
    ShlIs(one, 7, 128);
    ThreeParts(lo, 7, one, 1, mid + Shl(one, 7), k);
    if k == 7 {
      OneBit(0, on);
    }
    if k >= 8 {
      BitJoin(mid, one, 7, k - 8);
      BitCut(ps, 8, 7, k - 8);
      if k >= 15 {
        OneBit(k - 15, on);
      }
    }
  }

  lemma {:induction false} ShlIs(x: nat, n: nat, p: nat)
    requires p == Pow2(n)
    ensures Shl(x, n) == p * x
  {
    ShlMul(x, n);
  }

  /** Setting the low six bits. */
  lemma {:induction false} MaskedBits(cw: nat, k: nat)
    ensures Bit(cw - cw % 64 + 63, k) == if k < 6 then 1 else Bit(cw, k)
  {
    hide Bit, Shl, Pow2, Low, Drop;
    PowerIs(6);
    var hi := Drop(cw, 6);
    DivPow2(cw, 6);
    Quotient(cw, 64);
    ShlIs(hi, 6, 64);
    BitJoin(63, hi, 6, k);
    if k < 6 {
      SixOnes(k);
    } else {
      BitDrop(cw, 6, k - 6);
    }
  }

  lemma {:induction false} SixOnes(k: nat)
    requires k < 6
    ensures Bit(63, k) == 1
  {
    assert Drop(63, 1) == Drop(31, 0);
    assert Drop(63, 2) == Drop(31, 1) == Drop(15, 0);
    assert Drop(63, 3) == Drop(31, 2) == Drop(15, 1) == Drop(7, 0);
    assert Drop(63, 4) == Drop(31, 3) == Drop(15, 2) == Drop(7, 1) == Drop(3, 0);
    assert Drop(63, 5) == Drop(31, 4) == Drop(15, 3) == Drop(7, 2) == Drop(3, 1) == Drop(1, 0);
  }

  lemma {:induction false} OfBit(w: nat, k: nat, p: nat)
    requires k < 6 && p == Pow2(k)
    ensures BitOf(w % 64, p) <==> Bit(w, k) == 1
  {
    hide Low, Drop, Pow2;
    PowerIs(6);
    DivPow2(w, 6);
    DivPow2(w % 64, k);
    BitLow(w, 6, k);
  }

  /** An exception is pending exactly when one of the six status bits is set whose mask bit is clear. */
  lemma {:induction false} PendingBits(ps: nat, cw: nat)
    ensures Pending(ps, cw) <==> exists k: nat :: k < 6 && Bit(ps, k) == 1 && Bit(cw, k) == 0
  {
    hide Bit, Pow2, BitOf;
    forall k: nat | k < 6
      ensures BitOf(ps % 64, [1, 2, 4, 8, 16, 32][k]) <==> Bit(ps, k) == 1
      ensures BitOf(cw % 64, [1, 2, 4, 8, 16, 32][k]) <==> Bit(cw, k) == 1
    {
      PowerIs(k);
      OfBit(ps, k, [1, 2, 4, 8, 16, 32][k]);
      OfBit(cw, k, [1, 2, 4, 8, 16, 32][k]);
    }
    SixCases(ps % 64, cw % 64);
  }

  lemma {:induction false} SixCases(p: nat, c: nat)
    ensures Unmasked(p, c) <==>
      exists k: nat :: k < 6 && BitOf(p, [1, 2, 4, 8, 16, 32][k]) && !BitOf(c, [1, 2, 4, 8, 16, 32][k])
  {
    hide BitOf;
    assert [1, 2, 4, 8, 16, 32][0] == 1;
    assert [1, 2, 4, 8, 16, 32][1] == 2;
    assert [1, 2, 4, 8, 16, 32][2] == 4;
    assert [1, 2, 4, 8, 16, 32][3] == 8;
    assert [1, 2, 4, 8, 16, 32][4] == 16;
    assert [1, 2, 4, 8, 16, 32][5] == 32;
  }

  /** Bits 10 and 11 of the control word choose the rounding: down has 10 alone, up 11 alone. */
  lemma {:induction false} RoundingBits(cw: nat)
    ensures cw / 1024 % 4 == Bit(cw, 10) + 2 * Bit(cw, 11)
  {
    hide Drop, Pow2;
    PowerIs(10);
    DivPow2(cw, 10);
    DropTwice(cw, 10, 1);
    assert Drop(Drop(cw, 10), 1) == Drop(cw, 10) / 2 by { DropOne(Drop(cw, 10)); }
  }

  lemma {:induction false} TopBits(w: nat)
    ensures w / 2048 % 8 == Bit(w, 11) + 2 * Bit(w, 12) + 4 * Bit(w, 13)
  {
    var x := Drop(w, 11);
    assert w / 2048 == x by { PowerIs(11); DivPow2(w, 11); }
    DropTwice(w, 11, 1);
    DropTwice(w, 11, 2);
    DropOne(x);
    DropOne(x / 2);
    assert Drop(x, 2) == x / 2 / 2 by { DropTwice(x, 1, 1); }
    hide Drop;
  }

  lemma {:induction false} DropOne(x: nat)
    ensures Drop(x, 1) == x / 2
  {
    assert Drop(x, 1) == Drop(x / 2, 0);
  }
}
