/** Shifts and masks on natural numbers, and the two orders in which DEFLATE reads a bit string.

    A machine word is a natural number: `x << n` is `Shl(x, n)`, `x >> n` is `Drop(x, n)`,
    `x & mask_bits[n]` is `Low(x, n)`, and or-ing or xor-ing disjoint bits is addition.
 */
module Bits {

  function Shl(x: nat, n: nat): (r: nat)
    ensures r >= x
  {
    if n == 0 then x else 2 * Shl(x, n - 1)
  }

  function Pow2(n: nat): (r: nat)
    ensures r >= 1
  {
    Shl(1, n)
  }

  function Drop(x: nat, n: nat): nat {
    if n == 0 then x else Drop(x / 2, n - 1)
  }

  function Low(x: nat, n: nat): (r: nat)
    ensures r < Pow2(n)
  {
    if n == 0 then 0 else x % 2 + 2 * Low(x / 2, n - 1)
  }

  // ---- shifting left -----------------------------------------------------------------------

  lemma {:induction false} ShlAdd(x: nat, y: nat, n: nat)
    ensures Shl(x + y, n) == Shl(x, n) + Shl(y, n)
  {
    if n > 0 {
      ShlAdd(x, y, n - 1);
    }
  }

  lemma {:induction false} ShlMore(x: nat, a: nat, b: nat)
    ensures Shl(Shl(x, a), b) == Shl(x, a + b)
  {
    if b > 0 {
      ShlMore(x, a, b - 1);
    }
  }

  lemma {:induction false} ShlOrder(x: nat, y: nat, n: nat)
    ensures x <= y <==> Shl(x, n) <= Shl(y, n)
  {
    if x <= y {
      ShlAdd(x, y - x, n);
    } else {
      ShlAdd(y, x - y, n);
    }
  }

  lemma {:induction false} Pow2Mono(a: nat, b: nat)
    requires a <= b
    ensures Pow2(a) <= Pow2(b)
    ensures a < b ==> 2 * Pow2(a) <= Pow2(b)
    decreases b
  {
    if a < b {
      Pow2Mono(a, b - 1);
    }
  }

  lemma {:induction false} ShlTwice(x: nat, n: nat)
    ensures Shl(2 * x, n) == Shl(x, n + 1)
  {
    if n > 0 {
      ShlTwice(x, n - 1);
    }
  }

  // ---- splitting a word --------------------------------------------------------------------

  /** The high and the low part put together again. */
  lemma {:induction false} Split(x: nat, n: nat)
    ensures x == Low(x, n) + Shl(Drop(x, n), n)
  {
    if n > 0 {
      Split(x / 2, n - 1);
    }
  }

  lemma {:induction false} Join(lo: nat, hi: nat, n: nat)
    requires lo < Pow2(n)
    ensures Low(lo + Shl(hi, n), n) == lo && Drop(lo + Shl(hi, n), n) == hi
  {
    if n > 0 {
      var x := lo + Shl(hi, n);
      assert x == lo + 2 * Shl(hi, n - 1);
      assert x % 2 == lo % 2 && x / 2 == lo / 2 + Shl(hi, n - 1);
      Join(lo / 2, hi, n - 1);
      assert Low(lo, n) == lo by { Split(lo / 2, n - 1); Join(lo / 2, 0, n - 1); ZeroShl(n - 1); }
    }
  }

  lemma {:induction false} ZeroShl(n: nat)
    ensures Shl(0, n) == 0
  {
    if n > 0 {
      ZeroShl(n - 1);
    }
  }

  lemma {:induction false} SmallLow(x: nat, n: nat)
    requires x < Pow2(n)
    ensures Low(x, n) == x && Drop(x, n) == 0
  {
    ZeroShl(n);
    Join(x, 0, n);
  }

  lemma {:induction false} LowHalf(x: nat, n: nat)
    requires n > 0
    ensures Low(x, n) % 2 == x % 2 && Low(x, n) / 2 == Low(x / 2, n - 1)
  {
  }

  lemma {:induction false} DropTwice(x: nat, a: nat, b: nat)
    ensures Drop(Drop(x, a), b) == Drop(x, a + b)
    decreases a
  {
    if a > 0 {
      DropTwice(x / 2, a - 1, b);
    }
  }

  lemma {:induction false} LowParts(x: nat, a: nat, b: nat)
    ensures Low(x, a + b) == Low(x, a) + Shl(Low(Drop(x, a), b), a)
    decreases a
  {
    if a > 0 {
      LowParts(x / 2, a - 1, b);
    }
  }

  lemma {:induction false} LowTwice(x: nat, a: nat, b: nat)
    ensures Low(Low(x, a + b), a) == Low(x, a)
    decreases a
  {
    if a > 0 {
      LowTwice(x / 2, a - 1, b);
      LowHalf(x, a + b);
    }
  }

  lemma {:induction false} DropLow(x: nat, a: nat, b: nat)
    ensures Drop(Low(x, a + b), a) == Low(Drop(x, a), b)
    decreases a
  {
    if a > 0 {
      DropLow(x / 2, a - 1, b);
      LowHalf(x, a + b);
    }
  }

  /** Splitting a word at bit `a` and then at bit `a + b`. */
  lemma {:induction false} SplitTwice(x: nat, a: nat, b: nat)
    ensures Drop(Drop(x, a), b) == Drop(x, a + b)
    ensures Low(x, a + b) == Low(x, a) + Shl(Low(Drop(x, a), b), a)
    ensures Low(Low(x, a + b), a) == Low(x, a)
    ensures Drop(Low(x, a + b), a) == Low(Drop(x, a), b)
  {
    DropTwice(x, a, b);
    LowParts(x, a, b);
    LowTwice(x, a, b);
    DropLow(x, a, b);
    hide Drop, Low, Shl;
  }

  lemma {:induction false} DropOrder(x: nat, y: nat, n: nat)
    requires x <= y
    ensures Drop(x, n) <= Drop(y, n)
  {
    if n > 0 {
      DropOrder(x / 2, y / 2, n - 1);
    }
  }

  lemma {:induction false} DropAtLeast(x: nat, n: nat, q: nat)
    requires Shl(q, n) <= x
    ensures q <= Drop(x, n)
  {
    Join(0, q, n);
    DropOrder(Shl(q, n), x, n);
  }

  // ---- first bit first ---------------------------------------------------------------------

  function Bit(x: nat, n: nat): (b: nat)
    ensures b < 2
  {
    Drop(x, n) % 2
  }

  /** The first `n` bits of `x`, least significant first, taken as a number whose first bit is
      the most significant one: how Huffman codes are packed (RFC 1951, section 3.1.1). */
  function Rev(n: nat, x: nat): (r: nat)
    ensures r < Pow2(n)
  {
    if n == 0 then 0 else 2 * Rev(n - 1, x) + Bit(x, n - 1)
  }

  lemma {:induction false} RevPrefix(k: nat, n: nat, x: nat)
    requires k <= n
    ensures Rev(k, x) == Drop(Rev(n, x), n - k)
    decreases n
  {
    if k < n {
      RevPrefix(k, n - 1, x);
      assert Rev(n, x) / 2 == Rev(n - 1, x);
    }
  }

  lemma {:induction false} BitLow(x: nat, n: nat, k: nat)
    requires k < n
    ensures Bit(Low(x, n), k) == Bit(x, k)
    decreases n
  {
    if k > 0 {
      BitLow(x / 2, n - 1, k - 1);
      assert Low(x, n) / 2 == Low(x / 2, n - 1);
    }
  }

  /** Only the first `n` bits matter. */
  lemma {:induction false} RevLow(n: nat, m: nat, x: nat)
    requires n <= m
    ensures Rev(n, Low(x, m)) == Rev(n, x)
    decreases n
  {
    if n > 0 {
      RevLow(n - 1, m, x);
      BitLow(x, m, n - 1);
    }
  }

  lemma {:induction false} LowSucc(x: nat, n: nat)
    ensures Low(x, n + 1) == Low(x, n) + Shl(Bit(x, n), n)
  {
    SplitTwice(x, n, 1);
  }

  lemma {:induction false} LastBit(n: nat, x: nat)
    requires n > 0
    ensures Rev(n, x) == 2 * Rev(n - 1, x) + Bit(x, n - 1) && Rev(n, x) / 2 == Rev(n - 1, x)
    ensures Rev(n, x) % 2 == Bit(x, n - 1)
  {
    hide Bit;
  }

  /** Equal codes come from equal bits. */
  lemma {:induction false} RevInjective(n: nat, x: nat, y: nat)
    requires Rev(n, x) == Rev(n, y)
    ensures Low(x, n) == Low(y, n)
    decreases n
  {
    if n > 0 {
      LastBit(n, x);
      LastBit(n, y);
      hide Rev, Low, Bit, Shl;
      RevInjective(n - 1, x, y);
      LowSucc(x, n - 1);
      LowSucc(y, n - 1);
    } else {
      assert Low(x, 0) == Low(y, 0);
    }
  }

  lemma {:induction false} RevCongruent(n: nat, x: nat, y: nat)
    requires Low(x, n) == Low(y, n)
    ensures Rev(n, x) == Rev(n, y)
  {
    RevLow(n, n, x);
    RevLow(n, n, y);
  }

  /** Extending a short bit string with zeros. */
  lemma {:induction false} RevExtend(k: nat, n: nat, x: nat)
    requires k <= n && x < Pow2(k)
    ensures Rev(n, x) == Shl(Rev(k, x), n - k)
    decreases n
  {
    if k < n {
      RevExtend(k, n - 1, x);
      Pow2Mono(k, n - 1);
      SmallLow(x, n - 1);
    }
  }

  /** A code aligned at bit `k` comes from a bit string that is zero from bit `k` on. */
  lemma {:induction false} RevAligned(k: nat, n: nat, x: nat)
    requires k <= n && x < Pow2(n) && Rev(n, x) == Shl(Rev(k, x), n - k)
    ensures x < Pow2(k)
  {
    var y := Low(x, k);
    Pow2Mono(k, n);
    RevExtend(k, n, y);
    RevLow(k, k, x);
    RevInjective(n, x, y);
    SmallLow(x, n);
    SmallLow(y, n);
  }

  lemma {:induction false} RevStep(t: nat, x: nat)
    ensures Rev(t + 1, x) == 2 * Rev(t, x) + Drop(x, t) % 2
  {
    hide Drop;
  }

  lemma {:induction false} RevOne(t: nat, x: nat)
    requires x < Pow2(t)
    ensures Rev(t + 1, x + Pow2(t)) == 2 * Rev(t, x) + 1
    ensures Rev(t + 1, x) == 2 * Rev(t, x)
  {
    hide Rev, Low, Drop, Shl, Pow2;
    RevStep(t, x);
    RevStep(t, x + Pow2(t));
    Pow2IsShl(t);
    Join(x, 1, t);
    SmallLow(x, t);
    RevCongruent(t, x + Pow2(t), x);
  }

  /** `x` with the bits from `t` up to `k` set. */
  function Topped(t: nat, k: nat, x: nat): (r: nat)
    requires t <= k
  {
    Pow2Mono(t, k);
    x + (Pow2(k) - Pow2(t))
  }

  lemma {:induction false} ToppedNone(t: nat, x: nat)
    ensures Topped(t, t, x) == x && Shl(Rev(t, x), 0) == Rev(t, x) && Pow2(0) == 1
  {
    hide Rev;
  }

  lemma {:induction false} TopOne(t: nat, k: nat, x: nat)
    requires t < k
    ensures Topped(t + 1, k, x + Pow2(t)) == Topped(t, k, x)
  {
    hide Pow2;
    TwoPow2(t);
  }

  lemma {:induction false} RevTopped(t: nat, k: nat, x: nat)
    requires t <= k && x < Pow2(t)
    ensures Topped(t, k, x) < Pow2(k)
    ensures Rev(k, Topped(t, k, x)) == Shl(Rev(t, x), k - t) + (Pow2(k - t) - 1)
    decreases k - t
  {
    hide Rev, Shl, Pow2, Topped;
    if t == k {
      ToppedNone(t, x);
    } else {
      TwoPow2(t);
      TwoPow2(k - t - 1);
      TopOne(t, k, x);
      RevTopped(t + 1, k, x + Pow2(t));
      RevOne(t, x);
      ShlAdd(2 * Rev(t, x), 1, k - t - 1);
      ShlTwice(Rev(t, x), k - t - 1);
      Pow2IsShl(k - t - 1);
    }
  }

  lemma {:induction false} NoShift(x: nat)
    ensures Shl(x, 0) == x
  {
  }

  lemma {:induction false} NoDrop(x: nat)
    ensures Drop(x, 0) == x
  {
  }

  lemma {:induction false} ShlByOne(x: nat)
    ensures Shl(x, 1) == 2 * x
  {
    assert Shl(x, 1) == 2 * Shl(x, 0);
  }

  lemma {:induction false} ShlEight(m: nat)
    ensures Shl(m, 8) == 256 * m && Shl(m, 7) == 128 * m
  {
    assert Shl(m, 1) == 2 * m;
    assert Shl(m, 2) == 4 * m;
    assert Shl(m, 3) == 8 * m;
    assert Shl(m, 4) == 16 * m;
    assert Shl(m, 5) == 32 * m;
    assert Shl(m, 6) == 64 * m;
  }

  lemma {:induction false} TwoPow2(n: nat)
    ensures Pow2(n + 1) == 2 * Pow2(n)
  {
  }

  lemma {:induction false} Pow2IsShl(n: nat)
    ensures Pow2(n) == Shl(1, n)
  {
  }

  // ---- bits as quotients and remainders ----------------------------------------------------

  lemma {:induction false} MulOrder(l: nat, x: int, y: int)
    requires 1 <= l
    ensures x <= y <==> l * x <= l * y
  {
    if x <= y {
      MulGap(l, y - x);
    } else {
      MulGap(l, x - y - 1);
    }
  }

  lemma {:induction false} MulGap(l: nat, d: nat)
    requires 1 <= l
    ensures 0 <= l * d
  {
  }

  lemma {:induction false} Quotient(x: nat, l: nat)
    requires 1 <= l
    ensures x == l * (x / l) + x % l
  {
  }

  /** Quotient and remainder are determined by what is asked of them. */
  lemma {:induction false} Euclid(x: nat, p: nat, d: nat, r: nat)
    requires x == p * d + r && r < p
    ensures x / p == d && x % p == r
  {
    Quotient(x, p);
    MulOrder(p, d + 1, x / p);
    MulOrder(p, x / p + 1, d);
    MulSucc(p, d);
    MulSucc(p, x / p);
  }

  lemma {:induction false} MulSucc(l: nat, q: nat)
    ensures l * (q + 1) == l * q + l
  {
  }

  lemma {:induction false} ShlMul(x: nat, n: nat)
    ensures Shl(x, n) == Pow2(n) * x
  {
    if n > 0 {
      ShlMul(x, n - 1);
      TwoPow2(n - 1);
    }
  }

  lemma {:induction false} DivPow2(x: nat, n: nat)
    ensures x / Pow2(n) == Drop(x, n) && x % Pow2(n) == Low(x, n)
  {
    hide Shl, Pow2, Drop, Low;
    Split(x, n);
    ShlMul(Drop(x, n), n);
    Euclid(x, Pow2(n), Drop(x, n), Low(x, n));
  }

  lemma {:induction false} PowerIs(n: nat)
    requires n <= 16
    ensures Pow2(n) == [1, 2, 4, 8, 16, 32, 64, 128, 256, 512, 1024, 2048, 4096, 8192, 16384, 32768, 65536][n]
  {
    if n > 0 {
      PowerIs(n - 1);
      TwoPow2(n - 1);
    }
  }

  lemma {:induction false} BitDrop(x: nat, a: nat, k: nat)
    ensures Bit(Drop(x, a), k) == Bit(x, a + k)
  {
    DropTwice(x, a, k);
  }

  /** The bits of a number put together from two. */
  lemma {:induction false} BitJoin(lo: nat, hi: nat, n: nat, k: nat)
    requires lo < Pow2(n)
    ensures Bit(lo + Shl(hi, n), k) == if k < n then Bit(lo, k) else Bit(hi, k - n)
  {
    hide Bit, Shl, Pow2, Drop, Low;
    var x := lo + Shl(hi, n);
    Join(lo, hi, n);
    if k < n {
      BitLow(x, n, k);
    } else {
      BitDrop(x, n, k - n);
    }
  }

  lemma {:induction false} NoBit(x: nat, n: nat, k: nat)
    requires x < Pow2(n) && n <= k
    ensures Bit(x, k) == 0
  {
    hide Pow2, Drop;
    SmallLow(x, n);
    BitDrop(x, n, k - n);
    ZeroBit(k - n);
  }

  lemma {:induction false} ZeroBit(k: nat)
    ensures Bit(0, k) == 0
  {
    if k > 0 {
      ZeroBit(k - 1);
    }
  }

  /** `x / 2^a % 2^b`, bit by bit. */
  lemma {:induction false} BitCut(x: nat, a: nat, b: nat, k: nat)
    ensures Bit(Low(Drop(x, a), b), k) == if k < b then Bit(x, a + k) else 0
  {
    hide Bit, Low, Drop;
    if k < b {
      BitLow(Drop(x, a), b, k);
      BitDrop(x, a, k);
    } else {
      NoBit(Low(Drop(x, a), b), b, k);
    }
  }
}
