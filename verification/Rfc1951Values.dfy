/** The format of Rfc1951.dfy in literal numbers: the order of the code lengths, the fixed codes, what the code length
    symbols repeat, and byte strings with what they decode to.
 */
module Rfc1951Values {
  import opened Bits
  import opened Huffman
  import InflateTables
  import opened Window
  import opened Rfc1951
  import opened Rfc1951Strict

  // ---- constants ---------------------------------------------------------------------------

  /** The lengths of the code length code come in the order 16, 17, 18, 0 and then outwards from 8: up at the even
      places, 8 + d, and down at the odd ones, 8 - d. */
  lemma {:induction false} OrderLaw()
    ensures |ORDER| == 19 && ORDER[0] == 16 && ORDER[1] == 17 && ORDER[2] == 18 && ORDER[3] == 0
    ensures forall d :: 0 <= d <= 7 ==> ORDER[4 + 2 * d] == 8 + d
    ensures forall d :: 1 <= d <= 7 ==> ORDER[3 + 2 * d] == 8 - d
  {
    forall d: nat | d <= 7
      ensures ORDER[4 + 2 * d] == 8 + d
      ensures d > 0 ==> ORDER[3 + 2 * d] == 8 - d
    {
      assert d == 0 || d == 1 || d == 2 || d == 3 || d == 4 || d == 5 || d == 6 || d == 7;
    }
  }

  /** Lengths and distances at the ends of the tables. */
  lemma {:induction false} FirstAndLast()
    ensures LengthBase(257) == 3 && LengthBase(265) == 11 && LengthBase(284) == 227 && LengthBase(285) == 258
    ensures LengthExtra(257) == 0 && LengthExtra(265) == 1 && LengthExtra(284) == 5 && LengthExtra(285) == 0
    ensures DistBase(0) == 1 && DistBase(4) == 5 && DistBase(29) == 24577
    ensures DistExtra(0) == 0 && DistExtra(4) == 1 && DistExtra(29) == 13
  {
    hide LengthBase, DistBase;
    InflateTables.LengthTable(0);
    InflateTables.LengthTable(8);
    InflateTables.LengthTable(27);
    InflateTables.LengthTable(28);
    InflateTables.DistTable(0);
    InflateTables.DistTable(4);
    InflateTables.DistTable(29);
  }

  /** Code length symbols: below 16 a length; 16 the last length three to six times, by two bits; 17 and 18 zeros, three
      to ten times by three bits, and eleven to 138 times by seven. */
  lemma {:induction false} LengthSymbol(cl: seq<nat>, s: In, n: nat, acc: seq<nat>, prev: nat)
    requires |acc| < n && Symbol(cl, s).Got?
    ensures var m, s1 := Symbol(cl, s).v, Symbol(cl, s).rest;
      && (m < 16 ==> CodeLengths(cl, s, n, acc, prev) == CodeLengths(cl, s1, n, acc + [m], m))
      && (m == 16 && Take(s1, 2).Got? ==>
           var k := 3 + Take(s1, 2).v;
           CodeLengths(cl, s, n, acc, prev)
             == if |acc| + k > n then Bad else CodeLengths(cl, Take(s1, 2).rest, n, acc + Rep(prev, k), prev))
      && (m == 17 && Take(s1, 3).Got? ==>
           var k := 3 + Take(s1, 3).v;
           CodeLengths(cl, s, n, acc, prev)
             == if |acc| + k > n then Bad else CodeLengths(cl, Take(s1, 3).rest, n, acc + Rep(0, k), 0))
      && (m == 18 && Take(s1, 7).Got? ==>
           var k := 11 + Take(s1, 7).v;
           CodeLengths(cl, s, n, acc, prev)
             == if |acc| + k > n then Bad else CodeLengths(cl, Take(s1, 7).rest, n, acc + Rep(0, k), 0))
  {
    hide Symbol, Take, Rep;
  }

  // ---- the fixed codes ---------------------------------------------------------------------

  lemma {:induction false} FixedLengths(m: nat)
    requires m < 288
    ensures |FixedLit()| == 288
    ensures FixedLit()[m] == if m <= 143 then 8 else if m <= 255 then 9 else if m <= 279 then 7 else 8
    ensures |FixedDist()| == 30 && forall d :: 0 <= d < 30 ==> FixedDist()[d] == 5
  {
    hide Rep;
  }

  lemma {:induction false} RepLast(a: seq<nat>, x: nat, n: nat)
    ensures a + Rep(x, 0) == a
    ensures n > 0 ==> a + Rep(x, n) == a + Rep(x, n - 1) + [x]
  {
  }

  lemma {:induction false} CountRep(a: seq<nat>, x: nat, n: nat, k: nat)
    ensures Count(a + Rep(x, n), k) == Count(a, k) + if x == k then n else 0
  {
    hide Count, Rep;
    RepLast(a, x, n);
    if n > 0 {
      CountRep(a, x, n - 1, k);
      CountLast(a + Rep(x, n - 1), x, k);
    }
  }

  /** How many of the first `m` symbols have length `k`. */
  lemma {:induction false} FixedCount(m: nat, k: nat)
    requires m <= 288
    ensures |FixedLit()| == 288
    ensures Count(FixedLit()[..m], k)
         == if m <= 144 then (if k == 8 then m else 0)
            else if m <= 256 then (if k == 8 then 144 else if k == 9 then m - 144 else 0)
            else if m <= 280 then (if k == 8 then 144 else if k == 9 then 112 else if k == 7 then m - 256 else 0)
            else (if k == 8 then m - 136 else if k == 9 then 112 else if k == 7 then 24 else 0)
  {
    hide Count, Rep;
    var a := Rep(8, 144);
    var b := a + Rep(9, 112);
    var c := b + Rep(7, 24);
    NoneYet(k);
    assert [] + a == a;
    CountRep([], 8, 144, k);
    CountRep(a, 9, 112, k);
    CountRep(b, 7, 24, k);
    if m <= 144 {
      assert FixedLit()[..m] == [] + Rep(8, m);
      CountRep([], 8, m, k);
    } else if m <= 256 {
      assert FixedLit()[..m] == a + Rep(9, m - 144);
      CountRep(a, 9, m - 144, k);
    } else if m <= 280 {
      assert FixedLit()[..m] == b + Rep(7, m - 256);
      CountRep(b, 7, m - 256, k);
    } else {
      assert FixedLit()[..m] == c + Rep(8, m - 280);
      CountRep(c, 8, m - 280, k);
    }
  }

  /** The fixed codes as section 3.2.6 lists them. */
  lemma {:induction false} FixedCode(m: nat)
    requires m < 288
    ensures |FixedLit()| == 288 && FixedLit()[m] <= BMAX
    ensures Code(FixedLit(), m)
         == if m <= 143 then 0x30 + m else if m <= 255 then 0x190 + (m - 144) else if m <= 279 then m - 256
            else 0xc0 + (m - 280)
  {
    hide Count, FixedLit;
    FixedLengths(m);
    var c := Counts(FixedLit());
    forall k | 0 <= k <= 9
      ensures c[k] == if k == 7 then 24 else if k == 8 then 152 else if k == 9 then 112 else 0
    {
      FixedCount(288, k);
      assert FixedLit()[..288] == FixedLit();
    }
    FixedCount(m, FixedLit()[m]);
    NextFixed(c);
    hide NextCode;
  }

  lemma {:induction false} NextFixed(c: seq<nat>)
    requires |c| > 9
    requires forall k :: 0 <= k <= 9 ==>
      c[k] == if k == 7 then 24 else if k == 8 then 152 else if k == 9 then 112 else 0
    ensures NextCode(c, 7) == 0 && NextCode(c, 8) == 0x30 && NextCode(c, 9) == 0x190
  {
    assert NextCode(c, 1) == 0;
    assert NextCode(c, 3) == 0;
    assert NextCode(c, 5) == 0;
  }

  // ---- a stored byte and a fixed one -------------------------------------------------------

  lemma {:induction false} FieldIs(v: nat, n: nat, w: nat)
    requires n <= 16
    ensures Field(v, n, w)
         == v + [1, 2, 4, 8, 16, 32, 64, 128, 256, 512, 1024, 2048, 4096, 8192, 16384, 32768, 65536][n] * w
  {
    PowerIs(n);
    ShlMul(w, n);
    hide Shl, Pow2;
  }

  lemma {:induction false} StreamIs(b: bv8, d: seq<bv8>)
    ensures Stream([b] + d) == b as nat + 256 * Stream(d)
  {
    assert ([b] + d)[1..] == d;
    ShlEight(Stream(d));
    hide Shl;
  }

  /** One byte of a stream. */
  lemma {:induction false} StreamFrom(d: seq<bv8>, i: nat)
    requires i < |d|
    ensures Stream(d[i..]) == d[i] as nat + 256 * Stream(d[i + 1..])
  {
    assert d[i..] == [d[i]] + d[i + 1..];
    StreamIs(d[i], d[i + 1..]);
    hide Stream;
  }

  lemma {:induction false} StreamEnds(d: seq<bv8>)
    ensures Stream(d[|d|..]) == 0 && Stream(d[0..]) == Stream(d)
  {
    assert d[|d|..] == [];
    assert d[0..] == d;
  }

  lemma {:induction false} OneStored(left: nat)
    requires left == 48
    ensures var w := Field(1, 1, Field(0, 2, Field(0, 5, Field(1, 16, Field(0xfffe, 16, Field(0x61, 8, 0))))));
      Inflate(In(w, left), []) == Got([0x61], In(0, 0))
  {
    hide Take, Field, Pow2, Codes, Dynamic;
    SixteenBits();
    var f5 := Field(0x61, 8, 0);
    var f4 := Field(0xfffe, 16, f5);
    var f3 := Field(1, 16, f4);
    var f2 := Field(0, 5, f3);
    var f1 := Field(0, 2, f2);
    TakeField(1, 1, f1, left);
    TakeField(0, 2, f2, left - 1);
    TakeField(0, 5, f3, left - 3);
    SkipTake(In(f2, 45), 5);
    TakeField(1, 16, f4, 40);
    TakeField(0xfffe, 16, f5, 24);
    TakeField(0x61, 8, 0, 8);
    assert StoredBytes(In(0, 0), 0, [0x61]) == Got([0x61], In(0, 0));
    var none: seq<bv8> := [];
    assert none + [0x61] == [0x61];
    assert StoredBytes(In(f5, 8), 1, none) == StoredBytes(In(0, 0), 0, none + [0x61]);
    assert StoredBytes(In(f5, 8), 1, []) == Got([0x61], In(0, 0));
    hide StoredBytes;
    assert Stored(In(f2, 45), []) == Got([0x61], In(0, 0));
  }

  lemma {:induction false} SixteenBits()
    ensures Pow2(1) == 2 && Pow2(2) == 4 && Pow2(3) == 8 && Pow2(4) == 16 && Pow2(5) == 32 && Pow2(7) == 128
    ensures Pow2(8) == 256 && Pow2(16) == 0x1_0000
  {
    PowerIs(1);
    PowerIs(2);
    PowerIs(3);
    PowerIs(4);
    PowerIs(5);
    PowerIs(7);
    PowerIs(8);
    PowerIs(16);
    hide Pow2;
  }

  lemma {:induction false} SkipTake(s: In, n: nat)
    requires Take(s, n).Got?
    ensures Take(s, n).rest == Skip(s, n)
  {
  }

  /** A stored block of one byte. */
  lemma {:induction false} StoredByte()
    ensures InflateBytes([0x01, 0x01, 0x00, 0xfe, 0xff, 0x61]) == Got([0x61], In(0, 0))
  {
    hide Stream, Inflate, Field;
    var d: seq<bv8> := [0x01, 0x01, 0x00, 0xfe, 0xff, 0x61];
    StreamEnds(d);
    StreamFrom(d, 5);
    StreamFrom(d, 4);
    StreamFrom(d, 3);
    StreamFrom(d, 2);
    StreamFrom(d, 1);
    StreamFrom(d, 0);
    assert Stream(d) == 0x61fffe000101;
    FieldIs(0x61, 8, 0);
    FieldIs(0xfffe, 16, 0x61);
    FieldIs(1, 16, 0x61fffe);
    FieldIs(0, 5, 0x61fffe0001);
    FieldIs(0, 2, 0xc3fffc00020);
    FieldIs(1, 1, 0x30ffff000080);
    OneStored(48);
  }

  lemma {:induction false} OneFixed(left: nat)
    requires left == 24
    ensures Inflate(In(Field(1, 1, Field(1, 2, Field(0x89, 8, Field(0, 7, 0)))), left), []) == Got([0x61], In(0, 6))
  {
    hide Take, Field, Pow2, Symbol, Stored, Dynamic, FixedLit, FixedDist, Code, Rev, Kraft;
    SixteenBits();
    var f3 := Field(0, 7, 0);
    var f2 := Field(0x89, 8, f3);
    var f1 := Field(1, 2, f2);
    TakeField(1, 1, f1, left);
    TakeField(1, 2, f2, left - 1);
    InflateTables.FixedLitComplete();
    FixedLengths(0x61);
    FixedLengths(256);
    FixedCode(0x61);
    FixedCode(256);
    FixedBits();
    SymbolField(FixedLit(), 0x61, 0x89, f3, 21);
    SymbolField(FixedLit(), 256, 0, 0, 13);
    assert Codes(FixedLit(), FixedDist(), In(f3, 13), [0x61]) == Got([0x61], In(0, 6));
    var none: seq<bv8> := [];
    assert none + [0x61] == [0x61];
    assert Symbol(FixedLit(), In(f2, 21)) == Got(0x61, In(f3, 13));
    assert Codes(FixedLit(), FixedDist(), In(f2, 21), none)
        == Codes(FixedLit(), FixedDist(), In(f3, 13), none + [0x61]);
    assert Codes(FixedLit(), FixedDist(), In(f2, 21), []) == Got([0x61], In(0, 6));
    hide Codes;
  }

  lemma {:induction false} CodeBits()
    ensures Rev(1, 0) == 0 && Rev(2, 0) == 0 && Rev(2, 2) == 1 && Rev(2, 1) == 2 && Rev(3, 3) == 6 && Rev(3, 7) == 7
  {
  }

  /** The eight bits of the fixed code of 0x61, and the seven of the end. */
  lemma {:induction false} FixedDrops()
    ensures Rev(3, 0x89) == 4 && Drop(0x89, 3) == 17
    ensures Drop(0x89, 4) == 8 && Drop(0x89, 5) == 4 && Drop(0x89, 6) == 2 && Drop(0x89, 7) == 1
  {
    assert Rev(3, 0x89) == 4 && Drop(0x89, 3) == 17;
    DropTwice(0x89, 3, 1);
    hide Rev;
    assert Drop(17, 1) == 8;
    DropTwice(0x89, 4, 1);
    DropTwice(0x89, 5, 1);
    DropTwice(0x89, 6, 1);
  }

  lemma {:induction false} FixedBits()
    ensures Rev(8, 0x89) == 0x91 && Rev(7, 0) == 0
  {
    hide Rev, Drop;
    FixedDrops();
    RevStep(3, 0x89);
    RevStep(4, 0x89);
    RevStep(5, 0x89);
    RevStep(6, 0x89);
    RevStep(7, 0x89);
    NoRev(7);
  }

  lemma {:induction false} NoRev(n: nat)
    ensures Rev(n, 0) == 0
  {
    if n > 0 {
      NoRev(n - 1);
      ZeroBit(n - 1);
    }
  }

  /** A block with the fixed codes: one literal and the end. */
  lemma {:induction false} FixedByte()
    ensures InflateBytes([0x4b, 0x04, 0x00]) == Got([0x61], In(0, 6))
  {
    hide Stream, Inflate, Field;
    var d: seq<bv8> := [0x4b, 0x04, 0x00];
    StreamEnds(d);
    StreamFrom(d, 2);
    StreamFrom(d, 1);
    StreamFrom(d, 0);
    assert Stream(d) == 0x44b;
    FieldIs(0, 7, 0);
    FieldIs(0x89, 8, 0);
    FieldIs(1, 2, 0x89);
    FieldIs(1, 1, 0x225);
    OneFixed(24);
  }

  // ---- a dynamic block ---------------------------------------------------------------------

  /** Two bits for 1, 17 and 18, three for 2 and 3. */
  function Five(): seq<nat> { [0, 2, 3, 3] + Rep(0, 13) + [2, 2] }

  lemma {:induction false} FiveCounts(k: nat)
    requires k > 0
    ensures Count(Five()[..1], k) == 0 && Count(Five()[..2], k) == (if k == 2 then 1 else 0)
    ensures Count(Five()[..3], k) == (if k == 2 || k == 3 then 1 else 0)
    ensures Count(Five()[..17], k) == (if k == 2 then 1 else if k == 3 then 2 else 0)
    ensures Count(Five()[..18], k) == (if k == 2 || k == 3 then 2 else 0)
    ensures Count(Five(), k) == (if k == 2 then 3 else if k == 3 then 2 else 0)
    ensures Kraft(Five()) == Pow2(BMAX)
  {
    hide Count, Kraft, Rep, Pow2;
    var a: seq<nat> := [0];
    NoneYet(k);
    CountLast([], 0, k);
    assert [] + [0] == a;
    CountLast(a, 2, k);
    assert a + [2] == [0, 2];
    CountLast([0, 2], 3, k);
    assert [0, 2] + [3] == [0, 2, 3];
    CountLast([0, 2, 3], 3, k);
    assert [0, 2, 3] + [3] == [0, 2, 3, 3];
    var b: seq<nat> := [0, 2, 3, 3] + Rep(0, 13);
    CountZeros([0, 2, 3, 3], 13, k);
    CountLast(b, 2, k);
    CountLast(b + [2], 2, k);
    FiveParts();
    QuartersAndEighths();
  }

  lemma {:induction false} FiveParts()
    ensures |Five()| == 19
    ensures Five()[..1] == [0] && Five()[..2] == [0, 2] && Five()[..3] == [0, 2, 3]
    ensures Five()[..17] == [0, 2, 3, 3] + Rep(0, 13) && Five()[..18] == [0, 2, 3, 3] + Rep(0, 13) + [2]
    ensures Five() == [0, 2, 3, 3] + Rep(0, 13) + [2] + [2]
    ensures Five()[1] == Five()[17] == Five()[18] == 2 && Five()[2] == Five()[3] == 3
  {
    hide Rep;
  }

  lemma {:induction false} QuartersAndEighths()
    ensures Pow2(BMAX - 1) == 2 * Pow2(BMAX - 2) && Pow2(BMAX) == 4 * Pow2(BMAX - 2)
    ensures Pow2(BMAX - 2) == 2 * Pow2(BMAX - 3)
  {
    TwoPow2(BMAX - 1);
    TwoPow2(BMAX - 2);
    TwoPow2(BMAX - 3);
    hide Pow2;
  }

  lemma {:induction false} FiveCodes()
    ensures |Five()| == 19 && Lengths(Five()) && Usable(Five())
    ensures Five()[1] == Five()[17] == Five()[18] == 2 && Five()[2] == Five()[3] == 3
    ensures Code(Five(), 1) == 0 && Code(Five(), 17) == 1 && Code(Five(), 18) == 2
    ensures Code(Five(), 2) == 6 && Code(Five(), 3) == 7
  {
    hide Count, Kraft, Rep, Pow2;
    FiveCounts(1);
    FiveCounts(2);
    FiveCounts(3);
    FiveParts();
    var c := Counts(Five());
    assert NextCode(c, 1) == 0 && NextCode(c, 2) == 0 && NextCode(c, 3) == 6;
  }

  // The example from its end: "A", "B", "A", three more of the last byte, the end of the block; 65 zeros, 1, 2, 189
  // zeros, 3, 3, and for the distances 1; the lengths of the five codes; and the head of a last, dynamic block.

  function Letters(w: nat): nat { Field(0, 1, Field(1, 2, Field(0, 1, Field(7, 3, Field(0, 1, Field(3, 3, w)))))) }

  function HighLengths(w: nat): nat {
    Field(1, 2, Field(127, 7, Field(1, 2, Field(40, 7, Field(7, 3, Field(7, 3, Field(0, 2, w)))))))
  }

  function LowLengths(w: nat): nat {
    Field(1, 2, Field(49, 7, Field(2, 2, Field(2, 3, Field(0, 2, Field(3, 3, w))))))
  }

  function FiveLengths(w: nat): nat {
    var g := Field(3, 3, Field(0, 3, Field(3, 3, Field(0, 3, Field(2, 3, w)))));
    Field(0, 3, Field(2, 3, Field(2, 3, Field(0, 3, Shl(g, 27)))))
  }

  function DynamicHead(w: nat): nat { Field(1, 1, Field(2, 2, Field(1, 5, Field(0, 5, Field(14, 4, w))))) }

  lemma {:induction false} FiveRead(w: nat, left: nat)
    requires left >= 54
    ensures CodeLengthLengths(In(FiveLengths(w), left), 0, 18, Rep(0, 19)) == Got(Five(), In(w, left - 54))
  {
    hide Field, Shl, Take, CodeLengthLengths, Rep, Five;
    var f4 := Field(2, 3, w);
    var f3 := Field(0, 3, f4);
    var f2 := Field(3, 3, f3);
    var f1 := Field(0, 3, f2);
    var f0 := Field(3, 3, f1);
    var g := Shl(f0, 27);
    var c0 := Rep(0, 19);
    var c4 := c0[16 := 0][17 := 2][18 := 2][0 := 0];
    OneLength(0, 0, Field(2, 3, Field(2, 3, Field(0, 3, g))), left, c0);
    OneLength(1, 2, Field(2, 3, Field(0, 3, g)), left - 3, c0[16 := 0]);
    OneLength(2, 2, Field(0, 3, g), left - 6, c0[16 := 0][17 := 2]);
    OneLength(3, 0, g, left - 9, c0[16 := 0][17 := 2][18 := 2]);
    NoLengths(4, 9, f0, left - 12, c4);
    OneLength(13, 3, f1, left - 39, c4);
    OneLength(14, 0, f2, left - 42, c4[3 := 3]);
    OneLength(15, 3, f3, left - 45, c4[3 := 3][13 := 0]);
    OneLength(16, 0, f4, left - 48, c4[3 := 3][13 := 0][2 := 3]);
    OneLength(17, 2, w, left - 51, c4[3 := 3][13 := 0][2 := 3][14 := 0]);
    FiveIs(c4[3 := 3][13 := 0][2 := 3][14 := 0][1 := 2]);
    AllLengths(In(w, left - 54), Five());
  }

  lemma {:induction false} FiveIs(cl: seq<nat>)
    requires cl == Rep(0, 19)[16 := 0][17 := 2][18 := 2][0 := 0][3 := 3][13 := 0][2 := 3][14 := 0][1 := 2]
    ensures cl == Five()
  {
    hide Rep;
  }

  lemma {:induction false} FiveSymbol(m: nat, v: nat, w: nat, left: nat)
    requires (m, v) in {(1, 0), (17, 2), (18, 1), (2, 3), (3, 7)} && left >= 3
    ensures var n := if m == 2 || m == 3 then 3 else 2;
      Symbol(Five(), In(Field(v, n, w), left)) == Got(m, In(w, left - n))
  {
    hide Symbol, Field, Code, Five, Rev, Pow2;
    FiveCodes();
    CodeBits();
    SixteenBits();
    SymbolField(Five(), m, v, w, left);
  }

  /** One code length. */
  lemma {:induction false} OneOf(m: nat, v: nat, w: nat, left: nat, n: nat, acc: seq<nat>, prev: nat)
    requires (m, v) in {(1, 0), (2, 3), (3, 7)} && |acc| < n && left >= 3
    ensures var k := if m == 1 then 2 else 3;
      CodeLengths(Five(), In(Field(v, k, w), left), n, acc, prev)
        == CodeLengths(Five(), In(w, left - k), n, acc + [m], m)
  {
    hide Symbol, Field, Take, Five;
    FiveSymbol(m, v, w, left);
  }

  lemma {:induction false} ManyOf(x: nat, w: nat, left: nat, n: nat, acc: seq<nat>, prev: nat)
    requires x < 128 && |acc| + x + 11 <= n && left >= 9
    ensures CodeLengths(Five(), In(Field(1, 2, Field(x, 7, w)), left), n, acc, prev)
         == CodeLengths(Five(), In(w, left - 9), n, acc + Rep(0, x + 11), 0)
  {
    hide Symbol, Field, Take, Five, Rep, Pow2;
    FiveSymbol(18, 1, Field(x, 7, w), left);
    SixteenBits();
    TakeField(x, 7, w, left - 2);
  }

  lemma {:induction false} SomeOf(x: nat, w: nat, left: nat, n: nat, acc: seq<nat>, prev: nat)
    requires x < 8 && |acc| + x + 3 <= n && left >= 5
    ensures CodeLengths(Five(), In(Field(2, 2, Field(x, 3, w)), left), n, acc, prev)
         == CodeLengths(Five(), In(w, left - 5), n, acc + Rep(0, x + 3), 0)
  {
    hide Symbol, Field, Take, Five, Rep, Pow2;
    FiveSymbol(17, 2, Field(x, 3, w), left);
    SixteenBits();
    TakeField(x, 3, w, left - 2);
  }

  function Low67(): seq<nat> { [] + Rep(0, 60) + Rep(0, 5) + [1] + [2] }

  function All259(): seq<nat> { Low67() + Rep(0, 138) + Rep(0, 51) + [3] + [3] + [1] }

  lemma {:induction false} LowRead(w: nat, left: nat)
    requires left >= 30
    ensures CodeLengths(Five(), In(LowLengths(w), left), 259, [], 0)
         == CodeLengths(Five(), In(w, left - 19), 259, Low67(), 2)
  {
    hide CodeLengths, Field, Five, Rep;
    var f3 := Field(3, 3, w);
    var f2 := Field(0, 2, f3);
    ManyOf(49, Field(2, 2, Field(2, 3, f2)), left, 259, [], 0);
    SomeOf(2, f2, left - 9, 259, [] + Rep(0, 60), 0);
    OneOf(1, 0, f3, left - 14, 259, [] + Rep(0, 60) + Rep(0, 5), 0);
    OneOf(2, 3, w, left - 16, 259, [] + Rep(0, 60) + Rep(0, 5) + [1], 1);
  }

  lemma {:induction false} HighRead(w: nat, left: nat)
    requires left >= 30
    ensures CodeLengths(Five(), In(HighLengths(w), left), 259, Low67(), 2) == Got(All259(), In(w, left - 26))
  {
    hide CodeLengths, Field, Five, Rep, Low67;
    LowSize();
    var f4 := Field(0, 2, w);
    var f3 := Field(7, 3, f4);
    var f2 := Field(7, 3, f3);
    var a := Low67() + Rep(0, 138);
    ManyOf(127, Field(1, 2, Field(40, 7, f2)), left, 259, Low67(), 2);
    ManyOf(40, f2, left - 9, 259, a, 0);
    OneOf(3, 7, f3, left - 18, 259, a + Rep(0, 51), 0);
    OneOf(3, 7, f4, left - 21, 259, a + Rep(0, 51) + [3], 3);
    OneOf(1, 0, w, left - 24, 259, a + Rep(0, 51) + [3] + [3], 3);
    AllRead(Five(), In(w, left - 26), All259());
  }

  lemma {:induction false} LowSize()
    ensures |Low67()| == 67
  {
    hide Rep;
  }

  /** One bit for "A", two for "B", three for the end and for a length of three. */
  function Lits(): seq<nat> { Rep(0, 65) + [1] + [2] + Rep(0, 189) + [3] + [3] }

  lemma {:induction false} LitParts()
    ensures |Lits()| == 258 && Lengths(Lits())
    ensures Lits()[65] == 1 && Lits()[66] == 2 && Lits()[256] == Lits()[257] == 3
    ensures Lits()[..65] == Rep(0, 65) && Lits()[..66] == Rep(0, 65) + [1]
    ensures Lits()[..256] == Rep(0, 65) + [1] + [2] + Rep(0, 189)
    ensures Lits()[..257] == Rep(0, 65) + [1] + [2] + Rep(0, 189) + [3]
  {
    hide Rep;
  }

  lemma {:induction false} LitCounts(k: nat)
    requires k > 0
    ensures Count(Lits()[..65], k) == 0 && Count(Lits()[..66], k) == (if k == 1 then 1 else 0)
    ensures Count(Lits()[..256], k) == (if k == 1 || k == 2 then 1 else 0)
    ensures Count(Lits()[..257], k) == (if k == 1 || k == 2 || k == 3 then 1 else 0)
    ensures Count(Lits(), k) == (if k == 1 || k == 2 then 1 else if k == 3 then 2 else 0)
    ensures Kraft(Lits()) == Pow2(BMAX)
  {
    hide Count, Kraft, Rep, Pow2;
    var a := Rep(0, 65);
    var b := a + [1] + [2] + Rep(0, 189);
    NoneYet(k);
    assert [] + a == a;
    CountZeros([], 65, k);
    CountLast(a, 1, k);
    CountLast(a + [1], 2, k);
    CountZeros(a + [1] + [2], 189, k);
    CountLast(b, 3, k);
    CountLast(b + [3], 3, k);
    LitParts();
    QuartersAndEighths();
  }

  lemma {:induction false} LitCodes()
    ensures |Lits()| == 258 && Lengths(Lits()) && Usable(Lits())
    ensures Lits()[65] == 1 && Lits()[66] == 2 && Lits()[256] == Lits()[257] == 3
    ensures Code(Lits(), 65) == 0 && Code(Lits(), 66) == 2 && Code(Lits(), 256) == 6 && Code(Lits(), 257) == 7
  {
    hide Count, Kraft, Lits, Pow2;
    LitCounts(1);
    LitCounts(2);
    LitCounts(3);
    LitParts();
    var c := Counts(Lits());
    assert NextCode(c, 1) == 0 && NextCode(c, 2) == 2 && NextCode(c, 3) == 6;
  }

  lemma {:induction false} SplitLengths()
    ensures |All259()| == 259 && All259()[..258] == Lits() && All259()[258..] == [1]
  {
    hide Rep;
    RepAdd(0, 60, 5);
    RepAdd(0, 138, 51);
    assert All259()[..258] == Rep(0, 65) + [1] + [2] + Rep(0, 189) + [3] + [3];
  }

  lemma {:induction false} RepAdd(x: nat, m: nat, n: nat)
    ensures Rep(x, m) + Rep(x, n) == Rep(x, m + n)
  {
    hide Rep;
  }

  lemma {:induction false} LitSymbol(m: nat, v: nat, w: nat, left: nat)
    requires (m, v) in {(65, 0), (66, 1), (256, 3), (257, 7)} && left >= 3
    ensures var n := if m == 65 then 1 else if m == 66 then 2 else 3;
      Symbol(Lits(), In(Field(v, n, w), left)) == Got(m, In(w, left - n))
  {
    hide Symbol, Field, Code, Lits, Rev, Pow2;
    LitCodes();
    CodeBits();
    SixteenBits();
    SymbolField(Lits(), m, v, w, left);
  }

  /** One distance code, of one bit. */
  lemma {:induction false} OneDistance(w: nat, left: nat)
    requires left >= 1
    ensures Usable([1]) && Distance([1], In(Field(0, 1, w), left)) == Got(1, In(w, left - 1))
  {
    hide Symbol, Field, Code, Rev, Pow2, Take;
    OnlyLast([]);
    assert [] + [1] == [1];
    CodeBits();
    SixteenBits();
    SymbolField([1], 0, 0, w, left);
    TakeNone(In(w, left - 1));
  }

  lemma {:induction false} TakeNone(s: In)
    ensures Take(s, 0) == Got(0, s)
  {
  }

  /** Three times the last byte. */
  lemma {:induction false} ThreeTimes(h: seq<bv8>, b: bv8)
    ensures Repeat(h + [b], 1, 3) == h + [b, b, b, b]
  {
    assert Repeat(h + [b], 1, 0) == h + [b];
    assert Repeat(h + [b], 1, 1) == h + [b, b];
    assert Repeat(h + [b], 1, 2) == h + [b, b, b];
  }

  lemma {:induction false} LettersAre(w: nat)
    ensures Letters(w) == Field(0, 1, Field(1, 2, Field(0, 1, Field(7, 3, Field(0, 1, Field(3, 3, w))))))
  {
    hide Field;
  }

  lemma {:induction false} LettersRead(w: nat, left: nat, h: seq<bv8>)
    requires left >= 11
    ensures Codes(Lits(), [1], In(Letters(w), left), h) == Got(h + [65, 66, 65, 65, 65, 65], In(w, left - 11))
  {
    hide *;
    LettersAre(w);
    var f5 := Field(3, 3, w);
    var f4 := Field(0, 1, f5);
    var f3 := Field(7, 3, f4);
    var f2 := Field(0, 1, f3);
    var f1 := Field(1, 2, f2);
    LitSymbol(65, 0, f1, left);
    LitSymbol(66, 1, f2, left - 1);
    LitSymbol(65, 0, f3, left - 3);
    LitSymbol(257, 7, f4, left - 4);
    LitSymbol(256, 3, w, left - 8);
    OneDistance(f5, left - 7);
    var h3 := h + [65] + [66] + [65];
    NextLiteral(Lits(), [1], In(Letters(w), left), h, 65, In(f1, left - 1));
    NextLiteral(Lits(), [1], In(f1, left - 1), h + [65], 66, In(f2, left - 3));
    NextLiteral(Lits(), [1], In(f2, left - 3), h + [65] + [66], 65, In(f3, left - 4));
    NextThree(Lits(), [1], In(f3, left - 4), h3, In(f4, left - 7), In(f5, left - 8));
    ThreeTimes(h + [65] + [66], 65);
    assert h + [65] + [66] + [65, 65, 65, 65] == h + [65, 66, 65, 65, 65, 65];
    EndsHere(Lits(), [1], In(f5, left - 8), h + [65, 66, 65, 65, 65, 65]);
  }

  lemma {:induction false} NextLiteral(lit: seq<nat>, dist: seq<nat>, s: In, h: seq<bv8>, m: nat, s1: In)
    requires m < 256 && Symbol(lit, s) == Got(m, s1)
    ensures Codes(lit, dist, s, h) == Codes(lit, dist, s1, h + [m as bv8])
  {
    hide Symbol;
  }

  lemma {:induction false} LengthThree()
    ensures LengthBase(257) == 3 && LengthExtra(257) == 0
  {
    InflateTables.LengthTable(0);
    hide LengthBase, LengthExtra;
  }

  /** A length of three and a distance of one. */
  lemma {:induction false} NextThree(lit: seq<nat>, dist: seq<nat>, s: In, h: seq<bv8>, s1: In, s2: In)
    requires Symbol(lit, s) == Got(257, s1) && Distance(dist, s1) == Got(1, s2) && |h| > 0
    ensures Codes(lit, dist, s, h) == Codes(lit, dist, s2, Repeat(h, 1, 3))
  {
    hide Symbol, Distance, Take, Repeat, LengthBase, LengthExtra;
    LengthThree();
    TakeNone(s1);
  }

  lemma {:induction false} EndsHere(lit: seq<nat>, dist: seq<nat>, s: In, h: seq<bv8>)
    requires Symbol(lit, s).Got? && Symbol(lit, s).v == 256
    ensures Codes(lit, dist, s, h) == Got(h, Symbol(lit, s).rest)
  {
  }

  /** The lengths of both codes. */
  lemma {:induction false} LengthsRead(w: nat, left: nat)
    requires left >= 110
    ensures CodeLengthLengths(In(FiveLengths(LowLengths(HighLengths(w))), left), 0, 18, Rep(0, 19))
         == Got(Five(), In(LowLengths(HighLengths(w)), left - 54))
    ensures CodeLengths(Five(), In(LowLengths(HighLengths(w)), left - 54), 259, [], 0)
         == Got(All259(), In(w, left - 99))
  {
    hide *;
    FiveRead(LowLengths(HighLengths(w)), left);
    LowRead(HighLengths(w), left - 54);
    HighRead(w, left - 73);
  }

  lemma {:induction false} BothUsable()
    ensures Usable(Five()) && |All259()| == 259 && All259()[..258] == Lits() && All259()[258..] == [1]
    ensures Usable(Lits()) && Usable([1])
  {
    hide *;
    FiveCodes();
    SplitLengths();
    LitCodes();
    OneDistance(0, 1);
  }

  lemma {:induction false} DynamicIs(nl: nat, nd: nat, nb: nat, s: In, h: seq<bv8>, cl: seq<nat>, s1: In, ll: seq<nat>,
                                     s2: In)
    requires nl <= 286 && nd <= 30 && nb <= 19 && CodeLengthLengths(s, 0, nb, Rep(0, 19)) == Got(cl, s1) && Usable(cl)
    requires CodeLengths(cl, s1, nl + nd, [], 0) == Got(ll, s2) && |ll| >= nl && Usable(ll[..nl]) && Usable(ll[nl..])
    ensures DynamicBody(nl, nd, nb, s, h) == Codes(ll[..nl], ll[nl..], s2, h)
  {
    hide CodeLengthLengths, CodeLengths, Usable, Codes, Rep;
  }

  lemma {:induction false} DynamicCodes(w: nat, left: nat, h: seq<bv8>)
    requires left >= 110
    ensures DynamicBody(258, 1, 18, In(FiveLengths(LowLengths(HighLengths(w))), left), h)
         == Codes(Lits(), [1], In(w, left - 99), h)
  {
    hide *;
    var s, s1, s2 := In(FiveLengths(LowLengths(HighLengths(w))), left), In(LowLengths(HighLengths(w)), left - 54),
                     In(w, left - 99);
    LengthsRead(w, left);
    BothUsable();
    var cl, ll := Five(), All259();
    assert |ll| >= 258 && Usable(ll[..258]) && Usable(ll[258..]);
    DynamicIs(258, 1, 18, s, h, cl, s1, ll, s2);
  }

  lemma {:induction false} DynamicHeadRead(w: nat, left: nat)
    requires left >= 17
    ensures Inflate(In(DynamicHead(w), left), []) == DynamicBody(258, 1, 18, In(w, left - 17), [])
  {
    hide Take, Field, DynamicBody, Stored, Codes, FixedLit, FixedDist, Pow2;
    SixteenBits();
    var f4 := Field(14, 4, w);
    var f3 := Field(0, 5, f4);
    var f2 := Field(1, 5, f3);
    var f1 := Field(2, 2, f2);
    TakeField(1, 1, f1, left);
    TakeField(2, 2, f2, left - 1);
    TakeField(1, 5, f3, left - 3);
    TakeField(0, 5, f4, left - 8);
    TakeField(14, 4, w, left - 13);
  }

  // The example as a number, part by part.

  lemma {:induction false} LettersNumber()
    ensures Letters(0) == 0x372
  {
    hide Field;
    FieldIs(3, 3, 0);
    FieldIs(0, 1, 3);
    FieldIs(7, 3, 6);
    FieldIs(0, 1, 0x37);
    FieldIs(1, 2, 0x6e);
    FieldIs(0, 1, 0x1b9);
  }

  lemma {:induction false} HighNumber()
    ensures HighLengths(0x372) == 0xdc8fd43fd
  {
    hide Field;
    FieldIs(0, 2, 0x372);
    FieldIs(7, 3, 0xdc8);
    FieldIs(7, 3, 0x6e47);
    FieldIs(40, 7, 0x3723f);
    FieldIs(1, 2, 0x1b91fa8);
    FieldIs(127, 7, 0x6e47ea1);
    FieldIs(1, 2, 0x3723f50ff);
  }

  lemma {:induction false} LowNumber()
    ensures LowLengths(0xdc8fd43fd) == 0x6e47ea1feb14c5
  {
    hide Field;
    FieldIs(3, 3, 0xdc8fd43fd);
    FieldIs(0, 2, 0x6e47ea1feb);
    FieldIs(2, 3, 0x1b91fa87fac);
    FieldIs(2, 2, 0xdc8fd43fd62);
    FieldIs(49, 7, 0x3723f50ff58a);
    FieldIs(1, 2, 0x1b91fa87fac531);
  }

  lemma {:induction false} NineZeros(w: nat)
    ensures Shl(w, 27) == 134217728 * w
  {
    PowerIs(16);
    PowerIs(11);
    ShlMore(1, 16, 11);
    ShlMul(65536, 11);
    ShlMul(w, 27);
    hide Shl, Pow2;
    Pow2IsShl(16);
    Pow2IsShl(27);
  }

  lemma {:induction false} FiveNumber()
    ensures FiveLengths(0x6e47ea1feb14c5) == 0x1b91fa87fac53150618000000090
  {
    hide Field, Shl;
    FieldIs(2, 3, 0x6e47ea1feb14c5);
    FieldIs(0, 3, 0x3723f50ff58a62a);
    FieldIs(3, 3, 0x1b91fa87fac53150);
    FieldIs(0, 3, 0xdc8fd43fd6298a83);
    FieldIs(3, 3, 0x6e47ea1feb14c5418);
    NineZeros(0x3723f50ff58a62a0c3);
    FieldIs(0, 3, 0x1b91fa87fac53150618000000);
    FieldIs(2, 3, 0xdc8fd43fd6298a830c0000000);
    FieldIs(2, 3, 0x6e47ea1feb14c5418600000002);
    FieldIs(0, 3, 0x3723f50ff58a62a0c3000000012);
  }

  lemma {:induction false} HeadNumber()
    ensures DynamicHead(0x1b91fa87fac53150618000000090) == 0x3723f50ff58a62a0c30000000121c00d
  {
    hide Field;
    FieldIs(14, 4, 0x1b91fa87fac53150618000000090);
    FieldIs(0, 5, 0x1b91fa87fac53150618000000090e);
    FieldIs(1, 5, 0x3723f50ff58a62a0c30000000121c0);
    FieldIs(2, 2, 0x6e47ea1feb14c541860000000243801);
    FieldIs(1, 1, 0x1b91fa87fac53150618000000090e006);
  }

  lemma {:induction false} FourBytes(d: seq<bv8>)
    requires d == [0x0d, 0xc0, 0x21, 0x01, 0x00, 0x00, 0x00, 0xc3, 0xa0, 0x62, 0x8a, 0xf5, 0x0f, 0xf5, 0x23, 0x37]
    ensures Stream(d[12..]) == 0x3723f50f
  {
    hide Stream;
    StreamEnds(d);
    StreamFrom(d, 15);
    assert Stream(d[15..]) == 0x37;
    StreamFrom(d, 14);
    assert Stream(d[14..]) == 0x3723;
    StreamFrom(d, 13);
    assert Stream(d[13..]) == 0x3723f5;
    StreamFrom(d, 12);
  }

  lemma {:induction false} EightBytes(d: seq<bv8>)
    requires d == [0x0d, 0xc0, 0x21, 0x01, 0x00, 0x00, 0x00, 0xc3, 0xa0, 0x62, 0x8a, 0xf5, 0x0f, 0xf5, 0x23, 0x37]
    ensures Stream(d[8..]) == 0x3723f50ff58a62a0
  {
    hide Stream;
    FourBytes(d);
    StreamFrom(d, 11);
    assert Stream(d[11..]) == 0x3723f50ff5;
    StreamFrom(d, 10);
    assert Stream(d[10..]) == 0x3723f50ff58a;
    StreamFrom(d, 9);
    assert Stream(d[9..]) == 0x3723f50ff58a62;
    StreamFrom(d, 8);
  }

  lemma {:induction false} TwelveBytes(d: seq<bv8>)
    requires d == [0x0d, 0xc0, 0x21, 0x01, 0x00, 0x00, 0x00, 0xc3, 0xa0, 0x62, 0x8a, 0xf5, 0x0f, 0xf5, 0x23, 0x37]
    ensures Stream(d[4..]) == 0x3723f50ff58a62a0c3000000
  {
    hide Stream;
    EightBytes(d);
    StreamFrom(d, 7);
    assert Stream(d[7..]) == 0x3723f50ff58a62a0c3;
    StreamFrom(d, 6);
    assert Stream(d[6..]) == 0x3723f50ff58a62a0c300;
    StreamFrom(d, 5);
    assert Stream(d[5..]) == 0x3723f50ff58a62a0c30000;
    StreamFrom(d, 4);
  }

  lemma {:induction false} ExampleStream(d: seq<bv8>)
    requires d == [0x0d, 0xc0, 0x21, 0x01, 0x00, 0x00, 0x00, 0xc3, 0xa0, 0x62, 0x8a, 0xf5, 0x0f, 0xf5, 0x23, 0x37]
    ensures Stream(d) == 0x3723f50ff58a62a0c30000000121c00d
  {
    hide Stream;
    TwelveBytes(d);
    StreamEnds(d);
    StreamFrom(d, 3);
    assert Stream(d[3..]) == 0x3723f50ff58a62a0c300000001;
    StreamFrom(d, 2);
    assert Stream(d[2..]) == 0x3723f50ff58a62a0c30000000121;
    StreamFrom(d, 1);
    assert Stream(d[1..]) == 0x3723f50ff58a62a0c30000000121c0;
    StreamFrom(d, 0);
  }

  /** A block with codes of its own, of one to three bits, whose lengths use the symbols 17 and 18: "ABAAAA", and one
      bit is left. */
  lemma {:induction false} DynamicBytes(d: seq<bv8>)
    requires d == [0x0d, 0xc0, 0x21, 0x01, 0x00, 0x00, 0x00, 0xc3, 0xa0, 0x62, 0x8a, 0xf5, 0x0f, 0xf5, 0x23, 0x37]
    ensures InflateBytes(d) == Got([65, 66, 65, 65, 65, 65], In(0, 1))
  {
    hide Stream, Inflate, Field, DynamicBody, Letters, HighLengths, LowLengths, FiveLengths, DynamicHead, Codes, Lits;
    ExampleStream(d);
    LettersNumber();
    HighNumber();
    LowNumber();
    FiveNumber();
    HeadNumber();
    var none: seq<bv8> := [];
    DynamicHeadRead(FiveLengths(LowLengths(HighLengths(Letters(0)))), 128);
    DynamicCodes(Letters(0), 111, none);
    LettersRead(0, 12, none);
    assert none + [65, 66, 65, 65, 65, 65] == [65, 66, 65, 65, 65, 65];
  }
}
