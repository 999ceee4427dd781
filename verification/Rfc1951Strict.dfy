/** DEFLATE as RFC 1951 has it where inflate.c is more lenient: the code length symbol 16 copies the
    previous code length, so that the first one of a block cannot be 16. What the original makes of
    such data, and that it makes no difference for any other.
 */
module Rfc1951Strict {
  import opened Bits
  import opened Huffman
  import HuftMain
  import InflateTables
  import opened Rfc1951

  // ---- the format --------------------------------------------------------------------------

  /** `n` code lengths, of which `acc` have been read. */
  function StrictLengths(cl: seq<nat>, s: In, n: nat, acc: seq<nat>): (r: Got<seq<nat>>)
    requires |acc| <= n
    ensures r.Got? ==> r.rest.left <= s.left && |r.v| == n
    decreases s.left
  {
    if |acc| == n then Got(acc, s)
    else
      var (m, s1) :- Symbol(cl, s);
      if m < 16 then StrictLengths(cl, s1, n, acc + [m])
      else if m == 16 && acc == [] then Bad
      else
        var (x, s2) :- Take(s1, if m == 16 then 2 else if m == 17 then 3 else 7);
        var k := x + if m == 18 then 11 else 3;
        var l := if m == 16 then acc[|acc| - 1] else 0;
        if |acc| + k > n then Bad else StrictLengths(cl, s2, n, acc + Rep(l, k))
  }

  function StrictBody(nl: nat, nd: nat, nb: nat, s: In, h: seq<bv8>): (r: Got<seq<bv8>>)
    requires nb <= 19
    ensures r.Got? ==> r.rest.left <= s.left
  {
    if nl > 286 || nd > 30 then Bad
    else
      var (cl, s1) :- CodeLengthLengths(s, 0, nb, Rep(0, 19));
      if !Usable(cl) then Bad
      else
        var (ll, s2) :- StrictLengths(cl, s1, nl + nd, []);
        if !Usable(ll[..nl]) || !Usable(ll[nl..]) then Bad else Codes(ll[..nl], ll[nl..], s2, h)
  }

  function StrictDynamic(s: In, h: seq<bv8>): (r: Got<seq<bv8>>)
    ensures r.Got? ==> r.rest.left <= s.left
  {
    var (hlit, s1) :- Take(s, 5);
    var (hdist, s2) :- Take(s1, 5);
    var (hclen, s3) :- Take(s2, 4);
    assert hclen < 16;
    StrictBody(257 + hlit, 1 + hdist, 4 + hclen, s3, h)
  }

  function StrictBlock(s: In, h: seq<bv8>): (r: Got<(bool, seq<bv8>)>)
    ensures r.Got? ==> r.rest.left < s.left
  {
    var (last, s1) :- Take(s, 1);
    var (t, s2) :- Take(s1, 2);
    var (h', s3) :-
      if t == 0 then Stored(s2, h)
      else if t == 1 then Codes(FixedLit(), FixedDist(), s2, h)
      else if t == 2 then StrictDynamic(s2, h)
      else Bad;
    Got((last == 1, h'), s3)
  }

  function StrictInflate(s: In, h: seq<bv8>): (r: Got<seq<bv8>>)
    ensures r.Got? ==> r.rest.left < s.left
    decreases s.left
  {
    var (b, s1) :- StrictBlock(s, h);
    if b.0 then Got(b.1, s1) else StrictInflate(s1, b.1)
  }

  // ---- where the original differs ----------------------------------------------------------

  /** The first code length symbol is 16. */
  predicate CopiesFirst(cl: seq<nat>, s: In) { Symbol(cl, s).Got? && Symbol(cl, s).v == 16 }

  predicate BodyCopies(nl: nat, nd: nat, nb: nat, s: In)
    requires nb <= 19
  {
    var r := CodeLengthLengths(s, 0, nb, Rep(0, 19));
    nl <= 286 && nd <= 30 && r.Got? && Usable(r.v) && CopiesFirst(r.v, r.rest)
  }

  /** The block that comes next is dynamic, and so begins. */
  predicate BlockCopies(s: In) {
    var last := Take(s, 1);
    last.Got? && var t := Take(last.rest, 2);
    t.Got? && t.v == 2 && var hlit := Take(t.rest, 5);
    hlit.Got? && var hdist := Take(hlit.rest, 5);
    hdist.Got? && var hclen := Take(hdist.rest, 4);
    hclen.Got? && BodyCopies(257 + hlit.v, 1 + hdist.v, 4 + hclen.v, hclen.rest)
  }

  /** Some block that the decoding comes to does. */
  predicate SomeCopies(s: In, h: seq<bv8>)
    decreases s.left
  {
    BlockCopies(s) || (Block(s, h).Got? && !Block(s, h).v.0 && SomeCopies(Block(s, h).rest, Block(s, h).v.1))
  }

  lemma {:induction false} LengthsGoOn(cl: seq<nat>, s: In, n: nat, acc: seq<nat>)
    requires 0 < |acc| <= n
    ensures StrictLengths(cl, s, n, acc) == CodeLengths(cl, s, n, acc, acc[|acc| - 1])
    decreases s.left
  {
    hide Symbol, Take;
    if |acc| < n && Symbol(cl, s).Got? {
      var (m, s1) := Symbol(cl, s).Extract();
      SymbolUses(cl, s);
      if m < 16 {
        LengthsGoOn(cl, s1, n, acc + [m]);
      } else {
        var e := Take(s1, if m == 16 then 2 else if m == 17 then 3 else 7);
        if e.Got? {
          var k := e.v + if m == 18 then 11 else 3;
          var l := if m == 16 then acc[|acc| - 1] else 0;
          if |acc| + k <= n {
            TakeUses(s1, if m == 16 then 2 else if m == 17 then 3 else 7);
            LengthsGoOn(cl, e.rest, n, acc + Rep(l, k));
          }
        }
      }
    }
  }

  lemma {:induction false} LengthsExactly(cl: seq<nat>, s: In, n: nat)
    requires n > 0
    ensures StrictLengths(cl, s, n, []) == if CopiesFirst(cl, s) then Bad else CodeLengths(cl, s, n, [], 0)
  {
    hide Symbol, Take;
    if Symbol(cl, s).Got? && Symbol(cl, s).v != 16 {
      var (m, s1) := Symbol(cl, s).Extract();
      if m < 16 {
        LengthsGoOn(cl, s1, n, [] + [m]);
      } else {
        var e := Take(s1, if m == 17 then 3 else 7);
        if e.Got? {
          var k := e.v + if m == 18 then 11 else 3;
          if k <= n {
            LengthsGoOn(cl, e.rest, n, [] + Rep(0, k));
          }
        }
      }
    }
  }

  lemma {:induction false} BodyExactly(nl: nat, nd: nat, nb: nat, s: In, h: seq<bv8>)
    requires nb <= 19 && nl > 0
    ensures StrictBody(nl, nd, nb, s, h) == if BodyCopies(nl, nd, nb, s) then Bad else DynamicBody(nl, nd, nb, s, h)
  {
    hide StrictLengths, CodeLengths, CodeLengthLengths, Codes, Usable, Rep, CopiesFirst;
    var r := CodeLengthLengths(s, 0, nb, Rep(0, 19));
    if r.Got? {
      LengthsExactly(r.v, r.rest, nl + nd);
    }
  }

  lemma {:induction false} BlockExactly(s: In, h: seq<bv8>)
    ensures StrictBlock(s, h) == if BlockCopies(s) then Bad else Block(s, h)
  {
    hide Take, StrictBody, DynamicBody, BodyCopies, Codes, Stored, FixedLit, FixedDist;
    var last := Take(s, 1);
    if last.Got? {
      var t := Take(last.rest, 2);
      if t.Got? && t.v == 2 {
        DynamicExactly(t.rest, h);
      }
    }
  }

  lemma {:induction false} DynamicExactly(s: In, h: seq<bv8>)
    ensures
      var hlit := Take(s, 5);
      if !hlit.Got? then StrictDynamic(s, h) == Dynamic(s, h)
      else
        var hdist := Take(hlit.rest, 5);
        if !hdist.Got? then StrictDynamic(s, h) == Dynamic(s, h)
        else
          var hclen := Take(hdist.rest, 4);
          if !hclen.Got? then StrictDynamic(s, h) == Dynamic(s, h)
          else
            && hclen.v < 16
            && StrictDynamic(s, h) ==
               if BodyCopies(257 + hlit.v, 1 + hdist.v, 4 + hclen.v, hclen.rest) then Bad else Dynamic(s, h)
  {
    hide Take, StrictBody, DynamicBody, BodyCopies;
    var hlit := Take(s, 5);
    if hlit.Got? {
      var hdist := Take(hlit.rest, 5);
      if hdist.Got? {
        HclenRange(hdist.rest);
        var hclen := Take(hdist.rest, 4);
        if hclen.Got? {
          BodyExactly(257 + hlit.v, 1 + hdist.v, 4 + hclen.v, hclen.rest, h);
        }
      }
    }
  }

  /** For every input the format has the original's answer, but calls data bad in which a block that
      is come to begins its code lengths with the symbol 16. */
  lemma {:induction false} StrictExactly(s: In, h: seq<bv8>)
    ensures StrictInflate(s, h) == if SomeCopies(s, h) then Bad else Inflate(s, h)
    decreases s.left
  {
    hide StrictBlock, Block, BlockCopies;
    BlockExactly(s, h);
    var b := Block(s, h);
    if !BlockCopies(s) && b.Got? {
      BlockUses(s, h);
      if !b.v.0 {
        StrictExactly(b.rest, b.v.1);
      }
    }
  }

  /** So the two agree exactly when there is no such block, or the data is bad anyway; and what the
      format allows the original decodes alike. */
  lemma {:induction false} StrictAgrees(s: In, h: seq<bv8>)
    ensures StrictInflate(s, h) == Inflate(s, h) <==> !SomeCopies(s, h) || Inflate(s, h) == Bad
    ensures StrictInflate(s, h).Got? ==> Inflate(s, h) == StrictInflate(s, h)
  {
    StrictExactly(s, h);
    hide StrictInflate, Inflate, SomeCopies;
  }

  // ---- data that the original decodes and the format does not allow ------------------------

  /** An `n`-bit number and the bits after it. */
  function Field(v: nat, n: nat, w: nat): nat { v + Shl(w, n) }

  lemma {:induction false} TakeField(v: nat, n: nat, w: nat, left: nat)
    requires v < Pow2(n) && n <= left
    ensures Take(In(Field(v, n, w), left), n) == Got(v, In(w, left - n))
  {
    Join(v, w, n);
  }

  /** A code and the bits after it. */
  lemma {:induction false} SymbolField(lens: seq<nat>, m: nat, v: nat, w: nat, left: nat)
    requires Lengths(lens) && m < |lens| && 1 <= lens[m] <= left && v < Pow2(lens[m])
    requires Rev(lens[m], v) == Code(lens, m)
    ensures Symbol(lens, In(Field(v, lens[m], w), left)) == Got(m, In(w, left - lens[m]))
  {
    hide Decode, Code, Rev, Shl, Drop, Low;
    var n, x := lens[m], Field(v, lens[m], w);
    Join(v, w, n);
    SmallLow(v, n);
    RevCongruent(n, x, v);
    DecodeFinds(lens, x, m, 0);
  }

  lemma {:induction false} CountLast(a: seq<nat>, x: nat, k: nat)
    ensures Count(a + [x], k) == Count(a, k) + if x == k then 1 else 0
    ensures Kraft(a + [x]) == Kraft(a) + if 1 <= x <= BMAX then Pow2(BMAX - x) else 0
  {
    assert (a + [x])[..|a + [x]| - 1] == a;
  }

  /** Codes of two bits for 1 and 16 and of one for 18. */
  function Trio(): seq<nat> { Rep(0, 1) + [2] + Rep(0, 14) + [2] + Rep(0, 1) + [1] }

  lemma {:induction false} CountZeros(a: seq<nat>, n: nat, k: nat)
    requires k > 0
    ensures Count(a + Rep(0, n), k) == Count(a, k) && Kraft(a + Rep(0, n)) == Kraft(a)
  {
    if n == 0 {
      assert a + Rep(0, 0) == a;
    } else {
      CountZeros(a, n - 1, k);
      CountLast(a + Rep(0, n - 1), 0, k);
      assert a + Rep(0, n) == a + Rep(0, n - 1) + [0];
    }
  }

  lemma {:induction false} TrioCounts(k: nat)
    requires k > 0
    ensures Count(Trio()[..1], k) == 0 && Count(Trio()[..16], k) == (if k == 2 then 1 else 0)
    ensures Count(Trio()[..18], k) == if k == 2 then 2 else 0
    ensures Count(Trio(), k) == if k == 2 then 2 else if k == 1 then 1 else 0
    ensures Kraft(Trio()) == Pow2(BMAX)
  {
    hide Count, Kraft, Rep, Pow2;
    var a := Rep(0, 1);
    var b := a + [2] + Rep(0, 14);
    var d := b + [2] + Rep(0, 1);
    NoneYet(k);
    assert [] + a == a;
    CountZeros([], 1, k);
    CountLast(a, 2, k);
    CountZeros(a + [2], 14, k);
    CountLast(b, 2, k);
    CountZeros(b + [2], 1, k);
    CountLast(d, 1, k);
    assert Trio()[..1] == a && Trio()[..16] == b && Trio()[..18] == d && Trio() == d + [1];
    HalfAndQuarters();
  }

  lemma {:induction false} NoneYet(k: nat)
    ensures Count([], k) == 0 && Kraft([]) == 0
  {
  }

  lemma {:induction false} HalfAndQuarters()
    ensures Pow2(BMAX - 1) + Pow2(BMAX - 2) + Pow2(BMAX - 2) == Pow2(BMAX) && 2 * Pow2(BMAX - 1) == Pow2(BMAX)
  {
    assert Pow2(BMAX) == 2 * Pow2(BMAX - 1);
    assert Pow2(BMAX - 1) == 2 * Pow2(BMAX - 2);
  }

  lemma {:induction false} TrioCodes()
    ensures |Trio()| == 19 && Lengths(Trio()) && Trio()[1] == Trio()[16] == 2 && Trio()[18] == 1 && Usable(Trio())
    ensures Code(Trio(), 18) == 0 && Code(Trio(), 1) == 2 && Code(Trio(), 16) == 3
  {
    hide Count, Kraft, Rep, Pow2;
    TrioCounts(1);
    TrioCounts(2);
    var c := Counts(Trio());
    assert NextCode(c, 1) == 0 && NextCode(c, 2) == 2;
  }

  lemma {:induction false} TrioBits()
    ensures Rev(1, 0) == 0 && Rev(2, 1) == 2 && Rev(2, 3) == 3 && Pow2(1) == 2 && Pow2(2) == 4
  {
    assert Rev(1, 1) == 1 && Rev(1, 3) == 1;
  }

  // The example, from its end: the end of the block; the code lengths 0 six, 138 and 112 times, 1, and
  // for the distances 1; the lengths of the three codes; and the head of a last, dynamic block.

  function Body(w: nat): nat { Field(0, 1, w) }

  function Tail(w: nat): nat { Field(0, 1, Field(101, 7, Field(1, 2, Field(1, 2, w)))) }

  function Repeats(w: nat): nat { Field(3, 2, Field(3, 2, Field(0, 1, Field(127, 7, Tail(w))))) }

  function TrioLengths(w: nat): nat { Field(2, 3, Field(0, 3, Field(1, 3, Shl(Field(2, 3, w), 42)))) }

  function Head(w: nat): nat { Field(1, 1, Field(2, 2, Field(0, 5, Field(0, 5, Field(14, 4, w))))) }

  /** Ninety-six bits, and any after them. */
  function Example(w: nat): nat { Head(TrioLengths(Repeats(Body(w)))) }

  lemma {:induction false} OneLength(j: nat, x: nat, w: nat, left: nat, cl: seq<nat>)
    requires j < 18 && |cl| == 19 && x < 8 && left >= 3
    ensures CodeLengthLengths(In(Field(x, 3, w), left), j, 18, cl)
         == CodeLengthLengths(In(w, left - 3), j + 1, 18, cl[ORDER[j] := x])
  {
    assert Pow2(3) == 8;
    TakeField(x, 3, w, left);
    hide Take, Field;
  }

  /** The lengths of `m` symbols of the order, from place `j` on, are zero. */
  ghost predicate NoneSet(cl: seq<nat>, j: nat, m: nat)
    requires j + m <= |cl| == 19
  {
    forall i :: j <= i < j + m ==> cl[ORDER[i]] == 0
  }

  lemma {:induction false} FirstUnset(cl: seq<nat>, j: nat, m: nat)
    requires 0 < m && j + m <= |cl| == 19 && NoneSet(cl, j, m)
    ensures ORDER[j] < 19 && cl[ORDER[j] := 0] == cl && NoneSet(cl, j + 1, m - 1)
  {
  }

  lemma {:induction false} ThreeMore(w: nat, m: nat)
    requires m > 0
    ensures Field(0, 3, Shl(w, 3 * (m - 1))) == Shl(w, 3 * m)
  {
    ShlMore(w, 3 * (m - 1), 3);
    hide Shl;
  }

  lemma {:induction false} NoLengths(j: nat, m: nat, w: nat, left: nat, cl: seq<nat>)
    requires j + m <= 18 && |cl| == 19 && left >= 3 * m && NoneSet(cl, j, m)
    ensures CodeLengthLengths(In(Shl(w, 3 * m), left), j, 18, cl)
         == CodeLengthLengths(In(w, left - 3 * m), j + m, 18, cl)
    decreases m
  {
    hide CodeLengthLengths, ORDER, NoneSet, Shl, Field;
    if m == 0 {
      NoShift(w);
    } else {
      ThreeMore(w, m);
      OneLength(j, 0, Shl(w, 3 * (m - 1)), left, cl);
      FirstUnset(cl, j, m);
      NoLengths(j + 1, m - 1, w, left - 3, cl);
    }
  }

  lemma {:induction false} TrioRead(w: nat, left: nat)
    requires left >= 54
    ensures CodeLengthLengths(In(TrioLengths(w), left), 0, 18, Rep(0, 19)) == Got(Trio(), In(w, left - 54))
  {
    hide Field, Shl, Take, CodeLengthLengths, Rep, Trio;
    var w3 := Shl(Field(2, 3, w), 42);
    var c0 := Rep(0, 19);
    var c1 := c0[16 := 2];
    var c3 := c1[17 := 0][18 := 1];
    OneLength(0, 2, Field(0, 3, Field(1, 3, w3)), left, c0);
    OneLength(1, 0, Field(1, 3, w3), left - 3, c1);
    OneLength(2, 1, w3, left - 6, c1[17 := 0]);
    NoLengths(3, 14, Field(2, 3, w), left - 9, c3);
    OneLength(17, 2, w, left - 51, c3);
    TrioIs(c3[1 := 2]);
    AllLengths(In(w, left - 54), Trio());
  }

  lemma {:induction false} AllLengths(s: In, cl: seq<nat>)
    requires |cl| == 19
    ensures CodeLengthLengths(s, 18, 18, cl) == Got(cl, s)
  {
  }

  lemma {:induction false} TrioIs(cl: seq<nat>)
    requires cl == Rep(0, 19)[16 := 2][17 := 0][18 := 1][1 := 2]
    ensures cl == Trio()
  {
    hide Rep;
  }

  /** One symbol, and the length it stands for or how often it repeats one. */
  lemma {:induction false} TrioSymbol(m: nat, w: nat, left: nat)
    requires m in {1, 16, 18} && left >= 2
    ensures m == 1 ==> Symbol(Trio(), In(Field(1, 2, w), left)) == Got(1, In(w, left - 2))
    ensures m == 16 ==> Symbol(Trio(), In(Field(3, 2, w), left)) == Got(16, In(w, left - 2))
    ensures m == 18 ==> Symbol(Trio(), In(Field(0, 1, w), left)) == Got(18, In(w, left - 1))
  {
    hide Symbol, Field, Code, Trio;
    TrioCodes();
    TrioBits();
    SymbolField(Trio(), m, if m == 1 then 1 else if m == 16 then 3 else 0, w, left);
  }

  lemma {:induction false} OneMore(w: nat, left: nat, n: nat, acc: seq<nat>, prev: nat)
    requires |acc| < n && left >= 2
    ensures CodeLengths(Trio(), In(Field(1, 2, w), left), n, acc, prev)
      == CodeLengths(Trio(), In(w, left - 2), n, acc + [1], 1)
  {
    hide Symbol, Field, Take, Trio;
    TrioSymbol(1, w, left);
  }

  lemma {:induction false} ManyZeros(x: nat, w: nat, left: nat, n: nat, acc: seq<nat>, prev: nat)
    requires x < 128 && |acc| + x + 11 <= n && left >= 8
    ensures CodeLengths(Trio(), In(Field(0, 1, Field(x, 7, w)), left), n, acc, prev)
         == CodeLengths(Trio(), In(w, left - 8), n, acc + Rep(0, x + 11), 0)
  {
    hide Symbol, Field, Take, Trio, Rep, Pow2;
    TrioSymbol(18, Field(x, 7, w), left);
    SevenBits();
    TakeField(x, 7, w, left - 1);
  }

  lemma {:induction false} SevenBits()
    ensures Pow2(7) == 128
  {
  }

  lemma {:induction false} SixZeros(w: nat, left: nat, n: nat)
    requires n >= 6 && left >= 4
    ensures CodeLengths(Trio(), In(Field(3, 2, Field(3, 2, w)), left), n, [], 0)
         == CodeLengths(Trio(), In(w, left - 4), n, [] + Rep(0, 6), 0)
  {
    hide Symbol, Field, Take, Trio, Rep, Pow2, Rev;
    TrioSymbol(16, Field(3, 2, w), left);
    TrioBits();
    TakeField(3, 2, w, left - 2);
  }

  function Lengths258(): seq<nat> { [] + Rep(0, 6) + Rep(0, 138) + Rep(0, 112) + [1] + [1] }

  lemma {:induction false} RepeatsRead(w: nat, left: nat)
    requires left >= 24
    ensures CodeLengths(Trio(), In(Repeats(w), left), 258, [], 0) == Got(Lengths258(), In(w, left - 24))
  {
    hide CodeLengths, Field, Trio, Rep;
    SixZeros(Field(0, 1, Field(127, 7, Tail(w))), left, 258);
    ManyZeros(127, Tail(w), left - 4, 258, [] + Rep(0, 6), 0);
    var a := [] + Rep(0, 6) + Rep(0, 138);
    ManyZeros(101, Field(1, 2, Field(1, 2, w)), left - 12, 258, a, 0);
    OneMore(Field(1, 2, w), left - 20, 258, a + Rep(0, 112), 0);
    OneMore(w, left - 22, 258, a + Rep(0, 112) + [1], 1);
    AllRead(Trio(), In(w, left - 24), Lengths258());
  }

  lemma {:induction false} AllRead(cl: seq<nat>, s: In, acc: seq<nat>)
    ensures CodeLengths(cl, s, |acc|, acc, 1) == Got(acc, s)
  {
  }

  /** A code of one symbol, of one bit. */
  lemma {:induction false} OnlyLast(a: seq<nat>)
    requires forall i :: 0 <= i < |a| ==> a[i] == 0
    ensures Lengths(a + [1]) && Usable(a + [1]) && Code(a + [1], |a|) == 0
  {
    CountLast(a, 1, 1);
    InflateTables.NoKraft(a);
    HuftMain.NoneOf(a, 1);
    HalfAndQuarters();
    assert (a + [1])[..|a|] == a;
    hide Count, Kraft, Pow2;
  }

  lemma {:induction false} ExampleCodes()
    ensures var ll := Lengths258(); |ll| == 258 && Usable(ll[..257]) && Usable(ll[257..])
    ensures Lengths(Lengths258()[..257]) && Lengths258()[..257][256] == 1 && Code(Lengths258()[..257], 256) == 0
  {
    hide Rep, Usable, Code;
    var a := [] + Rep(0, 6) + Rep(0, 138) + Rep(0, 112);
    assert forall i :: 0 <= i < 256 ==> a[i] == 0;
    OnlyLast(a);
    OnlyLast([]);
    assert Lengths258()[..257] == a + [1] && Lengths258()[257..] == [] + [1];
  }

  lemma {:induction false} BodyRead(dist: seq<nat>, w: nat, left: nat, h: seq<bv8>)
    requires left >= 1
    ensures |Lengths258()| == 258 && Codes(Lengths258()[..257], dist, In(Body(w), left), h) == Got(h, In(w, left - 1))
  {
    ExampleCodes();
    TrioBits();
    SymbolField(Lengths258()[..257], 256, 0, w, left);
    hide Symbol, Lengths258, Field;
  }

  lemma {:induction false} ExampleBody(w: nat, left: nat, h: seq<bv8>)
    requires left >= 79
    ensures DynamicBody(257, 1, 18, In(TrioLengths(Repeats(Body(w))), left), h) == Got(h, In(w, left - 79))
    ensures BodyCopies(257, 1, 18, In(TrioLengths(Repeats(Body(w))), left))
  {
    hide Symbol, Trio, Lengths258, TrioLengths, Body, Usable, Codes, CodeLengths, CodeLengthLengths, Tail, Field, Rep;
    TrioRead(Repeats(Body(w)), left);
    TrioCodes();
    RepeatsRead(Body(w), left - 54);
    ExampleCodes();
    BodyRead(Lengths258()[257..], w, left - 78, h);
    TrioSymbol(16, Field(3, 2, Field(0, 1, Field(127, 7, Tail(Body(w))))), left - 54);
  }

  /** The head says: the last block, dynamic, 257 and 1 codes, 18 code length codes. */
  lemma {:induction false} HeadRead(w: nat, left: nat, h: seq<bv8>)
    requires left >= 17
    ensures BlockCopies(In(Head(w), left)) == BodyCopies(257, 1, 18, In(w, left - 17))
    ensures Block(In(Head(w), left), h) ==
      match DynamicBody(257, 1, 18, In(w, left - 17), h)
      case Got(v, rest) => Got((true, v), rest)
      case Bad => Bad
      case Eof => Eof
  {
    hide Take, Field, DynamicBody, BodyCopies, Stored, Codes, FixedLit, FixedDist, Pow2;
    SmallPowers();
    var f4 := Field(14, 4, w);
    var f3 := Field(0, 5, f4);
    var f2 := Field(0, 5, f3);
    var f1 := Field(2, 2, f2);
    TakeField(1, 1, f1, left);
    TakeField(2, 2, f2, left - 1);
    TakeField(0, 5, f3, left - 3);
    TakeField(0, 5, f4, left - 8);
    TakeField(14, 4, w, left - 13);
  }

  lemma {:induction false} SmallPowers()
    ensures Pow2(1) == 2 && Pow2(2) == 4 && Pow2(4) == 16
  {
  }

  /** Data that the original decodes to nothing, and that the format calls bad: a block whose first six
      code lengths repeat one that is not there. */
  lemma {:induction false} CopiesNothing(w: nat, left: nat, h: seq<bv8>)
    requires left >= 96
    ensures Inflate(In(Example(w), left), h) == Got(h, In(w, left - 96))
    ensures StrictInflate(In(Example(w), left), h) == Bad
  {
    hide Head, TrioLengths, Repeats, Body, DynamicBody, BodyCopies, Block, BlockCopies;
    HeadRead(TrioLengths(Repeats(Body(w))), left, h);
    ExampleBody(w, left - 17, h);
    StrictExactly(In(Example(w), left), h);
  }
}
