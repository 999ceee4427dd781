/** The constant tables of inflate.c, and the trees it builds from them: what an entry read
    through a tree means in RFC 1951's terms.
 */
module InflateTables {
  import opened Bits
  import opened Huffman
  import opened HuftTables
  import opened HuftPlan
  import HuftMain
  import opened Rfc1951

  /** Copy lengths for literal codes 257..285. */
  const CPLENS: seq<nat> := [3, 4, 5, 6, 7, 8, 9, 10, 11, 13, 15, 17, 19, 23, 27, 31, 35, 43, 51, 59, 67, 83, 99,
                             115, 131, 163, 195, 227, 258, 0, 0]

  /** Extra bits for literal codes 257..285; 99 == invalid. */
  const CPLEXT: seq<nat> := [0, 0, 0, 0, 0, 0, 0, 0, 1, 1, 1, 1, 2, 2, 2, 2, 3, 3, 3, 3, 4, 4, 4, 4, 5, 5, 5, 5, 0,
                             99, 99]

  /** Copy offsets for distance codes 0..29. */
  const CPDIST: seq<nat> := [1, 2, 3, 4, 5, 7, 9, 13, 17, 25, 33, 49, 65, 97, 129, 193, 257, 385, 513, 769, 1025,
                             1537, 2049, 3073, 4097, 6145, 8193, 12289, 16385, 24577]

  /** Extra bits for distance codes. */
  const CPDEXT: seq<nat> := [0, 0, 0, 0, 1, 1, 2, 2, 3, 3, 4, 4, 5, 5, 6, 6, 7, 7, 8, 8, 9, 9, 10, 10, 11, 11, 12,
                             12, 13, 13]

  // ---- the tables are those of section 3.2.5 -----------------------------------------------

  lemma {:induction false} LengthRow(i: nat)
    requires i < 27
    ensures CPLENS[i + 1] == CPLENS[i] + Pow2(CPLEXT[i])
    ensures CPLEXT[i + 1] == LengthExtra(258 + i) <= 5 && CPLENS[i] >= 3
  {
    if i < 8 {
    } else if i < 12 {
    } else if i < 16 {
    } else if i < 20 {
    } else if i < 24 {
    }
  }

  lemma {:induction false} LengthTable(i: nat)
    requires i < 29
    ensures LengthBase(257 + i) == CPLENS[i] >= 3 && LengthExtra(257 + i) == CPLEXT[i] <= 5
  {
    if 0 < i < 28 {
      LengthTable(i - 1);
      LengthRow(i - 1);
    }
  }

  lemma {:induction false} Powers()
    ensures Pow2(7) == 128 && Pow2(8) == 256 && Pow2(9) == 512 && Pow2(10) == 1024 && Pow2(11) == 2048
    ensures Pow2(12) == 4096 && Pow2(13) == 8192 && Pow2(16) == 0x1_0000
  {
    assert Pow2(5) == 32;
    assert Pow2(10) == 1024;
    assert Pow2(16) == 8 * Pow2(13);
  }

  lemma {:induction false} DistRowLow(i: nat)
    requires i < 14
    ensures CPDIST[i + 1] == CPDIST[i] + Pow2(CPDEXT[i])
    ensures CPDEXT[i + 1] == DistExtra(i + 1) <= 13
  {
    if i < 4 {
    } else if i < 8 {
    } else if i < 12 {
    }
  }

  lemma {:induction false} DistRowHigh(i: nat)
    requires 14 <= i < 29
    ensures CPDIST[i + 1] == CPDIST[i] + Pow2(CPDEXT[i])
    ensures CPDEXT[i + 1] == DistExtra(i + 1) <= 13
  {
    assert Pow2(6) == 64;
    Powers();
    hide Pow2;
    if i < 18 {
    } else if i < 22 {
    } else if i < 26 {
    }
  }

  lemma {:induction false} DistRow(i: nat)
    requires i < 29
    ensures CPDIST[i + 1] == CPDIST[i] + Pow2(CPDEXT[i])
    ensures CPDEXT[i + 1] == DistExtra(i + 1) <= 13
  {
    if i < 14 {
      DistRowLow(i);
    } else {
      DistRowHigh(i);
    }
  }

  lemma {:induction false} DistTable(i: nat)
    requires i < 30
    ensures DistBase(i) == CPDIST[i] >= 1 && DistExtra(i) == CPDEXT[i] <= 13
  {
    if i > 0 {
      DistTable(i - 1);
      DistRow(i - 1);
    }
  }

  lemma {:induction false} DistTop()
    ensures CPDIST[29] + Pow2(CPDEXT[29]) == 0x8001
  {
    Powers();
  }

  lemma {:induction false} DistNext(i: nat)
    requires i < 30
    ensures DistBase(i) + Pow2(DistExtra(i)) <= 0x8001
    decreases 30 - i
  {
    DistTable(i);
    if i == 29 {
      DistTop();
    } else {
      DistRow(i);
      DistTable(i + 1);
      DistNext(i + 1);
    }
  }

  /** No distance exceeds the window. */
  lemma {:induction false} DistanceRange(dist: seq<nat>, s: In)
    ensures Distance(dist, s).Got? ==> 1 <= Distance(dist, s).v <= 0x8000
  {
    hide DistBase, DistExtra;
    if Distance(dist, s).Got? {
      var m := Symbol(dist, s).v;
      DistTable(m);
      DistNext(m);
    }
  }

  // ---- what an entry means -----------------------------------------------------------------

  lemma {:induction false} LitMeaning(m: nat, bits: nat)
    requires m < 288
    ensures Leaf(SymbolEntry(257, CPLENS, CPLEXT, m, 0), bits)
         == if m < 256 then Hit(16, m, bits) else if m == 256 then Hit(15, m, bits)
            else if m <= 285 then Hit(LengthExtra(m), LengthBase(m), bits) else Found.Bad
  {
    if 257 <= m <= 285 {
      LengthTable(m - 257);
    }
  }

  lemma {:induction false} DistMeaning(m: nat, bits: nat)
    requires m < 30
    ensures Leaf(SymbolEntry(0, CPDIST, CPDEXT, m, 0), bits) == Hit(DistExtra(m), DistBase(m), bits)
  {
    DistTable(m);
  }

  // ---- which codes are usable --------------------------------------------------------------

  lemma {:induction false} MaxAtMost(b: seq<nat>, n: nat)
    requires Lengths(b) && forall i :: 0 <= i < |b| ==> b[i] <= n
    ensures HuftMain.MaxLength(b) <= n
  {
    var g := HuftMain.MaxLength(b);
    if g > n {
      HuftMain.NoneOf(b, g);
    }
  }

  lemma {:induction false} MaxReaches(b: seq<nat>)
    requires Lengths(b)
    ensures forall i :: 0 <= i < |b| ==> b[i] <= HuftMain.MaxLength(b)
  {
    forall i | 0 <= i < |b|
      ensures b[i] <= HuftMain.MaxLength(b)
    {
      HuftMain.WithinMax(b, i);
    }
  }

  lemma {:induction false} NoKraft(b: seq<nat>)
    requires forall i :: 0 <= i < |b| ==> b[i] == 0
    ensures Kraft(b) == 0
  {
    if b != [] {
      NoKraft(b[..|b| - 1]);
    }
  }

  /** huft_build returns 0 for exactly the usable codes. */
  lemma {:induction false} UsableIff(b: seq<nat>)
    requires Lengths(b)
    ensures Usable(b) <==> HuftMain.MaxLength(b) == 0 || HuftMain.Classify(b) == 0
  {
    var g := HuftMain.MaxLength(b);
    MaxReaches(b);
    if g == 0 {
      NoKraft(b);
    } else if Usable(b) && Kraft(b) < Pow2(BMAX) {
      MaxAtMost(b, 1);
    }
  }

  // ---- the fixed codes ---------------------------------------------------------------------

  lemma {:induction false} KraftRep(a: seq<nat>, x: nat, n: nat, p: nat)
    requires 1 <= x <= BMAX && p == Pow2(BMAX - x)
    ensures Kraft(a + Rep(x, n)) == Kraft(a) + n * p
  {
    hide Pow2;
    if n == 0 {
      assert a + Rep(x, 0) == a;
    } else {
      KraftRep(a, x, n - 1, p);
      var b := a + Rep(x, n);
      assert b[..|b| - 1] == a + Rep(x, n - 1) && b[|b| - 1] == x;
      OneTime(n, p);
    }
  }

  lemma {:induction false} OneTime(n: nat, p: nat)
    requires n > 0
    ensures n * p == (n - 1) * p + p
  {
  }

  lemma {:induction false} FixedLitKraft()
    ensures Kraft(FixedLit()) == 0x1_0000
  {
    hide Kraft, Pow2, Rep;
    Powers();
    EmptyKraft();
    var a := Rep(8, 144);
    assert [] + a == a;
    KraftRep([], 8, 144, 256);
    KraftRep(a, 9, 112, 128);
    KraftRep(a + Rep(9, 112), 7, 24, 512);
    KraftRep(a + Rep(9, 112) + Rep(7, 24), 8, 8, 256);
  }

  lemma {:induction false} EmptyKraft()
    ensures Kraft([]) == 0
  {
  }

  lemma {:induction false} FixedLitComplete()
    ensures |FixedLit()| == 288 && Lengths(FixedLit()) && Kraft(FixedLit()) == Pow2(BMAX)
    ensures forall i :: 0 <= i < 288 ==> 7 <= FixedLit()[i] <= 9
  {
    Powers();
    FixedLitKraft();
    hide Kraft, Pow2;
  }

  lemma {:induction false} FixedDistIncomplete()
    ensures |FixedDist()| == 30 && Lengths(FixedDist()) && Kraft(FixedDist()) < Pow2(BMAX)
    ensures forall i :: 0 <= i < 30 ==> FixedDist()[i] == 5
    ensures HuftMain.Classify(FixedDist()) == 1
  {
    Powers();
    assert [] + FixedDist() == FixedDist();
    KraftRep([], 5, 30, 2048);
    MaxReaches(FixedDist());
    assert FixedDist()[0] == 5;
  }
}
