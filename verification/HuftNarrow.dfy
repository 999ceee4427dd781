/** Links are made for tables of `l` bits, but huft_build may make a table below the root wider
    than that. Which sets of lengths are spared this, and what becomes of the others: bits that
    are all ones are then looked up in an entry that nobody wrote.
 */
module HuftNarrow {
  import opened Bits
  import opened Huffman
  import opened HuftTables
  import opened HuftPlan

  /** Fewer than 2^(l - 1) strings of `m - 1` bits begin with no code. */
  predicate NarrowAt(c: seq<nat>, l: nat, m: nat)
    requires 1 <= l <= m <= |c|
  {
    Pow2(m - 1) < NextCode(c, m - 1) + c[m - 1] + Pow2(l - 1)
  }

  /** So it is just above the end of every table below the root but the last ones. */
  predicate Narrow(c: seq<nat>, g: nat, l: nat)
    requires g < |c| && 1 <= l
  {
    forall m :: 2 * l <= m < g && m % l == 0 ==> NarrowAt(c, l, m)
  }

  // ---- narrow sets -------------------------------------------------------------------------

  /** A code below `b` bits, `m - b` of them to go at the most, ends before `m` where it is narrow. */
  lemma {:induction false} EndsBefore(c: seq<nat>, g: nat, l: nat, b: nat, i: nat, k: nat, r: nat)
    requires g < |c| && 1 <= l <= b < k <= g && b + l < g && NarrowAt(c, l, b + l)
    requires i < Pow2(b) && IsCode(c, g, k, r) && Matches(c, k, r, i)
    ensures k < b + l
  {
    hide Rev, NextCode, Pow2, Shl;
    var m := b + l - 1;
    RevExtend(b, k, i);
    if k > m {
      NextCodeGrows(c, m, k);
      ShlMore(Rev(b, i), l - 1, k - m);
      ShlOrder(NextCode(c, m) + c[m], Shl(Rev(b, i), l - 1), k - m);
      ShlOrder(Rev(b, i), Pow2(b) - 1, l - 1);
      OnesMore(b, l - 1);
    }
  }

  lemma {:induction false} SubtableWidth(c: seq<nat>, g: nat, l: nat, b: nat, i: nat, k: nat, r: nat, width: nat)
    requires 1 <= l <= b < k <= g < |c| && Narrow(c, g, l) && b % l == 0
    requires i < Pow2(b) && IsCode(c, g, k, r) && Matches(c, k, r, i)
    requires width <= (if g - b < l then g - b else l) || width <= k - b + 1
    requires k == g ==> width == k - b
    ensures width <= l
  {
    if b + l < g {
      NextLevel(b, l);
      assert NarrowAt(c, l, b + l);
      EndsBefore(c, g, l, b, i, k, r);
    }
  }

  lemma {:induction false} NoRest(l: nat, q: nat, q2: nat, r: nat)
    requires l * q == l * q2 + r && r < l
    ensures r == 0
  {
    MulOrder(l, q2, q);
    MulOrder(l, q2 + 1, q);
  }

  lemma {:induction false} NextLevel(b: nat, l: nat)
    requires 1 <= l && b % l == 0
    ensures (b + l) % l == 0
  {
    Quotient(b, l);
    Quotient(b + l, l);
    MulSucc(l, b / l);
    NoRest(l, b / l + 1, (b + l) / l, (b + l) % l);
  }

  /** A multiple of `l` above another is at least `l` above it. */
  lemma {:induction false} LevelsApart(a: nat, m: nat, l: nat)
    requires 1 <= l && a % l == 0 && m % l == 0 && a < m
    ensures a + l <= m
  {
    MulOrder(l, m / l, a / l);
    MulOrder(l, a / l + 1, m / l);
  }

  // ---- what holds of the tables of every set -----------------------------------------------

  /** A code of length `k` begins `z`. */
  ghost predicate CodeOf(P: Plan, k: nat, z: nat)
    requires ValidPlan(P)
  {
    1 <= k <= P.g && NextCode(P.c, k) <= Rev(k, z) < NextCode(P.c, k) + P.c[k]
  }

  /** Bits that are looked up in a written entry begin with a code that ends there. */
  ghost predicate ValueOk(P: Plan, T: Tables, G: seq<Info>, p: nat, j: nat, z: nat)
    requires ValidPlan(P) && p < |T| == |G| && j < |T[p]|
  {
    var h := T[p][j];
    h.Value? && OnPath(G, P.l, p, j, z) ==>
      h.b <= P.l && h.b <= Mask(G, P.l, p) && CodeOf(P, G[p].base + h.b, z)
  }

  ghost predicate Values(P: Plan, T: Tables, G: seq<Info>)
    requires ValidPlan(P) && |T| == |G|
  {
    forall p, j, z :: 0 <= p < |T| && 0 <= j < |T[p]| ==> ValueOk(P, T, G, p, j, z)
  }

  /** Where it is not narrow the table on the last prefix of its level is too wide. */
  ghost predicate WidthOk(P: Plan, f: Info)
    requires ValidPlan(P)
  {
    && f.base >= P.l && f.base % P.l == 0
    && (f.base + P.l < P.g && !NarrowAt(P.c, P.l, f.base + P.l) && f.prefix + 1 == Pow2(f.base) ==> f.width > P.l)
  }

  ghost predicate Widths(P: Plan, G: seq<Info>)
    requires ValidPlan(P)
  {
    forall p :: 0 < p < |G| ==> WidthOk(P, G[p])
  }

  ghost predicate Made(P: Plan, T: Tables, G: seq<Info>)
    requires ValidPlan(P)
  {
    Links(T, G, P.l) && Values(P, T, G) && Widths(P, G)
  }

  lemma {:induction false} RootMade(P: Plan, width: nat)
    requires ValidPlan(P) && P.l <= width <= BMAX + 1
    ensures Made(P, [seq(Pow2(width), _ => Unset)], [Info(0, 0, width)])
  {
    hide OnPath, CodeOf, Pow2;
  }

  /** The bases of tables are multiples of `l`. */
  lemma {:induction false} BaseAligned(P: Plan, T: Tables, G: seq<Info>, p: nat)
    requires ValidPlan(P) && Made(P, T, G) && p < |G|
    ensures G[p].base % P.l == 0 && (p == 0 ==> G[p].base == 0)
  {
    hide OnPath, CodeOf, NarrowAt, EntryOk;
    if p > 0 {
      assert WidthOk(P, G[p]);
    } else {
      ZeroAligned(P.l);
    }
  }

  lemma {:induction false} ZeroAligned(l: nat)
    requires 1 <= l
    ensures 0 % l == 0
  {
  }

  // ---- filling entries ---------------------------------------------------------------------

  lemma {:induction false} FillValue(P: Plan, T: Tables, T': Tables, G: seq<Info>, p: nat, i: nat, k: nat, r: nat,
                                     h: Huft, q: nat, j: nat, z: nat)
    requires ValidPlan(P) && p < |T| == |G| && Values(P, T, G) && IsCode(P.c, P.g, k, r) && Matches(P.c, k, r, i)
    requires i < Pow2(k) && G[p].prefix == Low(i, G[p].base)
    requires G[p].base < k <= G[p].base + Mask(G, P.l, p) && k <= G[p].base + P.l
    requires Filled(T, T', p, Drop(i, G[p].base), k - G[p].base, h) && (h.Value? ==> h.b == k - G[p].base)
    requires q < |T'| && j < |T'[q]|
    ensures ValueOk(P, T', G, q, j, z)
  {
    hide NextCode, Rev, Low, Drop, Pow2;
    assert ValueOk(P, T, G, q, j, z);
    var base := G[p].base;
    if q == p && Low(j, k - base) == Drop(i, base) && OnPath(G, P.l, p, j, z) {
      SmallLow(i, k);
      PathThroughFill(G, P.l, p, j, z, i, k);
      RevCongruent(k, z, i);
    }
  }

  /** Writing the entries of a code keeps what holds of all tables. */
  lemma {:induction false} FillMade(P: Plan, T: Tables, T': Tables, G: seq<Info>, p: nat, i: nat, k: nat, r: nat,
                                    h: Huft)
    requires ValidPlan(P) && Made(P, T, G) && p < |T| && IsCode(P.c, P.g, k, r) && Matches(P.c, k, r, i)
    requires i < Pow2(k) && G[p].prefix == Low(i, G[p].base)
    requires G[p].base < k <= G[p].base + Mask(G, P.l, p) && k <= G[p].base + P.l
    requires Filled(T, T', p, Drop(i, G[p].base), k - G[p].base, h) && !h.Next? && (h.Value? ==> h.b == k - G[p].base)
    ensures Made(P, T', G)
  {
    hide EntryOk, OnPath, CodeOf, Matches, ValueOk, WidthOk;
    FillLinks(T, T', G, P.l, p, Drop(i, G[p].base), k - G[p].base, h);
    forall q, j, z | 0 <= q < |T'| && 0 <= j < |T'[q]|
      ensures ValueOk(P, T', G, q, j, z)
    {
      FillValue(P, T, T', G, p, i, k, r, h, q, j, z);
    }
  }

  // ---- opening a table ---------------------------------------------------------------------

  /** All ones in a code and its reverse. */
  lemma {:induction false} RevOnes(n: nat)
    ensures Rev(n, Pow2(n) - 1) == Pow2(n) - 1
  {
    hide Rev, Pow2, Shl;
    RevTopped(0, n, 0);
    ToppedOnes(n);
  }

  lemma {:induction false} ToppedOnes(n: nat)
    ensures Topped(0, n, 0) == Pow2(n) - 1 && Rev(0, 0) == 0 && 0 < Pow2(0) && Shl(0, n) == 0
  {
    ZeroShl(n);
  }

  /** The width chosen for the last prefix of a level that is not narrow. */
  lemma {:induction false} LastWidth(P: Plan, b: nat, i: nat, k: nat, r: nat, a1: nat, width: nat)
    requires ValidPlan(P) && IsCode(P.c, P.g, k, r) && Matches(P.c, k, r, i) && a1 + r == P.c[k]
    requires P.l <= b < k && b + P.l < P.g && i + 1 == Pow2(b) && !NarrowAt(P.c, P.l, b + P.l)
    requires width >= k - b && (Pow2(k - b) > a1 ==> width > k - b)
    ensures width > P.l
  {
    var c, l := P.c, P.l;
    var m := b + l - 1;
    hide Rev, NextCode, Pow2, Shl;
    RevOnes(b);
    RevExtend(b, k, i);
    OnesMore(b, l - 1);
    if k <= m {
      if k < m {
        NextCodeGrows(c, k, m);
      } else {
        NoShift(NextCode(c, k) + c[k]);
      }
      ShlMore(i, k - b, m - k);
      ShlOrder(Shl(i, k - b) + 1, NextCode(c, k) + c[k], m - k);
      ShlOrder(Shl(i, k - b), Shl(i, k - b) + 1, m - k);
      ShlAdd(Shl(i, k - b), 1, m - k);
    } else if k == m + 1 {
      OnesMore(b, l);
      LaterLeft(P, k);
    }
  }

  lemma {:induction false} OnesMore(b: nat, n: nat)
    ensures Shl(Pow2(b) - 1, n) + Pow2(n) == Pow2(b + n)
  {
    ShlAdd(Pow2(b) - 1, 1, n);
    ShlMore(1, b, n);
  }

  /** A length below the longest does not use up the code space. */
  lemma {:induction false} LaterLeft(P: Plan, k: nat)
    requires ValidPlan(P) && 1 <= k < P.g
    ensures NextCode(P.c, k) + P.c[k] < Pow2(k)
  {
    hide Shl;
    NextCodeGrows(P.c, k, P.g);
    ShlMore(1, k, P.g - k);
    ShlOrder(Pow2(k), NextCode(P.c, k) + P.c[k], P.g - k);
    Pow2IsShl(k);
    Pow2IsShl(P.g);
  }

  lemma {:induction false} OpenValue(P: Plan, T: Tables, T': Tables, G: seq<Info>, f: Info, p: nat, idx: nat,
                                     q: nat, j: nat, z: nat)
    requires ValidPlan(P) && |T| == |G| && Values(P, T, G) && p < |T| && idx < |T[p]|
    requires Opened(T, T', p, idx, P.l, f.width) && q < |T'| && j < |T'[q]|
    ensures ValueOk(P, T', G + [f], q, j, z)
  {
    hide CodeOf;
    if q < |T| {
      assert ValueOk(P, T, G, q, j, z);
    }
  }

  /** Linking in a new table keeps what holds of all tables. */
  lemma {:induction false} OpenMade(P: Plan, T: Tables, T': Tables, G: seq<Info>, p: nat, i: nat, width: nat)
    requires ValidPlan(P) && Made(P, T, G) && p < |T| && 0 < width <= 16 && Mask(G, P.l, p) >= P.l
    requires i < Pow2(G[p].base + P.l) && G[p].prefix == Low(i, G[p].base)
    requires Drop(i, G[p].base) < |T[p]| && Opened(T, T', p, Drop(i, G[p].base), P.l, width)
    requires WidthOk(P, Info(G[p].base + P.l, i, width))
    ensures Made(P, T', G + [Info(G[p].base + P.l, i, width)])
  {
    hide EntryOk, OnPath, CodeOf, ValueOk, WidthOk, Opened;
    var f := Info(G[p].base + P.l, i, width);
    OpenLinks(T, T', G, P.l, p, i, width);
    forall q, j, z | 0 <= q < |T'| && 0 <= j < |T'[q]|
      ensures ValueOk(P, T', G + [f], q, j, z)
    {
      OpenValue(P, T, T', G, f, p, Drop(i, G[p].base), q, j, z);
    }
  }

  // ---- sets that are not narrow ------------------------------------------------------------

  lemma {:induction false} Ones(g: nat, n: nat)
    requires n <= g
    ensures Low(Pow2(g) - 1, n) == Pow2(n) - 1 && Drop(Pow2(g) - 1, n) == Pow2(g - n) - 1
  {
    hide Low, Drop, Pow2, Shl;
    OnesMore(g - n, n);
    Join(Pow2(n) - 1, Pow2(g - n) - 1, n);
  }

  /** More than `l` bits of a long row of ones are a number that `l` bits cannot hold. */
  lemma {:induction false} HighOnes(n: nat, M: nat, l: nat)
    requires l < M && l < n
    ensures Low(Pow2(n) - 1, M) >= Pow2(l)
  {
    hide Low, Drop, Pow2, Shl;
    if M <= n {
      Ones(n, M);
      Pow2Mono(l, M);
    } else {
      Pow2Mono(n, M);
      SmallLow(Pow2(n) - 1, M);
      Pow2Mono(l, n);
    }
  }

  /** The last code is all ones. */
  lemma {:induction false} LastCode(P: Plan)
    requires ValidPlan(P)
    ensures IsCode(P.c, P.g, P.g, P.c[P.g] - 1) && Matches(P.c, P.g, P.c[P.g] - 1, Pow2(P.g) - 1)
  {
    RevOnes(P.g);
  }

  /** No shorter code begins the last one. */
  lemma {:induction false} NoneShorter(P: Plan, k: nat)
    requires ValidPlan(P) && k < P.g
    ensures !CodeOf(P, k, Pow2(P.g) - 1)
  {
    hide Rev, NextCode, Pow2;
    LastCode(P);
    var z := Pow2(P.g) - 1;
    if CodeOf(P, k, z) {
      MatchUnique(P.c, P.g, k, Rev(k, z) - NextCode(P.c, k), P.g, P.c[P.g] - 1, z);
    }
  }

  /** Where it is not narrow the table on the last prefix is wider than `l`, so the others come before. */
  lemma {:induction false} BelowLast(P: Plan, T: Tables, G: seq<Info>, p: nat, m: nat)
    requires ValidPlan(P) && Made(P, T, G) && p < |G| && 2 * P.l <= m < P.g && m % P.l == 0
    requires !NarrowAt(P.c, P.l, m) && G[p].base + P.l <= m && G[p].prefix + 1 == Pow2(G[p].base)
    requires Mask(G, P.l, p) <= P.l
    ensures G[p].base + 2 * P.l <= m
  {
    hide NarrowAt, Pow2, Links, Values;
    if p > 0 {
      assert WidthOk(P, G[p]);
      NextLevel(G[p].base, P.l);
      LevelsApart(G[p].base + P.l, m, P.l);
    } else {
      BaseAligned(P, T, G, p);
    }
  }

  /** The entry that bits of all ones are looked up in, no later than where it is not narrow. */
  lemma {:induction false} LastEntry(P: Plan, T: Tables, G: seq<Info>, p: nat, m: nat) returns (h: Huft)
    requires ValidPlan(P) && Made(P, T, G) && p < |T| == |G| && 2 * P.l <= m < P.g && m % P.l == 0
    requires !NarrowAt(P.c, P.l, m) && G[p].base + P.l <= m && Low(Pow2(P.g) - 1, G[p].base) == G[p].prefix
    ensures var y, M := Drop(Pow2(P.g) - 1, G[p].base), Mask(G, P.l, p);
      Low(y, M) < |T[p]| && h == T[p][Low(y, M)] && !h.Value?
    ensures h.Next? ==> Mask(G, P.l, p) == P.l == h.b && p < h.t < |T| && 16 < h.e <= 32
    ensures h.Next? ==> h.e - 16 == Mask(G, P.l, h.t) && G[h.t].base == G[p].base + P.l && G[h.t].base + P.l <= m
    ensures h.Next? ==> Low(Pow2(P.g) - 1, G[h.t].base) == G[h.t].prefix
  {
    hide NarrowAt, Rev, NextCode, Pow2, Shl, Low, Drop, CodeOf;
    var z, base, M := Pow2(P.g) - 1, G[p].base, Mask(G, P.l, p);
    var y := Drop(z, base);
    var j := Low(y, M);
    Pow2Mono(M, G[p].width);
    h := T[p][j];
    assert OnPath(G, P.l, p, j, z);
    assert ValueOk(P, T, G, p, j, z);
    Ones(P.g, base);
    if h.Value? {
      NoneShorter(P, base + h.b);
    } else if h.Next? {
      assert EntryOk(T, G, P.l, p, j);
      if M > P.l {
        HighOnes(P.g - base, M, P.l);
      }
      BelowLast(P, T, G, p, m);
      SplitTwice(z, base, P.l);
    }
  }

  /** Bits of all ones are looked up in an entry that nobody wrote. */
  lemma {:induction false} LastStray(P: Plan, T: Tables, G: seq<Info>, p: nat, m: nat)
    requires ValidPlan(P) && Made(P, T, G) && p < |T| == |G| && 2 * P.l <= m < P.g && m % P.l == 0
    requires !NarrowAt(P.c, P.l, m) && G[p].base + P.l <= m && Low(Pow2(P.g) - 1, G[p].base) == G[p].prefix
    ensures Look(T, p, Mask(G, P.l, p), Drop(Pow2(P.g) - 1, G[p].base), G[p].base) == Stray
    decreases |T| - p
  {
    hide Made, NarrowAt, Pow2, Low, Drop;
    var z, base := Pow2(P.g) - 1, G[p].base;
    var h := LastEntry(P, T, G, p, m);
    if h.Next? {
      LastStray(P, T, G, h.t, m);
      DropTwice(z, base, P.l);
    }
    LookStep(T, p, Mask(G, P.l, p), Drop(z, base), base, h);
  }

  /** The tables of a set that is not narrow do not decode the code of all ones. */
  lemma {:induction false} NotNarrowStray(P: Plan, T: Tables, G: seq<Info>)
    requires ValidPlan(P) && Made(P, T, G) && |T| > 0 && !Narrow(P.c, P.g, P.l)
    ensures Look(T, 0, P.l, Pow2(P.g) - 1, 0) == Stray
  {
    hide NarrowAt, Links, Values, Widths;
    var m :| 2 * P.l <= m < P.g && m % P.l == 0 && !NarrowAt(P.c, P.l, m);
    RootFirst(P, T, G);
    LastStray(P, T, G, 0, m);
  }

  lemma {:induction false} RootFirst(P: Plan, T: Tables, G: seq<Info>)
    requires ValidPlan(P) && Made(P, T, G) && |T| > 0
    ensures |G| == |T| && G[0].base == 0 && G[0].prefix == 0
    ensures Low(Pow2(P.g) - 1, 0) == 0 && Drop(Pow2(P.g) - 1, 0) == Pow2(P.g) - 1
  {
  }
}
