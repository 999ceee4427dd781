/** huft_build as a whole (inflate.c): counting, checking and sorting the lengths, then the table
    loop; and what its return code and its tables mean.
 */
module HuftMain {
  import opened Bits
  import opened Huffman
  import opened HuftTables
  import opened HuftPlan
  import HuftBuild
  import opened HuftNarrow

  // ---- counting ----------------------------------------------------------------------------

  lemma {:induction false} CountNext(b: seq<nat>, i: nat, k: nat)
    requires i < |b|
    ensures Count(b[..i + 1], k) == Count(b[..i], k) + if b[i] == k then 1 else 0
  {
    assert b[..i + 1][..i] == b[..i];
  }

  method CountLengths(b: seq<nat>, c: array<nat>)
    requires Lengths(b) && c.Length == BMAX + 1
    modifies c
    ensures c[..] == Counts(b)
  {
    for j := 0 to c.Length
      invariant forall t :: 0 <= t < j ==> c[t] == 0
    {
      c[j] := 0;
    }
    for i := 0 to |b|
      invariant forall t :: 0 <= t <= BMAX ==> c[t] == Count(b[..i], t)
    {
      forall t | 0 <= t <= BMAX
        ensures Count(b[..i + 1], t) == Count(b[..i], t) + if b[i] == t then 1 else 0
      {
        CountNext(b, i, t);
      }
      c[b[i]] := c[b[i]] + 1;
    }
    assert b[..|b|] == b;
  }

  /** The longest length that occurs, up to `k`. */
  function Longest(c: seq<nat>, k: nat): (g: nat)
    requires k < |c|
    ensures g <= k && (g > 0 ==> c[g] > 0) && forall j :: g < j <= k ==> c[j] == 0
  {
    if k == 0 || c[k] > 0 then k else Longest(c, k - 1)
  }

  function MaxLength(b: seq<nat>): (g: nat)
    ensures g <= BMAX
  {
    Longest(Counts(b), BMAX)
  }

  lemma {:induction false} CountHas(b: seq<nat>, s: nat)
    requires s < |b|
    ensures Count(b, b[s]) > 0
  {
    RankBelowCount(b, s);
  }

  lemma {:induction false} WithinMax(b: seq<nat>, s: nat)
    requires Lengths(b) && s < |b|
    ensures b[s] <= MaxLength(b)
  {
    CountHas(b, s);
  }

  /** All lengths are accounted for. */
  lemma {:induction false} TotalCount(b: seq<nat>)
    requires Lengths(b)
    ensures var c := Counts(b); c[0] + Off(c, |c|) == |b|
  {
    var c := Counts(b);
    if b == [] {
      OffBump(c, c, 0, |c|);
    } else {
      var front, k := b[..|b| - 1], b[|b| - 1];
      TotalCount(front);
      OffBump(Counts(front), c, k, |c|);
    }
  }

  lemma {:induction false} OffBump(c: seq<nat>, d: seq<nat>, j: nat, k: nat)
    requires k <= |c| == |d|
    requires (forall t :: 0 <= t < |c| ==> c[t] == 0 && d[t] == 0) || (j < |c| && d == c[j := c[j] + 1])
    ensures if d == c then Off(d, k) == 0 else Off(d, k) == Off(c, k) + if 1 <= j < k then 1 else 0
  {
    if k > 1 {
      OffBump(c, d, j, k - 1);
    }
  }

  /** Minimum and maximum length. */
  method Bounds(c: seq<nat>) returns (k: nat, g: nat)
    requires |c| == BMAX + 1 && Longest(c, BMAX) > 0
    ensures 1 <= k <= g <= BMAX && c[k] > 0 && HuftBuild.NoneBefore(c, k) && g == Longest(c, BMAX)
  {
    k := 1;
    while c[k] == 0
      invariant 1 <= k <= Longest(c, BMAX) && HuftBuild.NoneBefore(c, k)
      decreases BMAX - k
    {
      k := k + 1;
    }
    g := BMAX;
    while c[g] == 0
      invariant 1 <= g <= BMAX && Longest(c, g) == Longest(c, BMAX)
      decreases g
    {
      g := g - 1;
    }
  }

  // ---- the Kraft check ---------------------------------------------------------------------

  /** How many codes of the longest length are left over; oversubscribed if that is negative. */
  method LeftOver(c: seq<nat>, k: nat, g: nat) returns (over: bool, y: int)
    requires |c| == BMAX + 1 && 1 <= k <= g <= BMAX && HuftBuild.NoneBefore(c, k)
    ensures over <==> NextCode(c, g) + c[g] > Pow2(g)
    ensures !over ==> y >= 0 && y + NextCode(c, g) + c[g] == Pow2(g)
  {
    NoCodes(c, k);
    y := Pow2(k);
    var j := k;
    while j < g
      invariant k <= j <= g && y + NextCode(c, j) == Pow2(j)
    {
      y := y - c[j];
      if y < 0 {
        if NextCode(c, g) + c[g] <= Pow2(g) {
          FitsBelow(c, g, j);
        }
        return true, y;
      }
      j := j + 1;
      y := 2 * y;
    }
    y := y - c[g];
    over := y < 0;
  }

  /** What huft_build returns, from the Kraft sum of the lengths. */
  function Classify(b: seq<nat>): nat {
    if Kraft(b) > Pow2(BMAX) then 2
    else if Kraft(b) < Pow2(BMAX) && MaxLength(b) != 1 then 1
    else 0
  }

  lemma {:induction false} ScaledOrder(a: nat, g: nat, n: nat)
    requires g <= n
    ensures Shl(a, n - g) > Pow2(n) <==> a > Pow2(g)
    ensures Shl(a, n - g) < Pow2(n) <==> a < Pow2(g)
  {
    ShlMore(1, g, n - g);
    ShlOrder(a, Pow2(g), n - g);
    ShlOrder(Pow2(g), a, n - g);
  }

  lemma {:induction false} KraftAtMax(b: seq<nat>)
    requires Lengths(b) && MaxLength(b) > 0
    ensures var c, g := Counts(b), MaxLength(b);
            && (Kraft(b) > Pow2(BMAX) <==> NextCode(c, g) + c[g] > Pow2(g))
            && (Kraft(b) < Pow2(BMAX) <==> NextCode(c, g) + c[g] < Pow2(g))
  {
    hide Shl, Pow2, NextCode, Kraft, Count;
    var c, g := Counts(b), MaxLength(b);
    KraftIsLastCode(b);
    LastCodeDoubles(c, g, BMAX);
    ScaledOrder(NextCode(c, g) + c[g], g, BMAX);
  }

  // ---- sorting the values ------------------------------------------------------------------

  /** `h` is the `r`-th symbol of length `k`. */
  predicate IsNth(b: seq<nat>, k: nat, r: nat, h: Slot) {
    h.Val? && h.m < |b| && b[h.m] == k && Count(b[..h.m], k) == r
  }

  ghost predicate SortedTo(b: seq<nat>, c: seq<nat>, i: nat, v: seq<Slot>)
    requires i <= |b| && |c| == BMAX + 1
  {
    && |v| == N_MAX
    && (forall k, r :: 1 <= k <= BMAX && 0 <= r < Count(b[..i], k) ==> InPlace(b, c, k, r, v))
    && (forall q :: Off(c, |c|) <= q < |v| ==> v[q].Garbage?)
    && forall q :: 0 <= q < |v| && v[q].Val? ==> v[q].m < |b|
  }

  ghost predicate InPlace(b: seq<nat>, c: seq<nat>, k: nat, r: nat, v: seq<Slot>)
    requires k < |c|
  {
    Off(c, k) + r < |v| && IsNth(b, k, r, v[Off(c, k) + r])
  }

  /** Starting offsets into the value table for each length. */
  method Offsets(c: seq<nat>, g: nat, x: array<nat>)
    requires |c| == BMAX + 1 == x.Length && 1 <= g <= BMAX
    modifies x
    ensures forall k :: 1 <= k <= g ==> x[k] == Off(c, k)
  {
    var j := 0;
    x[1] := 0;
    for i := 1 to g
      invariant j == Off(c, i)
      invariant forall k :: 1 <= k <= i ==> x[k] == Off(c, k)
    {
      j := j + c[i];
      x[i + 1] := j;
    }
  }

  lemma {:induction false} PlaceNew(b: seq<nat>, c: seq<nat>, i: nat, v: seq<Slot>, v': seq<Slot>)
    requires Lengths(b) && |b| <= N_MAX && i < |b| && b[i] > 0 && c == Counts(b) && SortedTo(b, c, i, v)
    requires var q := Off(c, b[i]) + Count(b[..i], b[i]); q < |v| && v' == v[q := Val(i)]
    ensures SortedTo(b, c, i + 1, v')
  {
    var j := b[i];
    RankBelowCount(b, i);
    HuftBuild.OffMono(c, j, |c|);
    forall k, r | 1 <= k <= BMAX && 0 <= r < Count(b[..i + 1], k)
      ensures InPlace(b, c, k, r, v')
    {
      CountNext(b, i, k);
      if k == j && r == Count(b[..i], j) {
      } else {
        assert InPlace(b, c, k, r, v);
        CountMono(b, i, |b|, k);
        assert b[..|b|] == b;
        if k < j {
          HuftBuild.OffMono(c, k, j);
        } else if j < k {
          HuftBuild.OffMono(c, j, k);
        }
      }
    }
  }

  lemma {:induction false} SkipZero(b: seq<nat>, c: seq<nat>, i: nat, v: seq<Slot>)
    requires i < |b| && b[i] == 0 && |c| == BMAX + 1 && SortedTo(b, c, i, v)
    ensures SortedTo(b, c, i + 1, v)
  {
    forall k, r | 1 <= k <= BMAX && 0 <= r < Count(b[..i + 1], k)
      ensures InPlace(b, c, k, r, v)
    {
      CountNext(b, i, k);
    }
  }

  lemma {:induction false} SlotFits(b: seq<nat>, i: nat)
    requires Lengths(b) && i < |b| && b[i] > 0
    ensures Off(Counts(b), b[i]) + Count(b[..i], b[i]) < |b|
  {
    TotalCount(b);
    RankBelowCount(b, i);
    HuftBuild.OffMono(Counts(b), b[i], BMAX + 1);
  }

  lemma {:induction false} NothingSorted(b: seq<nat>, c: seq<nat>, v: seq<Slot>)
    requires |c| == BMAX + 1 && |v| == N_MAX && forall q :: 0 <= q < |v| ==> v[q].Garbage?
    ensures SortedTo(b, c, 0, v) && forall k :: Count(b[..0], k) == 0
  {
  }

  /** Make a table of values in order of bit lengths. */
  method SortValues(b: seq<nat>, ghost c: seq<nat>, ghost g: nat, x: array<nat>, v: array<Slot>)
    requires Lengths(b) && |b| <= N_MAX && c == Counts(b) && g == MaxLength(b)
    requires x.Length == BMAX + 1 && v.Length == N_MAX
    requires forall k :: 1 <= k <= g ==> x[k] == Off(c, k)
    requires forall q :: 0 <= q < v.Length ==> v[q].Garbage?
    modifies x, v
    ensures SortedTo(b, c, |b|, v[..])
  {
    hide Count, Off, SortedTo, MaxLength;
    NothingSorted(b, c, v[..]);
    for i := 0 to |b|
      invariant SortedTo(b, c, i, v[..])
      invariant forall k :: 1 <= k <= g ==> x[k] == Off(c, k) + Count(b[..i], k)
    {
      var j := b[i];
      forall k | 1 <= k <= g
        ensures Count(b[..i + 1], k) == Count(b[..i], k) + if j == k then 1 else 0
      {
        CountNext(b, i, k);
      }
      if j != 0 {
        WithinMax(b, i);
        SlotFits(b, i);
        ghost var v0 := v[..];
        v[x[j]] := Val(i);
        x[j] := x[j] + 1;
        PlaceNew(b, c, i, v0, v[..]);
      } else {
        SkipZero(b, c, i, v[..]);
      }
    }
  }

  // ---- the tables decode the code ----------------------------------------------------------

  /** What the tables need of a set of lengths to decode it: below every multiple of `l` bits but the
      first and those beyond the longest length, fewer than 2^(l - 1) strings begin with no code. */
  ghost predicate Fit(b: seq<nat>, l: nat) {
    l > 0 ==> Narrow(Counts(b), MaxLength(b), l)
  }

  /** Where bits that begin with no symbol's code fall in code order, past all the symbols. */
  function DummyIndex(b: seq<nat>, w: nat): int {
    var c, g := Counts(b), MaxLength(b);
    Off(c, g) + Rev(g, w) - NextCode(c, g)
  }

  /** Bits `w` decode through the tables to what the canonical code says: the symbol's entry and
      the length of its code; or, when no code begins them, to the invalid-code entry if they fall
      beyond as many codes as there are symbols, and to an uninitialised entry otherwise. */
  ghost predicate DecodesTo(T: Tables, l: nat, b: seq<nat>, s: nat, d: seq<nat>, e: seq<nat>, w: nat)
    requires |b| <= s + |d| && |d| == |e|
  {
    var f := Look(T, 0, l, w, 0);
    match Decode(b, w, 0)
    case Sym(m, bits) => f == Leaf(SymbolEntry(s, d, e, m, 0), bits)
    case NoCode => f == if MaxLength(b) == 0 || DummyIndex(b, w) < |b| then Stray else Bad
  }

  ghost predicate DecodesAll(T: Tables, l: nat, b: seq<nat>, s: nat, d: seq<nat>, e: seq<nat>)
    requires |b| <= s + |d| && |d| == |e|
  {
    forall w :: DecodesTo(T, l, b, s, d, e, w)
  }

  /** The plan follows the lengths: counts filled out at the longest length, values sorted. */
  ghost predicate PlanOf(P: Plan, b: seq<nat>, y: nat) {
    && ValidPlan(P) && Lengths(b)
    && P.g == MaxLength(b) && P.n == |b| && P.c == Counts(b)[P.g := Counts(b)[P.g] + y]
    && SortedTo(b, Counts(b), |b|, P.v)
  }

  lemma {:induction false} FilledSame(c: seq<nat>, g: nat, y: nat, k: nat)
    requires k <= g < |c|
    ensures NextCode(c[g := c[g] + y], k) == NextCode(c, k)
    ensures Off(c[g := c[g] + y], k) == Off(c, k)
  {
    if k > 1 {
      FilledSame(c, g, y, k - 1);
    }
  }

  /** A real code among the filled-out ones is the code of a symbol. */
  lemma {:induction false} RealCode(P: Plan, b: seq<nat>, y: nat, k: nat, r: nat, w: nat)
    requires PlanOf(P, b, y) && IsCode(P.c, P.g, k, r) && Matches(P.c, k, r, w) && r < Count(b, k)
    ensures var d := Decode(b, w, 0);
            && d.Sym? && d.s < |b| && d.bits == k
            && Expect(P, k, r) == Leaf(SymbolEntry(P.s, P.d, P.e, d.s, 0), k)
  {
    hide Decode, Rev, NextCode, Off, SymbolEntry;
    var c := Counts(b);
    FilledSame(c, P.g, y, k);
    assert b[..|b|] == b;
    assert InPlace(b, c, k, r, P.v);
    var s := P.v[Off(c, k) + r].m;
    SlotFits(b, s);
    DecodeFinds(b, w, s, 0);
  }

  /** The symbol that decodes is one of the codes counted. */
  lemma {:induction false} SymbolIsCode(b: seq<nat>, w: nat) returns (k: nat, r: nat)
    requires Lengths(b) && Decode(b, w, 0).Sym?
    ensures IsCode(Counts(b), MaxLength(b), k, r) && Matches(Counts(b), k, r, w)
  {
    var f := Decode(b, w, 0);
    DecodeSound(b, w, 0);
    RankBelowCount(b, f.s);
    WithinMax(b, f.s);
    k, r := f.bits, Count(b[..f.s], f.bits);
  }

  /** A dummy code is no symbol's. */
  lemma {:induction false} DummyCode(P: Plan, b: seq<nat>, y: nat, k: nat, r: nat, w: nat)
    requires PlanOf(P, b, y) && IsCode(P.c, P.g, k, r) && Matches(P.c, k, r, w) && r >= Count(b, k)
    ensures Decode(b, w, 0).NoCode?
  {
    hide ValidPlan, SortedTo, Decode, Longest;
    if Decode(b, w, 0).Sym? {
      var k', r' := SymbolIsCode(b, w);
      FilledSame(Counts(b), P.g, y, k');
      MatchUnique(P.c, P.g, k, r, k', r', w);
    }
  }

  /** A dummy code has the longest length. */
  lemma {:induction false} DummyEntry(P: Plan, b: seq<nat>, y: nat, k: nat, r: nat, w: nat)
    requires PlanOf(P, b, y) && IsCode(P.c, P.g, k, r) && Matches(P.c, k, r, w) && r >= Count(b, k)
    ensures DummyIndex(b, w) == Off(P.c, k) + r
    ensures Expect(P, k, r) == if DummyIndex(b, w) < |b| then Stray else Bad
  {
    var c, g := Counts(b), P.g;
    FilledSame(c, g, y, g);
    TotalCount(b);
    OffAbove(c, g, |c|);
  }

  /** If every symbol has a code, other bits are reported invalid. */
  lemma {:induction false} NoGarbage(b: seq<nat>, w: nat)
    requires Lengths(b) && MaxLength(b) > 0 && 0 !in b && Decode(b, w, 0).NoCode?
    requires NextCode(Counts(b), MaxLength(b)) + Count(b, MaxLength(b)) <= Pow2(MaxLength(b))
    ensures DummyIndex(b, w) >= |b|
  {
    var c, g := Counts(b), MaxLength(b);
    TotalCount(b);
    OffAbove(c, g, |c|);
    NoneOf(b, 0);
    var y := Pow2(g) - NextCode(c, g) - c[g];
    var c' := c[g := c[g] + y];
    FilledSame(c, g, y, g);
    var k, r := MatchExists(c', g, w);
    FilledSame(c, g, y, k);
    if r < c[k] {
      var s := NthSymbol(b, k, r);
      DecodeFinds(b, w, s, 0);
    }
  }

  lemma {:induction false} OffAbove(c: seq<nat>, g: nat, k: nat)
    requires 1 <= g < k <= |c| && forall j :: g < j < |c| ==> c[j] == 0
    ensures Off(c, k) == Off(c, g) + c[g]
    decreases k
  {
    if g + 1 < k {
      OffAbove(c, g, k - 1);
    }
  }

  lemma {:induction false} NoneOf(b: seq<nat>, k: nat)
    requires k !in b
    ensures Count(b, k) == 0
  {
    if b != [] {
      NoneOf(b[..|b| - 1], k);
    }
  }

  lemma {:induction false} AllDecode(P: Plan, b: seq<nat>, y: nat, T: Tables)
    requires PlanOf(P, b, y) && Placed(P, T, P.g, P.c[P.g])
    ensures DecodesAll(T, P.l, b, P.s, P.d, P.e)
  {
    forall w
      ensures DecodesTo(T, P.l, b, P.s, P.d, P.e, w)
    {
      var k, r := MatchExists(P.c, P.g, w);
      assert PlacedAt(P, T, k, r, w);
      if r < Count(b, k) {
        RealCode(P, b, y, k, r, w);
      } else {
        DummyCode(P, b, y, k, r, w);
        DummyEntry(P, b, y, k, r, w);
      }
    }
  }

  /** Filling out the counts at the longest length makes no difference to that. */
  lemma {:induction false} FitFilled(P: Plan, b: seq<nat>, y: nat)
    requires PlanOf(P, b, y)
    ensures Fit(b, P.l) <==> Narrow(P.c, P.g, P.l)
  {
    var c, g, l := Counts(b), P.g, P.l;
    forall m | 2 * l <= m < g
      ensures NarrowAt(c, l, m) <==> NarrowAt(P.c, l, m)
    {
      FilledSame(c, g, y, m - 1);
    }
  }

  /** It holds of lengths up to `2 * l`, and of complete sets of fewer than 2^l symbols: of every set
      that inflate builds tables for. */
  lemma {:induction false} SmallFit(b: seq<nat>, l: nat)
    requires Lengths(b) && (MaxLength(b) <= 2 * l || (Kraft(b) == Pow2(BMAX) && |b| < Pow2(l)))
    ensures Fit(b, l)
  {
    hide NarrowAt;
    var c, g := Counts(b), MaxLength(b);
    if l > 0 && g > 2 * l {
      KraftAtMax(b);
      TotalCount(b);
      OffAbove(c, g, |c|);
      HuftBuild.SmallNarrow(c, g, l);
    }
  }

  /** A set it fails for: one code each of one and two bits and two of three, with tables of one
      bit. */
  lemma {:induction false} Unfit()
    ensures Lengths([1, 2, 3, 3]) && MaxLength([1, 2, 3, 3]) == 3 && Classify([1, 2, 3, 3]) == 0
    ensures !Fit([1, 2, 3, 3], 1)
  {
    var b := [1, 2, 3, 3];
    forall k | 0 <= k <= BMAX
      ensures Counts(b)[k] == if k == 1 || k == 2 then 1 else if k == 3 then 2 else 0
    {
      UnfitCount(k);
    }
    var c, g := Counts(b), MaxLength(b);
    assert g == 3 by {
      assert c[3] == 2 && c[g] == if g == 1 || g == 2 then 1 else if g == 3 then 2 else 0;
      hide Counts, Longest;
    }
    assert !NarrowAt(c, 1, 2);
    KraftAtMax(b);
  }

  lemma {:induction false} UnfitCount(k: nat)
    ensures Count([1, 2, 3, 3], k) == if k == 1 || k == 2 then 1 else if k == 3 then 2 else 0
  {
    CountNext([1, 2, 3, 3], 3, k);
    CountNext([1, 2, 3, 3], 2, k);
    CountNext([1, 2, 3, 3], 1, k);
    CountNext([1, 2, 3, 3], 0, k);
  }

  /** Operations are numbers of extra bits, 15, 16, or 99 for an invalid code. */
  predicate Proper(e: seq<nat>) {
    forall q :: 0 <= q < |e| ==> e[q] <= 16 || e[q] == 99
  }

  lemma {:induction false} ProperLeaf(s: nat, d: seq<nat>, e: seq<nat>, m: nat, bits: nat)
    requires |d| == |e| && m < s + |d| && Proper(e)
    ensures Leaf(SymbolEntry(s, d, e, m, 0), bits) != Stray
  {
  }

  /** If all ones are looked up in an entry nobody wrote, a complete set is not decoded. */
  lemma {:induction false} StrayFails(T: Tables, l: nat, b: seq<nat>, s: nat, d: seq<nat>, e: seq<nat>, w: nat)
    requires Lengths(b) && MaxLength(b) > 0 && Kraft(b) == Pow2(BMAX)
    requires |b| <= s + |d| && |d| == |e| && Proper(e) && Look(T, 0, l, w, 0) == Stray
    ensures !DecodesAll(T, l, b, s, d, e)
  {
    hide Kraft, Decode, Proper;
    CompleteDecodes(b, w);
    ProperLeaf(s, d, e, Decode(b, w, 0).s, Decode(b, w, 0).bits);
    assert !DecodesTo(T, l, b, s, d, e, w);
  }

  lemma {:induction false} ShortFits(b: seq<nat>, l: nat)
    requires l > 0 && MaxLength(b) <= 2 * l
    ensures Fit(b, l)
  {
    hide NarrowAt;
  }

  /** A complete set leaves no bits undecoded. */
  lemma {:induction false} CompleteDecodes(b: seq<nat>, w: nat)
    requires Lengths(b) && MaxLength(b) > 0 && Kraft(b) == Pow2(BMAX)
    ensures Decode(b, w, 0).Sym?
  {
    var c, g := Counts(b), MaxLength(b);
    KraftAtMax(b);
    var k, r := MatchExists(c, g, w);
    var s := NthSymbol(b, k, r);
    DecodeFinds(b, w, s, 0);
  }

  lemma {:induction false} NthSymbol(b: seq<nat>, k: nat, r: nat) returns (s: nat)
    requires r < Count(b, k)
    ensures s < |b| && b[s] == k && Count(b[..s], k) == r
  {
    var n := |b| - 1;
    if b[n] == k && r == Count(b[..n], k) {
      s := n;
    } else {
      s := NthSymbol(b[..n], k, r);
      assert b[..n][..s] == b[..s];
    }
  }

  // ---- huft_build --------------------------------------------------------------------------

  /** Tables for the code lengths `b`, of which symbols below `s` are simple and the others have
      base values `d` and extra bits `e`; at most `m` bits are looked up at once. */
  method Build(b: seq<nat>, s: nat, d: seq<nat>, e: seq<nat>, m: nat) returns (ret: nat, T: Tables, l: nat)
    requires 0 < |b| <= N_MAX && Lengths(b) && |b| <= s + |d| && |d| == |e|
    ensures ret == if MaxLength(b) == 0 then 0 else Classify(b)
    ensures MaxLength(b) == 0 ==> T == []
    ensures l <= MaxLength(b) && (l == MaxLength(b) || l >= m)
    ensures l <= m || HuftBuild.NoneBefore(Counts(b), l)
    ensures ret != 2 && Fit(b, l) ==> DecodesAll(T, l, b, s, d, e) && Steady(T, l)
    ensures ret == 0 && Proper(e) ==> (DecodesAll(T, l, b, s, d, e) <==> Fit(b, l))
    ensures ret != 2 && 0 < MaxLength(b) <= l ==> HuftBuild.Flat(T)
  {
    hide DecodesAll, Fit, Kraft, NextCode, Look, Proper;
    var c := new nat[BMAX + 1];
    CountLengths(b, c);
    ghost var counts := Counts(b);
    TotalCount(b);
    if c[0] == |b| {  // null input--all zero length codes
      AllZero(b);
      NothingDecodes(b, s, d, e);
      NoneFit(b);
      return 0, [], 0;
    }
    SomeLength(b);
    var k, g := Bounds(c[..]);
    l := if m < k then k else m;
    if l > g {
      l := g;
    }
    var over, y := LeftOver(c[..], k, g);
    KraftAtMax(b);
    if over {
      return 2, [], l;
    }
    c[g] := c[g] + y;
    assert c[..] == counts[g := counts[g] + y];
    T := FilledTables(b, c, k, g, l, y, s, d, e);
    ret := if y != 0 && g != 1 then 1 else 0;
    if ret == 0 && Proper(e) && !Fit(b, l) {
      if g == 1 {
        ShortFits(b, l);
      }
      StrayFails(T, l, b, s, d, e, Pow2(g) - 1);
    }
  }

  /** Sort the values and build the tables, the counts being filled out. */
  method FilledTables(b: seq<nat>, c: array<nat>, k: nat, g: nat, l: nat, ghost y: nat,
                      s: nat, d: seq<nat>, e: seq<nat>) returns (T: Tables)
    requires 0 < |b| <= N_MAX && Lengths(b) && |b| <= s + |d| && |d| == |e|
    requires 1 <= k <= l <= g == MaxLength(b)
    requires c.Length == BMAX + 1 && c[..] == Counts(b)[g := Counts(b)[g] + y]
    requires Counts(b)[k] > 0 && HuftBuild.NoneBefore(Counts(b), k)
    requires y + NextCode(Counts(b), g) + Counts(b)[g] == Pow2(g)
    ensures Fit(b, l) ==> DecodesAll(T, l, b, s, d, e) && Steady(T, l)
    ensures !Fit(b, l) ==> Look(T, 0, l, Pow2(g) - 1, 0) == Stray
    ensures g <= l ==> HuftBuild.Flat(T)
  {
    hide NextCode, Decode, DecodesAll, Fit, Look, Full, Narrow, SortedTo, Placed;
    var v := Sorted(b, c, g, y);
    var P := Plan(c[..], g, l, |b|, v, s, d, e);
    PlanMade(P, b, y);
    assert P.c[k] > 0 && HuftBuild.NoneBefore(P.c, k);
    T := HuftBuild.BuildTables(P, k);
    FitFilled(P, b, y);
    if Fit(b, l) {
      AllDecode(P, b, y, T);
    }
  }

  lemma {:induction false} PlanMade(P: Plan, b: seq<nat>, y: nat)
    requires Lengths(b) && 1 <= P.l <= P.g == MaxLength(b) && |b| == P.n <= N_MAX
    requires P.c == Counts(b)[P.g := Counts(b)[P.g] + y] && y + NextCode(Counts(b), P.g) + Counts(b)[P.g] == Pow2(P.g)
    requires |b| <= P.s + |P.d| && |P.d| == |P.e| && SortedTo(b, Counts(b), |b|, P.v)
    ensures PlanOf(P, b, y)
  {
    hide NextCode, Count;
    FilledSame(Counts(b), P.g, y, P.g);
  }

  method Sorted(b: seq<nat>, c: array<nat>, g: nat, ghost y: nat) returns (v: seq<Slot>)
    requires 0 < |b| <= N_MAX && Lengths(b) && 1 <= g == MaxLength(b)
    requires c.Length == BMAX + 1 && c[..] == Counts(b)[g := Counts(b)[g] + y]
    ensures SortedTo(b, Counts(b), |b|, v)
  {
    var x := new nat[BMAX + 1];
    var vs := new Slot[N_MAX](_ => Garbage);
    Offsets(c[..], g, x);
    forall t | 1 <= t <= g
      ensures Off(c[..], t) == Off(Counts(b), t)
    {
      FilledSame(Counts(b), g, y, t);
    }
    SortValues(b, Counts(b), g, x, vs);
    v := vs[..];
  }

  lemma {:induction false} AllZero(b: seq<nat>)
    requires Lengths(b) && Counts(b)[0] == |b|
    ensures MaxLength(b) == 0
  {
    var c, g := Counts(b), MaxLength(b);
    TotalCount(b);
    if g > 0 {
      HuftBuild.OffMono(c, g, |c|);
    }
  }

  lemma {:induction false} NothingDecodes(b: seq<nat>, s: nat, d: seq<nat>, e: seq<nat>)
    requires Lengths(b) && MaxLength(b) == 0 && |b| <= s + |d| && |d| == |e|
    ensures DecodesAll([], 0, b, s, d, e)
  {
    forall w
      ensures DecodesTo([], 0, b, s, d, e, w)
    {
      if Decode(b, w, 0).Sym? {
        var k, r := SymbolIsCode(b, w);
      }
    }
  }

  lemma {:induction false} NoneFit(b: seq<nat>)
    ensures Fit(b, 0)
  {
  }

  lemma {:induction false} SomeLength(b: seq<nat>)
    requires Lengths(b) && Counts(b)[0] != |b|
    ensures MaxLength(b) > 0
  {
    if MaxLength(b) == 0 {
      TotalCount(b);
      HuftBuild.NoOffset(Counts(b), BMAX + 1);
    }
  }
}
