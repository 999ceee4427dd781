/** huft_build (inflate.c): from code lengths to linked decoding tables, step by step as the
    original does it, and the proof that the tables decode the canonical code.
 */
module HuftBuild {
  import opened Bits
  import opened Huffman
  import opened HuftTables
  import opened HuftPlan
  import opened HuftNarrow

  // ---- how wide a table must be ------------------------------------------------------------

  /** A table narrower than `l` has room for every code below its prefix. */
  ghost predicate Roomy(c: seq<nat>, g: nat, base: nat, prefix: nat, width: nat, l: nat)
    requires g < |c|
  {
    width >= l
    || forall k :: base + width < k <= g ==> NextCode(c, k) >= Shl(Rev(base, prefix) + 1, k - base)
  }

  lemma {:induction false} RoomyFrom(c: seq<nat>, g: nat, base: nat, prefix: nat, width: nat, l: nat)
    requires g < |c| && 1 <= base + width < |c|
    requires Shl(Rev(base, prefix) + 1, width) <= NextCode(c, base + width) + c[base + width]
    ensures Roomy(c, g, base, prefix, width, l)
  {
    var m := base + width;
    forall k | m < k <= g
      ensures NextCode(c, k) >= Shl(Rev(base, prefix) + 1, k - base)
    {
      NextCodeGrows(c, m, k);
      ShlMore(Rev(base, prefix) + 1, width, k - m);
      ShlOrder(Shl(Rev(base, prefix) + 1, width), NextCode(c, m) + c[m], k - m);
    }
  }

  lemma {:induction false} RoomyAnyway(c: seq<nat>, g: nat, base: nat, prefix: nat, width: nat, l: nat)
    requires g < |c| && (width >= l || base + width >= g)
    ensures Roomy(c, g, base, prefix, width, l)
  {
  }

  /** A table on whose prefix a code of length `k` begins reaches to `k`, or is `l` bits wide. */
  lemma {:induction false} WideEnough(c: seq<nat>, g: nat, base: nat, i: nat, width: nat, l: nat, k: nat, r: nat)
    requires g < |c| && Roomy(c, g, base, Low(i, base), width, l)
    requires base < k <= g && Matches(c, k, r, i)
    ensures width >= l || k <= base + width
  {
    if width < l && k > base + width {
      RevLow(base, base, i);
      RevPrefix(base, k, i);
      DropAtLeast(Rev(k, i), k - base, Rev(base, i) + 1);
    }
  }

  /** How many codes have length at least `k`. */
  function Tail(c: seq<nat>, g: nat, k: nat): nat
    requires k <= g < |c|
  {
    OffMono(c, k, g);
    Off(c, g) + c[g] - Off(c, k)
  }

  lemma {:induction false} OffMono(c: seq<nat>, j: nat, k: nat)
    requires j <= k <= |c|
    ensures Off(c, j) <= Off(c, k)
    ensures 1 <= j < k ==> Off(c, j) + c[j] <= Off(c, k)
    decreases k
  {
    if j < k && k > 1 {
      OffMono(c, j, k - 1);
    }
  }

  lemma {:induction false} TailNext(c: seq<nat>, g: nat, k: nat)
    requires 1 <= k < g < |c|
    ensures Tail(c, g, k) == c[k] + Tail(c, g, k + 1) && NextCode(c, k + 1) == 2 * (NextCode(c, k) + c[k])
  {
  }

  lemma {:induction false} TailFills(c: seq<nat>, g: nat, k: nat)
    requires Full(c, g) && 1 <= k <= g
    ensures Pow2(g) <= Shl(NextCode(c, k) + Tail(c, g, k), g - k)
    decreases g - k
  {
    hide Tail, NextCode, Pow2, Shl, Off;
    if k < g {
      TailFills(c, g, k + 1);
      TailNext(c, g, k);
      var t := Tail(c, g, k + 1);
      ShlAdd(NextCode(c, k + 1), t, g - k - 1);
      ShlTwice(NextCode(c, k) + c[k], g - k - 1);
      ShlAdd(NextCode(c, k) + c[k], t, g - k);
      ShlTwice(t, g - k - 1);
      ShlAdd(t, t, g - k - 1);
    } else {
      TailLast(c, g);
    }
  }

  lemma {:induction false} TailLast(c: seq<nat>, g: nat)
    requires g < |c|
    ensures Tail(c, g, g) == c[g] && Shl(NextCode(c, g) + c[g], 0) == NextCode(c, g) + c[g]
  {
  }

  lemma {:induction false} RoomLeft(c: seq<nat>, g: nat, k: nat)
    requires Full(c, g) && 1 <= k <= g
    ensures Pow2(k) <= NextCode(c, k) + Tail(c, g, k)
  {
    TailFills(c, g, k);
    ShlMore(1, k, g - k);
    ShlOrder(Pow2(k), NextCode(c, k) + Tail(c, g, k), g - k);
  }

  function Min(a: nat, b: nat): nat { if a < b then a else b }

  /** A set that is not narrow has at least 2^l codes. */
  lemma {:induction false} SmallNarrow(c: seq<nat>, g: nat, l: nat)
    requires Full(c, g) && 1 <= l && Off(c, g) + c[g] < Pow2(l)
    ensures Narrow(c, g, l)
  {
    forall m | 2 * l <= m < g && m % l == 0
      ensures NarrowAt(c, l, m)
    {
      RoomLeft(c, g, m);
      TwoPow2(m - 1);
      TwoPow2(l - 1);
    }
  }

  /** The last length fills every subtree it reaches. */
  lemma {:induction false} LastLengthFills(c: seq<nat>, g: nat, w: nat, a1: nat, i: nat)
    requires Full(c, g) && w < g && a1 <= c[g] && i < Pow2(w) && Matches(c, g, c[g] - a1, i)
    ensures Pow2(g - w) <= a1
  {
    RevExtend(w, g, i);
    ShlAdd(Rev(w, i), 1, g - w);
    ShlOrder(Rev(w, i) + 1, Pow2(w), g - w);
    ShlMore(1, w, g - w);
  }

  /** Too few codes fill a `k - w` bit table: try more bits, up to `z`, while `f` patterns stay
      unused. */
  method Widen(c: seq<nat>, k: nat, w: nat, z: nat, f0: nat, ghost top: nat) returns (j: nat, ghost full: bool)
    requires w < k && w + z < |c| && f0 > 0 && k < |c|
    requires f0 + NextCode(c, k) + c[k] == Shl(top, k - w)
    ensures k - w < j && (j <= z || j == k - w + 1)
    ensures if full then j < z && Shl(top, j) <= NextCode(c, w + j) + c[w + j] else j >= z
  {
    var f := f0;
    var xp := k;
    j := k - w + 1;
    while j < z
      invariant k - w < j && (j <= z || j == k - w + 1)
      invariant xp == w + j - 1 && f > 0
      invariant f + NextCode(c, xp) + c[xp] == Shl(top, j - 1)
      decreases z - j
    {
      xp := xp + 1;
      f := 2 * f;
      if f <= c[xp] {
        return j, true;
      }
      f := f - c[xp];
      j := j + 1;
    }
    full := false;
  }

  lemma {:induction false} FirstBelow(c: seq<nat>, k: nat, w: nat, a1: nat, i: nat)
    requires w < k < |c| && a1 <= c[k] && i < Pow2(w) && Matches(c, k, c[k] - a1, i)
    ensures Shl(Rev(w, i) + 1, k - w) + a1 == NextCode(c, k) + c[k] + Pow2(k - w)
  {
    RevExtend(w, k, i);
    ShlAdd(Rev(w, i), 1, k - w);
  }

  /** The width of a new table below `w` bits: enough for the codes that will go into it, of
      which the next is `i`, of length `k`, the first of `a1` left of that length. */
  method ChooseWidth(c: seq<nat>, g: nat, l: nat, k: nat, w: nat, a1: nat, ghost i: nat) returns (j: nat)
    requires |c| == BMAX + 1 && 1 <= l <= g <= BMAX && Full(c, g)
    requires w < k <= g && 1 <= a1 <= c[k] && i < Pow2(w) && Matches(c, k, c[k] - a1, i)
    ensures k - w <= j <= BMAX + 1 && Roomy(c, g, w, i, j, l)
    ensures j <= Min(g - w, l) || j <= k - w + 1
    ensures k == g ==> j == k - w
    ensures Pow2(k - w) > a1 ==> j > k - w
  {
    hide Roomy, Rev, NextCode, Shl;
    ghost var top := Rev(w, i) + 1;
    FirstBelow(c, k, w, a1, i);
    var z := if g - w > l then l else g - w;
    j := k - w;
    if k == g {
      LastLengthFills(c, g, w, a1, i);
    }
    var f := Pow2(j);
    ghost var full := true;
    if f > a1 {
      j, full := Widen(c, k, w, z, f - a1, top);
    }
    if full {
      RoomyFrom(c, g, w, i, j, l);
    } else {
      RoomyAnyway(c, g, w, i, j, l);
    }
  }

  // ---- stepping the code -------------------------------------------------------------------

  lemma {:induction false} TopBit(i: nat, t: nat)
    requires t > 0 && i < Pow2(t)
    ensures i == Low(i, t - 1) + Shl(Bit(i, t - 1), t - 1)
  {
    LowSucc(i, t - 1);
    SmallLow(i, t);
  }

  /** Adds one to a code kept with its first bit lowest. */
  method Increment(k: nat, i0: nat) returns (i: nat)
    requires i0 < Pow2(k)
    ensures i < Pow2(k)
    ensures Rev(k, i) == if Rev(k, i0) + 1 < Pow2(k) then Rev(k, i0) + 1 else 0
  {
    i := i0;
    var t := k;  // the mask j is 1 << (t - 1), and 0 when t is 0
    while t > 0 && Bit(i, t - 1) == 1
      invariant 0 <= t <= k && i < Pow2(t) && Topped(t, k, i) == i0
    {
      TopBit(i, t);
      i := i - Pow2(t - 1);
      t := t - 1;
    }
    Carried(k, t, i, i0);
    i := if t > 0 then i + Pow2(t - 1) else 0;
  }

  /** The bits above `t` were set; below it bit `t - 1`, if there is one, is clear. */
  lemma {:induction false} Carried(k: nat, t: nat, i: nat, i0: nat)
    requires t <= k && i < Pow2(t) && Topped(t, k, i) == i0 && (t > 0 ==> Bit(i, t - 1) == 0)
    ensures var i' := if t > 0 then i + Pow2(t - 1) else 0;
      i' < Pow2(k) && Rev(k, i') == if Rev(k, i0) + 1 < Pow2(k) then Rev(k, i0) + 1 else 0
  {
    hide Rev, Bit, Topped, Shl, Pow2;
    RevTopped(t, k, i);
    if t > 0 {
      TopBit(i, t);
      ZeroShl(t - 1);
      IncrementFlip(t - 1, k, i);
    } else {
      NoBits(i);
      RevExtend(0, k, 0);
      ZeroShl(k);
    }
  }

  lemma {:induction false} NoBits(i: nat)
    ensures Rev(0, i) == 0 && Pow2(0) == 1
  {
  }

  lemma {:induction false} IncrementFlip(t: nat, k: nat, i: nat)
    requires t < k && i < Pow2(t)
    ensures i + Pow2(t) < Pow2(k)
    ensures Rev(k, i + Pow2(t)) == Shl(Rev(t + 1, i), k - t - 1) + Pow2(k - t - 1)
  {
    hide Rev, Shl, Pow2;
    Pow2Mono(t + 1, k);
    TwoPow2(t);
    Pow2IsShl(k - t - 1);
    RevOne(t, i);
    RevExtend(t + 1, k, i + Pow2(t));
    ShlAdd(Rev(t + 1, i), 1, k - t - 1);
  }

  /** A step that changes the high part leaves a low part of zero. */
  lemma {:induction false} StepCrosses(X: nat, m: nat)
    requires Drop(X + 1, m) != Drop(X, m)
    ensures X + 1 == Shl(Drop(X + 1, m), m)
  {
    Split(X + 1, m);
    if Low(X + 1, m) > 0 {
      Join(Low(X + 1, m) - 1, Drop(X + 1, m), m);
    }
  }

  lemma {:induction false} RevPrefixIs(b: nat, k: nat, i: nat, y: nat)
    requires b <= k && Rev(k, i) == y
    ensures Rev(b, i) == Drop(y, k - b)
  {
    RevPrefix(b, k, i);
  }

  /** When adding one to `X` changes the first `b` bits, all later bits become zero. */
  lemma {:induction false} Crossing(k: nat, b: nat, i0: nat, i: nat, X: nat)
    requires b <= k && i < Pow2(k) && Rev(k, i0) == X && Rev(k, i) == X + 1 && Low(i, b) != Low(i0, b)
    ensures i < Pow2(b)
  {
    if Rev(b, i) == Rev(b, i0) {
      RevInjective(b, i, i0);
    }
    RevPrefixIs(b, k, i, X + 1);
    RevPrefixIs(b, k, i0, X);
    StepCrosses(X, k - b);
    RevAligned(b, k, i);
  }

  // ---- the loop invariant ------------------------------------------------------------------

  /** The open tables when code number `r` of length `k`, bits `i`, comes next; `w` is the
      number of bits before the top table, `-l` while there is none. */
  ghost predicate Open(P: Plan, T: Tables, G: seq<Info>, u: seq<nat>, x: seq<nat>, w: int,
                       i: nat, k: nat, r: nat)
  {
    && ValidPlan(P) && 1 <= k <= P.g && r <= P.c[k]
    && Sizes(T, G) && Stack(G, u, x, P.l, i) && AllRoomy(P, G, u)
    && (|u| == 0 ==> w + P.l == 0 && k <= P.l && i == 0 && r == 0 && NoneBefore(P.c, k))
    && (|u| > 0 ==> w == Top(G, u).base && w < k)
    && i < Pow2(k)
    && (NextCode(P.c, k) + r < Pow2(k) ==> Matches(P.c, k, r, i))
    && w + P.l >= 0 && (k <= w + P.l || i < Pow2(w + P.l))
    && (P.g <= P.l ==> |T| <= 1) && (|u| > 0 ==> w >= 0 && |T| > 0)
  }

  ghost predicate AllRoomy(P: Plan, G: seq<Info>, u: seq<nat>)
    requires ValidPlan(P)
  {
    forall t :: 0 <= t < |u| ==>
      u[t] < |G| && Roomy(P.c, P.g, G[u[t]].base, G[u[t]].prefix, G[u[t]].width, P.l)
  }

  /** The tables hold every earlier code. */
  ghost predicate Good(P: Plan, T: Tables, G: seq<Info>, u: seq<nat>, x: seq<nat>, k: nat, r: nat)
    requires ValidPlan(P)
  {
    && Narrow(P.c, P.g, P.l) && Shape(T, G, P.l) && Linked(T, G, u, x, P.l) && Placed(P, T, k, r)
  }

  ghost predicate NoneBefore(c: seq<nat>, k: nat)
    requires k <= |c|
  {
    forall j :: 1 <= j < k ==> c[j] == 0
  }

  lemma {:induction false} NextMatches(P: Plan, k: nat, r: nat)
    requires ValidPlan(P) && IsCode(P.c, P.g, k, r)
    ensures NextCode(P.c, k) + r < Pow2(k)
  {
    FitsBelow(P.c, P.g, k);
  }

  /** The root table covers `l` bits. */
  lemma {:induction false} RootWidth(P: Plan, width: nat)
    requires ValidPlan(P) && Roomy(P.c, P.g, 0, 0, width, P.l)
    ensures width >= P.l
  {
  }

  lemma {:induction false} StartPlaced(P: Plan, T: Tables, kmin: nat)
    requires ValidPlan(P) && kmin <= P.g && NoneBefore(P.c, kmin)
    ensures Placed(P, T, kmin, 0)
  {
    hide PlacedAt;
  }

  lemma {:induction false} StillNarrow(P: Plan, T: Tables, G: seq<Info>, u: seq<nat>, x: seq<nat>, k: nat, r: nat)
    requires ValidPlan(P) && Good(P, T, G, u, x, k, r)
    ensures Narrow(P.c, P.g, P.l)
  {
    hide Narrow;
  }

  lemma {:induction false} RootGood(P: Plan, width: nat, i: nat, k: nat)
    requires ValidPlan(P) && P.l <= width <= BMAX + 1 && k <= P.g && NoneBefore(P.c, k) && Narrow(P.c, P.g, P.l)
    ensures Good(P, [seq(Pow2(width), _ => Unset)], [Info(0, 0, width)], [0], [i], k, 0)
  {
    hide Placed, Pow2, NarrowAt, Full;
    StartPlaced(P, [seq(Pow2(width), _ => Unset)], k);
  }

  method OpenRoot(P: Plan, ghost ok: bool, ghost T0: Tables, ghost G0: seq<Info>, ghost u0: seq<nat>,
                  ghost x0: seq<nat>, w0: int, i: nat, k: nat, ghost r: nat, a1: nat)
      returns (T: Tables, ghost G: seq<Info>, u: seq<nat>, x: seq<nat>, w: int)
    requires Open(P, T0, G0, u0, x0, w0, i, k, r) && a1 + r == P.c[k] && a1 > 0
    requires Made(P, T0, G0) && (ok ==> Good(P, T0, G0, u0, x0, k, r))
    requires |u0| == 0
    ensures Open(P, T, G, u, x, w, i, k, r) && |u| > 0 && w == w0 + P.l
    ensures Made(P, T, G) && (ok ==> Good(P, T, G, u, x, k, r))
  {
    hide Full, NextCode, Rev, Made, Matches, Good, Narrow;
    NextMatches(P, k, r);
    w := w0 + P.l;
    var j := ChooseWidth(P.c, P.g, P.l, k, 0, a1, i);
    RootWidth(P, j);
    T, G := [seq(Pow2(j), _ => Unset)], [Info(0, 0, j)];
    u, x := [0], [i];
    RootMade(P, j);
    if ok {
      assert Narrow(P.c, P.g, P.l) by { StillNarrow(P, T0, G0, u0, x0, k, r); }
      RootGood(P, j, i, k);
    }
  }

  /** A new table below the top one, linked from the entry the code `i` leads to. */
  method OpenChild(P: Plan, ghost ok: bool, T0: Tables, ghost G0: seq<Info>, u0: seq<nat>, x0: seq<nat>, w0: int,
                   i: nat, k: nat, ghost r: nat, a1: nat)
      returns (T: Tables, ghost G: seq<Info>, u: seq<nat>, x: seq<nat>, w: int)
    requires Open(P, T0, G0, u0, x0, w0, i, k, r) && a1 + r == P.c[k] && a1 > 0
    requires Made(P, T0, G0) && (ok ==> Good(P, T0, G0, u0, x0, k, r))
    requires |u0| > 0 && k > w0 + P.l
    ensures Open(P, T, G, u, x, w, i, k, r) && |u| > 0 && w == w0 + P.l
    ensures Made(P, T, G) && (ok ==> Good(P, T, G, u, x, k, r))
  {
    hide Made, Good, Rev, NextCode, Low, Pow2, Linked;
    var p := u0[|u0| - 1];
    NextMatches(P, k, r);
    w := w0 + P.l;
    var j := ChooseWidth(P.c, P.g, P.l, k, w, a1, i);
    var idx := Drop(i, w - P.l);
    ParentEntry(P, T0, G0, p, i, k, r);
    var row := T0[p][idx := Next(16 + j, P.l, |T0|)];
    T := T0[p := row] + [seq(Pow2(j), _ => Unset)];
    assert Opened(T0, T, p, idx, P.l, j);
    G := G0 + [Info(w, i, j)];
    u, x := u0 + [|T0|], x0 + [i];
    ChildOpen(P, T0, T, G0, u0, x0, w0, i, k, r, j);
    ChildMade(P, T0, T, G0, u0, x0, i, k, r, a1, j);
    if ok {
      BaseAligned(P, T0, G0, p);
      NextLevel(w0, P.l);
      ChildGood(P, T0, T, G0, u0, x0, i, k, r, j);
    }
  }

  lemma {:induction false} ChildOpen(P: Plan, T0: Tables, T: Tables, G0: seq<Info>, u0: seq<nat>, x0: seq<nat>, w0: nat,
                                     i: nat, k: nat, r: nat, j: nat)
    requires Open(P, T0, G0, u0, x0, w0, i, k, r) && |u0| > 0 && k > w0 + P.l && r < P.c[k]
    requires u0[|u0| - 1] < |T0| && Drop(i, w0) < |T0[u0[|u0| - 1]]|
    requires Opened(T0, T, u0[|u0| - 1], Drop(i, w0), P.l, j)
    requires j <= BMAX + 1 && Roomy(P.c, P.g, w0 + P.l, i, j, P.l)
    ensures var G := G0 + [Info(w0 + P.l, i, j)];
            Open(P, T, G, u0 + [|T0|], x0 + [i], w0 + P.l, i, k, r)
  {
    hide Stack, AllRoomy, Roomy, NextCode, Rev, Shl, Opened, Sizes, Full, Matches;
    var w := w0 + P.l;
    NewOnStack(G0, u0, x0, P.l, i, j);
    NewRoomy(P, G0, u0, Info(w, i, j));
    NewSizes(T0, T, G0, u0[|u0| - 1], Drop(i, w0), P.l, Info(w, i, j));
    Pow2Mono(w, w + P.l);
  }

  lemma {:induction false} NewRoomy(P: Plan, G: seq<Info>, u: seq<nat>, f: Info)
    requires ValidPlan(P) && AllRoomy(P, G, u) && Roomy(P.c, P.g, f.base, f.prefix, f.width, P.l)
    ensures AllRoomy(P, G + [f], u + [|G|])
  {
    hide Roomy, Full;
  }

  lemma {:induction false} NewSizes(T: Tables, T': Tables, G: seq<Info>, p: nat, j: nat, l: nat, f: Info)
    requires Sizes(T, G) && f.width <= BMAX + 1 && p < |T| && j < |T[p]| && Opened(T, T', p, j, l, f.width)
    ensures Sizes(T', G + [f]) && |T| == |G|
  {
  }

  lemma {:induction false} NewOnStack(G: seq<Info>, u: seq<nat>, x: seq<nat>, l: nat, i: nat, width: nat)
    requires |u| > 0 && Stack(G, u, x, l, i) && i < Pow2(Top(G, u).base + l)
    ensures Stack(G + [Info(Top(G, u).base + l, i, width)], u + [|G|], x + [i], l, i)
  {
    hide Low, Drop, Pow2;
    SmallLow(i, Top(G, u).base + l);
  }

  lemma {:induction false} ParentEntry(P: Plan, T: Tables, G: seq<Info>, p: nat, i: nat, k: nat, r: nat)
    requires ValidPlan(P) && Sizes(T, G) && p < |T| && 1 <= k <= P.g
    requires Roomy(P.c, P.g, G[p].base, Low(i, G[p].base), G[p].width, P.l)
    requires G[p].base + P.l < k && i < Pow2(G[p].base + P.l) && Matches(P.c, k, r, i)
    ensures G[p].width >= P.l && Drop(i, G[p].base) < |T[p]|
  {
    hide Low, Drop, Pow2, Roomy, Matches, Full;
    WideEnough(P.c, P.g, G[p].base, i, G[p].width, P.l, k, r);
    LinkIndex(i, G[p].base, P.l);
    Pow2Mono(P.l, G[p].width);
  }

  lemma {:induction false} ChildGood(P: Plan, T0: Tables, T: Tables, G0: seq<Info>, u0: seq<nat>, x0: seq<nat>,
                                     i: nat, k: nat, r: nat, j: nat)
    requires ValidPlan(P) && IsCode(P.c, P.g, k, r) && Matches(P.c, k, r, i)
    requires Good(P, T0, G0, u0, x0, k, r) && Stack(G0, u0, x0, P.l, i)
    requires |u0| > 0 && Top(G0, u0).width >= P.l && Drop(i, Top(G0, u0).base) < |T0[u0[|u0| - 1]]|
    requires Opened(T0, T, u0[|u0| - 1], Drop(i, Top(G0, u0).base), P.l, j)
    requires var b := Top(G0, u0).base + P.l;
             b < k && i < Pow2(b) && 0 < j && (j <= Min(P.g - b, P.l) || j <= k - b + 1) && (k == P.g ==> j == k - b)
             && b % P.l == 0
    ensures var G := G0 + [Info(Top(G0, u0).base + P.l, i, j)];
            Good(P, T, G, u0 + [|T0|], x0 + [i], k, r)
  {
    var p := u0[|u0| - 1];
    SubtableWidth(P.c, P.g, P.l, G0[p].base + P.l, i, k, r, j);
    OpenShape(T0, T, G0, P.l, p, i, j);
    OpenPlaced(P, T0, T, G0, p, i, j, k, r);
    OpenStack(T0, T, G0, u0, x0, P.l, i, j);
  }

  lemma {:induction false} ChildMade(P: Plan, T0: Tables, T: Tables, G0: seq<Info>, u0: seq<nat>, x0: seq<nat>,
                                     i: nat, k: nat, r: nat, a1: nat, j: nat)
    requires ValidPlan(P) && IsCode(P.c, P.g, k, r) && Matches(P.c, k, r, i) && a1 + r == P.c[k]
    requires |T0| == |G0| && Made(P, T0, G0) && Stack(G0, u0, x0, P.l, i)
    requires |u0| > 0 && Top(G0, u0).width >= P.l && Drop(i, Top(G0, u0).base) < |T0[u0[|u0| - 1]]|
    requires Opened(T0, T, u0[|u0| - 1], Drop(i, Top(G0, u0).base), P.l, j)
    requires var b := Top(G0, u0).base + P.l;
             && b < k && i < Pow2(b) && k - b <= j && (j <= Min(P.g - b, P.l) || j <= k - b + 1)
             && (k == P.g ==> j == k - b) && (Pow2(k - b) > a1 ==> j > k - b)
    ensures Made(P, T, G0 + [Info(Top(G0, u0).base + P.l, i, j)])
  {
    hide Values, Widths, Links, NarrowAt, Opened, Matches, Pow2;
    var p := u0[|u0| - 1];
    var b := G0[p].base + P.l;
    BaseAligned(P, T0, G0, p);
    NextLevel(G0[p].base, P.l);
    if b + P.l < P.g && i + 1 == Pow2(b) && !NarrowAt(P.c, P.l, b + P.l) {
      LastWidth(P, b, i, k, r, a1, j);
    }
    OpenMade(P, T0, T, G0, p, i, j);
  }

  /** One table more: the root, or one below the top. */
  method OpenOne(P: Plan, ghost ok: bool, T0: Tables, ghost G0: seq<Info>, u0: seq<nat>, x0: seq<nat>, w0: int,
                 i: nat, k: nat, ghost r: nat, a1: nat)
      returns (T: Tables, ghost G: seq<Info>, u: seq<nat>, x: seq<nat>, w: int)
    requires Open(P, T0, G0, u0, x0, w0, i, k, r) && a1 + r == P.c[k] && a1 > 0
    requires Made(P, T0, G0) && (ok ==> Good(P, T0, G0, u0, x0, k, r))
    requires k > w0 + P.l
    ensures Open(P, T, G, u, x, w, i, k, r) && |u| > 0 && w == w0 + P.l
    ensures Made(P, T, G) && (ok ==> Good(P, T, G, u, x, k, r))
  {
    if |u0| == 0 {
      T, G, u, x, w := OpenRoot(P, ok, T0, G0, u0, x0, w0, i, k, r, a1);
    } else {
      T, G, u, x, w := OpenChild(P, ok, T0, G0, u0, x0, w0, i, k, r, a1);
    }
  }

  /** Make tables up to the level the next code needs. */
  method OpenTables(P: Plan, ghost ok: bool, T0: Tables, ghost G0: seq<Info>, u0: seq<nat>, x0: seq<nat>, w0: int,
                    i: nat, k: nat, ghost r: nat, a1: nat)
      returns (T: Tables, ghost G: seq<Info>, u: seq<nat>, x: seq<nat>, w: int)
    requires Open(P, T0, G0, u0, x0, w0, i, k, r) && a1 + r == P.c[k] && a1 > 0
    requires Made(P, T0, G0) && (ok ==> Good(P, T0, G0, u0, x0, k, r))
    ensures Open(P, T, G, u, x, w, i, k, r) && |u| > 0 && k <= w + P.l
    ensures Made(P, T, G) && (ok ==> Good(P, T, G, u, x, k, r))
  {
    hide Made, Good, Stack, AllRoomy, Sizes;
    T, G, u, x, w := T0, G0, u0, x0, w0;
    while k > w + P.l
      invariant Open(P, T, G, u, x, w, i, k, r)
      invariant Made(P, T, G) && (ok ==> Good(P, T, G, u, x, k, r))
      decreases k - w
    {
      T, G, u, x, w := OpenOne(P, ok, T, G, u, x, w, i, k, r, a1);
    }
  }

  // ---- filling -----------------------------------------------------------------------------

  lemma {:induction false} LowGap(a: nat, b: nat, m: nat)
    requires a < b && Low(a, m) == Low(b, m)
    ensures a + Pow2(m) <= b
  {
    Split(a, m);
    Split(b, m);
    ShlOrder(Drop(b, m), Drop(a, m), m);
    ShlAdd(Drop(a, m), 1, m);
    ShlOrder(Drop(a, m) + 1, Drop(b, m), m);
  }

  lemma {:induction false} LowNext(a: nat, m: nat)
    ensures Low(a + Pow2(m), m) == Low(a, m)
  {
    Split(a, m);
    ShlAdd(Drop(a, m), 1, m);
    Join(Low(a, m), Drop(a, m) + 1, m);
  }

  /** Fill code-like entries: every `1 << m`-th one from `first`. */
  method FillRow(row0: seq<Huft>, first: nat, m: nat, h: Huft) returns (row: seq<Huft>)
    requires first < Pow2(m)
    ensures |row| == |row0|
    ensures forall j :: 0 <= j < |row| ==> row[j] == if Low(j, m) == first then h else row0[j]
  {
    row := row0;
    var j := first;
    SmallLow(first, m);
    forall q | 0 <= q < first
      ensures Low(q, m) != first
    {
      SmallLow(q, m);
    }
    while j < |row|
      invariant |row| == |row0| && first <= j && Low(j, m) == first
      invariant forall q :: 0 <= q < |row| ==>
        row[q] == if q < j && Low(q, m) == first then h else row0[q]
      decreases |row| - j
    {
      row := row[j := h];
      forall q | j < q < |row| && Low(q, m) == first
        ensures j + Pow2(m) <= q
      {
        LowGap(j, q, m);
      }
      LowNext(j, m);
      j := j + Pow2(m);
    }
  }

  lemma {:induction false} EntrySame(P: Plan, p: nat, q: nat, b: nat)
    requires ValidPlan(P) && (p == q || (p >= P.n && q >= P.n))
    ensures EntryFor(P, p, b) == EntryFor(P, q, b)
  {
  }

  lemma {:induction false} FillOpen(P: Plan, T: Tables, T': Tables, G: seq<Info>, u: seq<nat>, x: seq<nat>, w: int,
                                    i: nat, k: nat, r: nat, first: nat, m: nat, h: Huft)
    requires Open(P, T, G, u, x, w, i, k, r) && |u| > 0 && Filled(T, T', u[|u| - 1], first, m, h)
    ensures Open(P, T', G, u, x, w, i, k, r)
  {
    hide Stack, AllRoomy;
  }

  lemma {:induction false} TopIsWide(P: Plan, T: Tables, G: seq<Info>, u: seq<nat>, x: seq<nat>, w: int, i: nat, k: nat,
                                     r: nat)
    requires Open(P, T, G, u, x, w, i, k, r) && |u| > 0 && k <= w + P.l && r < P.c[k]
    ensures Matches(P.c, k, r, i)
    ensures w >= 0 && k <= w + Top(G, u).width
  {
    NextMatches(P, k, r);
    WideEnough(P.c, P.g, w, i, Top(G, u).width, P.l, k, r);
  }

  lemma {:induction false} FillGood(P: Plan, T: Tables, T': Tables, G: seq<Info>, u: seq<nat>, x: seq<nat>, w: nat,
                                    i: nat, k: nat, r: nat, p: nat)
    requires Open(P, T, G, u, x, w, i, k, r) && |u| > 0 && k <= w + P.l && r < P.c[k]
    requires Good(P, T, G, u, x, k, r) && (p == Off(P.c, k) + r || (p >= P.n && Off(P.c, k) + r >= P.n))
    requires Filled(T, T', u[|u| - 1], Drop(i, w), k - w, EntryFor(P, p, k - w))
    ensures Good(P, T', G, u, x, k, r + 1)
  {
    TopIsWide(P, T, G, u, x, w, i, k, r);
    EntrySame(P, p, Off(P.c, k) + r, k - w);
    var h := EntryFor(P, p, k - w);
    FillShape(T, T', G, P.l, u[|u| - 1], Drop(i, w), k - w, h);
    FillLinked(T, T', G, u, x, P.l, i, Drop(i, w), k - w, h);
    assert Ready(P, T, G, u, x, i, k, r);
    hide Shape, Linked;
    FillPlaced(P, T, T', G, u, x, i, k, r);
  }

  lemma {:induction false} TopMade(P: Plan, T: Tables, T': Tables, G: seq<Info>, u: seq<nat>, x: seq<nat>, w: nat,
                                   i: nat, k: nat, r: nat, h: Huft)
    requires Open(P, T, G, u, x, w, i, k, r) && |u| > 0 && k <= w + P.l && r < P.c[k] && Made(P, T, G)
    requires Filled(T, T', u[|u| - 1], Drop(i, w), k - w, h) && !h.Next? && (h.Value? ==> h.b == k - w)
    ensures Made(P, T', G)
  {
    hide Made, AllRoomy;
    TopIsWide(P, T, G, u, x, w, i, k, r);
    FillMade(P, T, T', G, u[|u| - 1], i, k, r, h);
  }

  /** The entry for the value `p` points at, and the pointer past it. */
  method MakeEntry(P: Plan, p: nat, b: nat) returns (h: Huft, p': nat)
    requires ValidPlan(P)
    ensures h == EntryFor(P, p, b) && p' == if p >= P.n then p else p + 1
  {
    p' := p;
    if p >= P.n {
      h := Value(99, b, 0);  // out of values--invalid code; v.n is stale
    } else if P.v[p].Garbage? {
      h, p' := Unset, p + 1;  // v[] was never written here
    } else if P.v[p].m < P.s {
      h, p' := Value(if P.v[p].m < 256 then 16 else 15, b, P.v[p].m), p + 1;
    } else {
      h, p' := Value(P.e[P.v[p].m - P.s], b, P.d[P.v[p].m - P.s]), p + 1;
    }
  }

  /** One turn of the table loop but for stepping the code: tables, entry, fill. */
  method PlaceCode(P: Plan, ghost ok: bool, T0: Tables, ghost G0: seq<Info>, u0: seq<nat>, x0: seq<nat>, w0: int,
                   i: nat, k: nat, ghost r: nat, a1: nat, p0: nat)
      returns (T: Tables, ghost G: seq<Info>, u: seq<nat>, x: seq<nat>, w: int, p: nat)
    requires Open(P, T0, G0, u0, x0, w0, i, k, r) && a1 + r == P.c[k] && a1 > 0
    requires Made(P, T0, G0) && (ok ==> Good(P, T0, G0, u0, x0, k, r))
    requires p0 == Off(P.c, k) + r || (p0 >= P.n && Off(P.c, k) + r >= P.n)
    ensures Open(P, T, G, u, x, w, i, k, r) && |u| > 0 && k <= w + P.l
    ensures Made(P, T, G) && (ok ==> Good(P, T, G, u, x, k, r + 1))
    ensures p == if p0 >= P.n then p0 else p0 + 1
  {
    hide Made, Stack, AllRoomy, Good, NextCode, Rev, Full, Roomy;
    var T1;
    T1, G, u, x, w := OpenTables(P, ok, T0, G0, u0, x0, w0, i, k, r, a1);
    var top := TopIndex(P, T1, G, u, x, w, i, k, r);
    TopIsWide(P, T1, G, u, x, w, i, k, r);
    var h;
    h, p := MakeEntry(P, p0, k - w);
    LinkIndex(i, w, k - w);
    var row := FillRow(T1[top], Drop(i, w), k - w, h);
    T := T1[top := row];
    FillOpen(P, T1, T, G, u, x, w, i, k, r, Drop(i, w), k - w, h);
    TopMade(P, T1, T, G, u, x, w, i, k, r, h);
    if ok {
      FillGood(P, T1, T, G, u, x, w, i, k, r, p0);
    }
  }

  method TopIndex(P: Plan, T: Tables, ghost G: seq<Info>, u: seq<nat>, ghost x: seq<nat>, ghost w: int,
                  ghost i: nat, ghost k: nat, ghost r: nat) returns (top: nat)
    requires Open(P, T, G, u, x, w, i, k, r) && |u| > 0
    ensures top == u[|u| - 1] < |T| == |G|
  {
    top := u[|u| - 1];
  }

  // ---- backing up --------------------------------------------------------------------------

  lemma {:induction false} LowOfLow(i: nat, j: nat, a: nat, b: nat)
    requires a <= b && Low(i, b) == Low(j, b)
    ensures Low(i, a) == Low(j, a)
  {
    hide Low, Drop, Shl, Pow2;
    SplitTwice(i, a, b - a);
    SplitTwice(j, a, b - a);
  }

  /** A stack whose top prefix the new code shares is a stack for the new code. */
  lemma {:induction false} StackMoves(G: seq<Info>, u: seq<nat>, x: seq<nat>, l: nat, i0: nat, i: nat)
    requires |u| > 0 && Stack(G, u, x, l, i0) && Low(i, Top(G, u).base) == x[|u| - 1]
    ensures Stack(G, u, x, l, i)
  {
    forall t | 0 <= t < |u|
      ensures x[t] == Low(i, G[u[t]].base)
    {
      if t < |u| - 1 {
        StackOrder(G, u, x, l, i0, t, |u| - 1);
      }
      LowOfLow(i, i0, G[u[t]].base, Top(G, u).base);
    }
  }

  lemma {:induction false} StackPops(T: Tables, G: seq<Info>, u: seq<nat>, x: seq<nat>, l: nat, i: nat)
    requires |u| > 1 && |T| == |G| && Stack(G, u, x, l, i)
    ensures Stack(G, u[..|u| - 1], x[..|u| - 1], l, i)
    ensures G[u[|u| - 2]].base + l == Top(G, u).base
    ensures Linked(T, G, u, x, l) ==> Linked(T, G, u[..|u| - 1], x[..|u| - 1], l)
  {
    if Linked(T, G, u, x, l) {
      var u', x' := u[..|u| - 1], x[..|u| - 1];
      forall t | 0 <= t < |u'| - 1
        ensures LinkedAt(T, G, u', x', l, t)
      {
        assert LinkedAt(T, G, u, x, l, t);
      }
    }
  }

  /** The next code is not under table `t` of the stack. */
  ghost predicate Leaves(G: seq<Info>, u: seq<nat>, x: seq<nat>, i: nat, t: nat) {
    t < |u| == |x| && u[t] < |G| && Low(i, G[u[t]].base) != x[t]
  }

  /** The top table of a stack that the next code is not under. */
  lemma {:induction false} TopLeft(P: Plan, T: Tables, G: seq<Info>, u: seq<nat>, x: seq<nat>, i0: nat, i: nat)
    requires ValidPlan(P) && |u| > 0 && |T| == |G| && Stack(G, u, x, P.l, i0) && AllRoomy(P, G, u)
    requires |u| == |x| ==> Low(i, Top(G, u).base) != x[|u| - 1]
    ensures 1 < |u| == |x| && Leaves(G, u, x, i, |u| - 1) && Low(i, Top(G, u).base) != Low(i0, Top(G, u).base)
    ensures var u', x' := u[..|u| - 1], x[..|u| - 1];
      && u'[|u'| - 1] < |G|
      && Stack(G, u', x', P.l, i0) && AllRoomy(P, G, u') && Top(G, u').base + P.l == Top(G, u).base
      && (Linked(T, G, u, x, P.l) ==> Linked(T, G, u', x', P.l))
  {
    StackPops(T, G, u, x, P.l, i0);
  }

  /** Take off the stack the tables whose prefix the next code does not share. */
  method PopTables(P: Plan, ghost T: Tables, ghost G: seq<Info>, u0: seq<nat>, x0: seq<nat>, w0: nat,
                   ghost i0: nat, i: nat)
      returns (u: seq<nat>, x: seq<nat>, w: nat)
    requires ValidPlan(P) && |u0| > 0 && |T| == |G| && Stack(G, u0, x0, P.l, i0) && AllRoomy(P, G, u0)
    requires w0 == Top(G, u0).base
    ensures |u| > 0 && Stack(G, u, x, P.l, i0) && AllRoomy(P, G, u) && w == Top(G, u).base <= w0
    ensures |u| < |u0| ==> w + P.l <= w0
    ensures Low(i, w) == x[|u| - 1] && (w == w0 || Low(i, w + P.l) != Low(i0, w + P.l))
    ensures |u| <= |u0| && u == u0[..|u|] && forall t :: |u| <= t < |u0| ==> Leaves(G, u0, x0, i, t)
    ensures Linked(T, G, u0, x0, P.l) ==> Linked(T, G, u, x, P.l)
  {
    hide Linked, AllRoomy, Leaves, Low;
    u, x, w := u0, x0, w0;
    while Low(i, w) != x[|u| - 1]
      invariant |u| > 0 && Stack(G, u, x, P.l, i0) && AllRoomy(P, G, u) && w == Top(G, u).base <= w0
      invariant |u| <= |u0| == |x0| && u == u0[..|u|] && x == x0[..|u|]
      invariant forall t :: |u| <= t < |u0| ==> Leaves(G, u0, x0, i, t)
      invariant |u| < |u0| ==> w + P.l <= w0
      invariant w == w0 || Low(i, w + P.l) != Low(i0, w + P.l)
      invariant Linked(T, G, u0, x0, P.l) ==> Linked(T, G, u, x, P.l)
      decreases |u|
    {
      TopLeft(P, T, G, u, x, i0, i);
      LeavesToo(G, u0, x0, i, |u|);
      u, x := u[..|u| - 1], x[..|u| - 1];
      w := w - P.l;
    }
  }

  /** Back up over finished tables: those whose prefix the next code does not share. If there are any a
      table is opened next, so that the entries filled next are never those of a table backed up to. */
  method BackUp(P: Plan, ghost T: Tables, ghost G: seq<Info>, u0: seq<nat>, x0: seq<nat>, w0: nat,
                ghost i0: nat, i: nat, k: nat)
      returns (u: seq<nat>, x: seq<nat>, w: nat)
    requires ValidPlan(P) && |u0| > 0 && |T| == |G| && Stack(G, u0, x0, P.l, i0) && AllRoomy(P, G, u0)
    requires w0 == Top(G, u0).base < k <= w0 + P.l
    requires i < Pow2(k) && Rev(k, i) == if Rev(k, i0) + 1 < Pow2(k) then Rev(k, i0) + 1 else 0
    ensures |u| > 0 && Stack(G, u, x, P.l, i) && AllRoomy(P, G, u) && w == Top(G, u).base < k
    ensures |u| <= |u0| && u == u0[..|u|] && forall t :: |u| <= t < |u0| ==> Leaves(G, u0, x0, i, t)
    ensures |u| < |u0| ==> k > w + P.l
    ensures k <= w + P.l || i < Pow2(w + P.l)
    ensures Linked(T, G, u0, x0, P.l) ==> Linked(T, G, u, x, P.l)
  {
    hide Linked, AllRoomy, Leaves, Rev, Low, Pow2;
    u, x, w := PopTables(P, T, G, u0, x0, w0, i0, i);
    StackMoves(G, u, x, P.l, i0, i);
    if k > w + P.l {
      Crossed(k, w + P.l, i0, i);
    }
  }

  lemma {:induction false} LeavesToo(G: seq<Info>, u: seq<nat>, x: seq<nat>, i: nat, n: nat)
    requires 0 < n <= |u| == |x|
    ensures Leaves(G, u[..n], x[..n], i, n - 1) <==> Leaves(G, u, x, i, n - 1)
  {
  }

  /** The next code is in other tables above a point only when it is all zeros below it. */
  lemma {:induction false} Crossed(k: nat, b: nat, i0: nat, i: nat)
    requires b < k && i < Pow2(k) && Low(i, b) != Low(i0, b)
    requires Rev(k, i) == if Rev(k, i0) + 1 < Pow2(k) then Rev(k, i0) + 1 else 0
    ensures i < Pow2(b)
  {
    if Rev(k, i0) + 1 < Pow2(k) {
      Crossing(k, b, i0, i, Rev(k, i0));
    } else {
      RevZero(k, i);
    }
  }

  lemma {:induction false} RevZero(k: nat, i: nat)
    requires i < Pow2(k) && Rev(k, i) == 0
    ensures i == 0
  {
    RevExtend(0, k, 0);
    ZeroShl(k);
    RevInjective(k, i, 0);
    SmallLow(i, k);
    SmallLow(0, k);
  }

  // ---- the table loop ----------------------------------------------------------------------

  /** One turn of the table loop. */
  method NextCodeStep(P: Plan, ghost ok: bool, T0: Tables, ghost G0: seq<Info>, u0: seq<nat>, x0: seq<nat>, w0: int,
                      i0: nat, k: nat, ghost r: nat, a1: nat, p0: nat)
      returns (T: Tables, ghost G: seq<Info>, u: seq<nat>, x: seq<nat>, w: int, i: nat, p: nat)
    requires Open(P, T0, G0, u0, x0, w0, i0, k, r) && a1 + r == P.c[k] && a1 > 0
    requires Made(P, T0, G0) && (ok ==> Good(P, T0, G0, u0, x0, k, r))
    requires p0 == Off(P.c, k) + r || (p0 >= P.n && Off(P.c, k) + r >= P.n)
    ensures Open(P, T, G, u, x, w, i, k, r + 1) && |u| > 0
    ensures Made(P, T, G) && (ok ==> Good(P, T, G, u, x, k, r + 1))
    ensures p == if p0 >= P.n then p0 else p0 + 1
  {
    hide Made, Stack, AllRoomy, Linked, Placed, Shape;
    T, G, u, x, w, p := PlaceCode(P, ok, T0, G0, u0, x0, w0, i0, k, r, a1, p0);
    NextMatches(P, k, r);
    i := Increment(k, i0);
    u, x, w := BackUp(P, T, G, u, x, w, i0, i, k);
  }

  lemma {:induction false} NextLength(P: Plan, T: Tables, G: seq<Info>, u: seq<nat>, x: seq<nat>, w: int, i: nat,
                                      k: nat)
    requires ValidPlan(P) && k < P.g && Open(P, T, G, u, x, w, i, k, P.c[k]) && |u| > 0
    ensures Open(P, T, G, u, x, w, i, k + 1, 0)
    ensures Good(P, T, G, u, x, k, P.c[k]) ==> Good(P, T, G, u, x, k + 1, 0)
  {
    hide Stack, AllRoomy, Sizes;
    LaterLeft(P, k);
    RevOneZero(k, i);
    Pow2Mono(k, k + 1);
    if Good(P, T, G, u, x, k, P.c[k]) {
      NextPlaced(P, T, k);
    }
  }

  lemma {:induction false} RevOneZero(k: nat, i: nat)
    requires i < Pow2(k)
    ensures Rev(k + 1, i) == 2 * Rev(k, i)
  {
    RevOne(k, i);
  }

  lemma {:induction false} NextPlaced(P: Plan, T: Tables, k: nat)
    requires ValidPlan(P) && k < P.g && Placed(P, T, k, P.c[k])
    ensures Placed(P, T, k + 1, 0)
  {
  }

  /** All codes of length `k`. */
  method LengthLoop(P: Plan, ghost ok: bool, T0: Tables, ghost G0: seq<Info>, u0: seq<nat>, x0: seq<nat>, w0: int,
                    i0: nat, k: nat, p0: nat)
      returns (T: Tables, ghost G: seq<Info>, u: seq<nat>, x: seq<nat>, w: int, i: nat, p: nat)
    requires Open(P, T0, G0, u0, x0, w0, i0, k, 0)
    requires Made(P, T0, G0) && (ok ==> Good(P, T0, G0, u0, x0, k, 0))
    requires p0 == Off(P.c, k) || (p0 >= P.n && Off(P.c, k) >= P.n)
    ensures Open(P, T, G, u, x, w, i, k, P.c[k]) && (|u0| > 0 || P.c[k] > 0 ==> |u| > 0)
    ensures Made(P, T, G) && (ok ==> Good(P, T, G, u, x, k, P.c[k]))
    ensures p == Off(P.c, k) + P.c[k] || (p >= P.n && Off(P.c, k) + P.c[k] >= P.n)
  {
    hide Made, Good, Stack, AllRoomy, Sizes;
    T, G, u, x, w, i, p := T0, G0, u0, x0, w0, i0, p0;
    var a := P.c[k];
    while a > 0
      invariant 0 <= a <= P.c[k]
      invariant Open(P, T, G, u, x, w, i, k, P.c[k] - a) && (|u0| > 0 || a < P.c[k] ==> |u| > 0)
      invariant Made(P, T, G) && (ok ==> Good(P, T, G, u, x, k, P.c[k] - a))
      invariant p == Off(P.c, k) + P.c[k] - a || (p >= P.n && Off(P.c, k) + P.c[k] - a >= P.n)
    {
      T, G, u, x, w, i, p := NextCodeStep(P, ok, T, G, u, x, w, i, k, P.c[k] - a, a, p);
      a := a - 1;
    }
  }

  /** The first code of the shortest length is 0. */
  lemma {:induction false} StartMatches(P: Plan, kmin: nat)
    requires ValidPlan(P) && 1 <= kmin <= P.g && NoneBefore(P.c, kmin)
    ensures Matches(P.c, kmin, 0, 0)
    ensures 0 < Pow2(kmin) && 0 < Pow2(0)
  {
    hide Shl, Low, NextCode;
    NoCodes(P.c, kmin);
    RevExtend(0, kmin, 0);
    ZeroShl(kmin);
    NoBits(0);
    Pow2Mono(0, kmin);
  }

  lemma {:induction false} StartOpen(P: Plan, kmin: nat)
    requires ValidPlan(P) && 1 <= kmin <= P.l && kmin <= P.g && NoneBefore(P.c, kmin)
    ensures Open(P, [], [], [], [], -(P.l as int), 0, kmin, 0)
    ensures Made(P, [], []) && (Narrow(P.c, P.g, P.l) ==> Good(P, [], [], [], [], kmin, 0))
    ensures Off(P.c, kmin) == 0
  {
    hide Pow2, NextCode, Off, Placed, Matches, NoneBefore;
    StartMatches(P, kmin);
    StartPlaced(P, [], kmin);
    NoOffset(P.c, kmin);
  }

  lemma {:induction false} NoOffset(c: seq<nat>, k: nat)
    requires k <= |c| && NoneBefore(c, k)
    ensures Off(c, k) == 0
  {
    if k > 1 {
      NoOffset(c, k - 1);
    }
  }

  /** Generate the Huffman codes and, for each, make the table entries. */
  method BuildTables(P: Plan, kmin: nat) returns (T: Tables)
    requires ValidPlan(P) && 1 <= kmin <= P.l && P.c[kmin] > 0 && NoneBefore(P.c, kmin)
    ensures Narrow(P.c, P.g, P.l) ==> Placed(P, T, P.g, P.c[P.g]) && Steady(T, P.l)
    ensures !Narrow(P.c, P.g, P.l) ==> Look(T, 0, P.l, Pow2(P.g) - 1, 0) == Stray
    ensures P.g <= P.l ==> Flat(T)
  {
    hide Made, Stack, AllRoomy, Sizes, Full, NextCode, Rev, Narrow, Placed, Shape, Linked;
    ghost var ok := Narrow(P.c, P.g, P.l);
    StartOpen(P, kmin);
    var u: seq<nat>, x: seq<nat> := [], [];
    ghost var G: seq<Info> := [];
    T := [];
    var w: int, i: nat, p: nat := -(P.l as int), 0, 0;
    var k := kmin;
    T, G, u, x, w, i, p := LengthLoop(P, ok, T, G, u, x, w, i, k, p);
    while k < P.g
      invariant kmin <= k <= P.g && |u| > 0
      invariant Open(P, T, G, u, x, w, i, k, P.c[k])
      invariant Made(P, T, G) && (ok ==> Good(P, T, G, u, x, k, P.c[k]))
      invariant p == Off(P.c, k) + P.c[k] || (p >= P.n && Off(P.c, k) + P.c[k] >= P.n)
    {
      NextLength(P, T, G, u, x, w, i, k);
      k := k + 1;
      T, G, u, x, w, i, p := LengthLoop(P, ok, T, G, u, x, w, i, k, p);
    }
    if ok {
      ShapeSteady(T, G, P.l);
    } else {
      NotNarrowStray(P, T, G);
    }
    if P.g <= P.l {
      MadeFlat(P, T, G);
    }
  }

  /** One table without links. */
  ghost predicate Flat(T: Tables) {
    |T| == 1 && forall j :: 0 <= j < |T[0]| ==> !T[0][j].Next?
  }

  lemma {:induction false} OneTableIsFlat(T: Tables, G: seq<Info>, l: nat)
    requires Links(T, G, l) && |T| == 1
    ensures Flat(T)
  {
    forall j | 0 <= j < |T[0]|
      ensures !T[0][j].Next?
    {
      assert EntryOk(T, G, l, 0, j);
    }
  }

  lemma {:induction false} MadeFlat(P: Plan, T: Tables, G: seq<Info>)
    requires ValidPlan(P) && Made(P, T, G) && |T| == 1
    ensures Flat(T)
  {
    hide Values, Widths;
    OneTableIsFlat(T, G, P.l);
  }
}
