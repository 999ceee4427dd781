/** The invariant of huft_build's table loop: every code handled so far decodes, through the
    tables as they stand, to its own entry, whatever bits follow it.
 */
module HuftPlan {
  import opened Bits
  import opened Huffman
  import opened HuftTables

  const N_MAX: nat := 288  // most codes in any set

  /** An element of `v[]`: never written, or a symbol. */
  datatype Slot = Garbage | Val(m: nat)

  /** What the table loop reads but does not change: the (filled-out) length counts, the longest
      length, the lookup width, and the values in code order with their meanings. */
  datatype Plan = Plan(c: seq<nat>, g: nat, l: nat, n: nat, v: seq<Slot>, s: nat, d: seq<nat>, e: seq<nat>)

  ghost predicate ValidPlan(P: Plan) {
    && |P.c| == BMAX + 1 && 1 <= P.l <= P.g <= BMAX && Full(P.c, P.g) && P.c[P.g] > 0
    && P.n <= |P.v| == N_MAX
    && P.n <= P.s + |P.d| && |P.d| == |P.e|
    && forall q :: 0 <= q < |P.v| && P.v[q].Val? ==> P.v[q].m < P.n
  }

  /** Position of the first code of length `k` in code order. */
  function Off(c: seq<nat>, k: nat): nat
    requires k <= |c|
  {
    if k <= 1 then 0 else Off(c, k - 1) + c[k - 1]
  }

  /** The entry for the code at position `q` in code order, `b` bits of it in the last table. */
  function EntryFor(P: Plan, q: nat, b: nat): (h: Huft)
    requires ValidPlan(P)
    ensures !h.Next? && (h.Value? ==> h.b == b)
  {
    if q >= P.n then Value(99, b, 0)
    else if P.v[q].Garbage? then Unset
    else SymbolEntry(P.s, P.d, P.e, P.v[q].m, b)
  }

  /** The entry for symbol `m`: below `s` the symbol itself (16, or 15 for end-of-block), from `s`
      on a base value and a number of extra bits. */
  function SymbolEntry(s: nat, d: seq<nat>, e: seq<nat>, m: nat, b: nat): Huft
    requires |d| == |e| && m < s + |d|
  {
    if m < s then Value(if m < 256 then 16 else 15, b, m) else Value(e[m - s], b, d[m - s])
  }

  /** What code number `r` of length `k` is to decode to. */
  function Expect(P: Plan, k: nat, r: nat): Found
    requires ValidPlan(P) && IsCode(P.c, P.g, k, r)
  {
    Leaf(EntryFor(P, Off(P.c, k) + r, 0), k)
  }

  ghost predicate Earlier(j: nat, q: nat, k: nat, r: nat) {
    j < k || (j == k && q < r)
  }

  ghost predicate PlacedAt(P: Plan, T: Tables, j: nat, q: nat, w: nat)
    requires ValidPlan(P) && IsCode(P.c, P.g, j, q)
  {
    Matches(P.c, j, q, w) ==> Look(T, 0, P.l, w, 0) == Expect(P, j, q)
  }

  /** All codes before number `r` of length `k` decode as they should. */
  ghost predicate Placed(P: Plan, T: Tables, k: nat, r: nat)
    requires ValidPlan(P)
  {
    forall j, q, w :: IsCode(P.c, P.g, j, q) && Earlier(j, q, k, r) ==> PlacedAt(P, T, j, q, w)
  }

  // ---- filling entries ---------------------------------------------------------------------

  /** `T'` is `T` with `h` in every entry of table `p` whose low `m` bits are `first`. */
  ghost predicate Filled(T: Tables, T': Tables, p: nat, first: nat, m: nat, h: Huft)
    requires p < |T|
  {
    && |T'| == |T|
    && (forall q :: 0 <= q < |T| && q != p ==> T'[q] == T[q])
    && |T'[p]| == |T[p]|
    && forall j :: 0 <= j < |T[p]| ==> T'[p][j] == if Low(j, m) == first then h else T[p][j]
  }

  /** The top of the stack holds the next code: number `r` of length `k`, bits `i`. */
  ghost predicate Ready(P: Plan, T: Tables, G: seq<Info>, u: seq<nat>, x: seq<nat>, i: nat, k: nat, r: nat) {
    && ValidPlan(P) && IsCode(P.c, P.g, k, r) && i < Pow2(k) && Matches(P.c, k, r, i)
    && Shape(T, G, P.l) && Stack(G, u, x, P.l, i) && Linked(T, G, u, x, P.l)
    && |u| > 0 && Top(G, u).base < k <= Top(G, u).base + Mask(G, P.l, u[|u| - 1])
  }

  ghost function Top(G: seq<Info>, u: seq<nat>): Info
    requires |u| > 0 && u[|u| - 1] < |G|
  {
    G[u[|u| - 1]]
  }

  lemma {:induction false} FillLinks(T: Tables, T': Tables, G: seq<Info>, l: nat, p: nat, first: nat, m: nat, h: Huft)
    requires Links(T, G, l) && p < |T| && Filled(T, T', p, first, m, h) && !h.Next? && (h.Value? ==> h.b >= 1)
    ensures Links(T', G, l)
  {
    forall q, j | 0 <= q < |T'| && 0 <= j < |T'[q]|
      ensures EntryOk(T', G, l, q, j)
    {
      assert EntryOk(T, G, l, q, j);
    }
  }

  lemma {:induction false} FillShape(T: Tables, T': Tables, G: seq<Info>, l: nat, p: nat, first: nat, m: nat, h: Huft)
    requires Shape(T, G, l) && p < |T| && Filled(T, T', p, first, m, h) && !h.Next? && (h.Value? ==> h.b >= 1)
    ensures Shape(T', G, l)
  {
    FillLinks(T, T', G, l, p, first, m, h);
  }

  lemma {:induction false} FillLinked(T: Tables, T': Tables, G: seq<Info>, u: seq<nat>, x: seq<nat>, l: nat, i: nat,
                                      first: nat, m: nat, h: Huft)
    requires Stack(G, u, x, l, i) && |u| > 0 && Linked(T, G, u, x, l)
    requires Filled(T, T', u[|u| - 1], first, m, h)
    ensures Linked(T', G, u, x, l)
  {
    forall t | 0 <= t < |u| - 1
      ensures LinkedAt(T', G, u, x, l, t)
    {
      StackOrder(G, u, x, l, i, t, |u| - 1);
      assert LinkedAt(T, G, u, x, l, t);
    }
  }

  /** Bits whose lookup reads a filled entry begin with the code `i`. */
  lemma {:induction false} PathThroughFill(G: seq<Info>, l: nat, p: nat, j: nat, w: nat, i: nat, k: nat)
    requires p < |G| && OnPath(G, l, p, j, w)
    requires G[p].base < k <= G[p].base + Mask(G, l, p) && G[p].prefix == Low(i, G[p].base)
    requires Low(j, k - G[p].base) == Drop(Low(i, k), G[p].base)
    ensures Low(w, k) == Low(i, k)
  {
    hide Low, Drop, Shl;
    var base := G[p].base;
    SplitTwice(w, base, k - base);
    SplitTwice(i, base, k - base);
    SplitTwice(Drop(w, base), k - base, Mask(G, l, p) - (k - base));
  }

  lemma {:induction false} FillOthers(P: Plan, T: Tables, T': Tables, G: seq<Info>, u: seq<nat>, x: seq<nat>, i: nat,
                                      k: nat, r: nat, h: Huft, w: nat)
    requires Ready(P, T, G, u, x, i, k, r)
    requires Filled(T, T', u[|u| - 1], Drop(i, Top(G, u).base), k - Top(G, u).base, h)
    requires !Matches(P.c, k, r, w)
    ensures Look(T', 0, P.l, w, 0) == Look(T, 0, P.l, w, 0)
  {
    var p := u[|u| - 1];
    SmallLow(i, k);
    forall q, j | 0 <= q < |T| && 0 <= j < |T[q]| && OnPath(G, P.l, q, j, w)
      ensures j < |T'[q]| && T'[q][j] == T[q][j]
    {
      if q == p && Low(j, k - G[p].base) == Drop(i, G[p].base) {
        PathThroughFill(G, P.l, p, j, w, i, k);
        RevCongruent(k, w, i);
      }
    }
    LookSame(T, T', G, P.l, 0, w);
  }

  /** The index looked up by bits that begin with the `k`-bit code `i`. */
  lemma {:induction false} FillIndex(base: nat, k: nat, m: nat, w: nat, i: nat)
    requires base < k <= base + m && i < Pow2(k) && Low(w, k) == Low(i, k)
    ensures Low(w, base) == Low(i, base)
    ensures Low(Low(Drop(w, base), m), k - base) == Drop(i, base)
  {
    hide Low, Drop, Shl;
    SmallLow(i, k);
    SplitTwice(w, base, k - base);
    SplitTwice(i, base, k - base);
    SplitTwice(Drop(w, base), k - base, m - (k - base));
  }

  lemma {:induction false} FillNew(P: Plan, T: Tables, T': Tables, G: seq<Info>, u: seq<nat>, x: seq<nat>, i: nat,
                                   k: nat, r: nat, h: Huft, w: nat)
    requires Ready(P, T, G, u, x, i, k, r)
    requires Filled(T, T', u[|u| - 1], Drop(i, Top(G, u).base), k - Top(G, u).base, h) && !h.Next?
    requires Matches(P.c, k, r, w) && (h.Value? ==> 1 <= h.b <= k - Top(G, u).base)
    ensures Look(T', 0, P.l, w, 0) == Leaf(h, Top(G, u).base + if h.Value? then h.b else 0)
  {
    var p := u[|u| - 1];
    var base, m := G[p].base, Mask(G, P.l, p);
    var y := Drop(w, base);
    FillShape(T, T', G, P.l, p, Drop(i, base), k - base, h);
    FillLinked(T, T', G, u, x, P.l, i, Drop(i, base), k - base, h);
    RevInjective(k, w, i);
    FillIndex(base, k, m, w, i);
    PathToLevel(T', G, u, x, P.l, i, w, |u| - 1);
    assert Low(y, m) < |T'[p]| && T'[p][Low(y, m)] == h by { MaskFits(T', G, P.l, p, y); }
    LookStep(T', p, m, y, base, h);
  }

  /** Writing the entries of the next code puts it in place and disturbs no earlier code. */
  lemma {:induction false} FillPlaced(P: Plan, T: Tables, T': Tables, G: seq<Info>, u: seq<nat>, x: seq<nat>, i: nat,
                                      k: nat, r: nat)
    requires Ready(P, T, G, u, x, i, k, r) && Placed(P, T, k, r)
    requires var b := k - Top(G, u).base;
             Filled(T, T', u[|u| - 1], Drop(i, Top(G, u).base), b, EntryFor(P, Off(P.c, k) + r, b))
    ensures Placed(P, T', k, r + 1)
  {
    var b := k - Top(G, u).base;
    var h := EntryFor(P, Off(P.c, k) + r, b);
    forall j, q, w | IsCode(P.c, P.g, j, q) && Earlier(j, q, k, r + 1)
      ensures PlacedAt(P, T', j, q, w)
    {
      if Matches(P.c, j, q, w) {
        if j == k && q == r {
          FillNew(P, T, T', G, u, x, i, k, r, h, w);
        } else {
          if Matches(P.c, k, r, w) {
            MatchUnique(P.c, P.g, j, q, k, r, w);
          }
          FillOthers(P, T, T', G, u, x, i, k, r, h, w);
          assert PlacedAt(P, T, j, q, w);
        }
      }
    }
  }

  // ---- opening a table ---------------------------------------------------------------------

  /** Among bits that begin with the short code `i`, those that go on with zeros come first. */
  lemma {:induction false} ZerosComeFirst(i: nat, b: nat, j: nat, w: nat)
    requires b <= j && i < Pow2(b) && Low(w, b) == i
    ensures Rev(j, i) <= Rev(j, w)
  {
    SmallLow(i, b);
    RevCongruent(b, w, i);
    RevPrefix(b, j, w);
    Split(Rev(j, w), j - b);
    RevExtend(b, j, i);
  }

  lemma {:induction false} NoEarlierLong(c: seq<nat>, g: nat, j: nat, q: nat, k: nat, r: nat, i: nat, b: nat, w: nat)
    requires IsCode(c, g, j, q) && IsCode(c, g, k, r) && Earlier(j, q, k, r)
    requires b < j && i < Pow2(b) && Matches(c, k, r, i) && Low(w, b) == i
    ensures !Matches(c, j, q, w)
  {
    ZerosComeFirst(i, b, j, w);
    if j < k {
      RevPrefix(j, k, i);
      NextCodeGrows(c, j, k);
      DropAtLeast(Rev(k, i), k - j, NextCode(c, j) + c[j]);
    }
  }

  /** No earlier code is met by bits that begin like the next one up to an aligned bit `b`. */
  lemma {:induction false} NoEarlier(c: seq<nat>, g: nat, j: nat, q: nat, k: nat, r: nat, i: nat, b: nat, w: nat)
    requires IsCode(c, g, j, q) && IsCode(c, g, k, r) && Earlier(j, q, k, r)
    requires b < k && i < Pow2(b) && Matches(c, k, r, i) && Low(w, b) == i
    ensures !Matches(c, j, q, w)
  {
    if j <= b {
      RevLow(j, b, w);
      if Matches(c, j, q, w) {
        MatchUnique(c, g, j, q, k, r, i);
      }
    } else {
      NoEarlierLong(c, g, j, q, k, r, i, b, w);
    }
  }

  /** `T'` is `T` with a new unset table `|T|`, linked from entry `j` of table `p`. */
  ghost predicate Opened(T: Tables, T': Tables, p: nat, j: nat, l: nat, width: nat)
    requires p < |T| && j < |T[p]|
  {
    && |T'| == |T| + 1
    && (forall q :: 0 <= q < |T| && q != p ==> T'[q] == T[q])
    && T'[p] == T[p][j := Next(16 + width, l, |T|)]
    && T'[|T|] == seq(Pow2(width), _ => Unset)
  }

  lemma {:induction false} OpenLinks(T: Tables, T': Tables, G: seq<Info>, l: nat, p: nat, i: nat, width: nat)
    requires Links(T, G, l) && p < |T| && 0 < width <= 16 && l <= BMAX && Mask(G, l, p) >= l
    requires i < Pow2(G[p].base + l) && G[p].prefix == Low(i, G[p].base)
    requires Drop(i, G[p].base) < |T[p]| && Opened(T, T', p, Drop(i, G[p].base), l, width)
    ensures Links(T', G + [Info(G[p].base + l, i, width)], l)
  {
    var G' := G + [Info(G[p].base + l, i, width)];
    Split(i, G[p].base);
    LinkIndex(i, G[p].base, l);
    forall q, j | 0 <= q < |T'| && 0 <= j < |T'[q]|
      ensures EntryOk(T', G', l, q, j)
    {
      if q < |T| {
        assert EntryOk(T, G, l, q, j);
      }
    }
  }

  lemma {:induction false} LinkIndex(i: nat, b: nat, l: nat)
    requires i < Pow2(b + l)
    ensures Drop(i, b) < Pow2(l)
  {
    SplitTwice(i, b, l);
    SmallLow(i, b + l);
  }

  lemma {:induction false} OpenShape(T: Tables, T': Tables, G: seq<Info>, l: nat, p: nat, i: nat, width: nat)
    requires Shape(T, G, l) && p < |T| && 0 < width <= l <= BMAX && Mask(G, l, p) == l
    requires i < Pow2(G[p].base + l) && G[p].prefix == Low(i, G[p].base)
    requires Drop(i, G[p].base) < |T[p]| && Opened(T, T', p, Drop(i, G[p].base), l, width)
    ensures Shape(T', G + [Info(G[p].base + l, i, width)], l)
  {
    OpenLinks(T, T', G, l, p, i, width);
  }

  lemma {:induction false} OpenOthers(T: Tables, T': Tables, G: seq<Info>, l: nat, p: nat, i: nat, width: nat, w: nat)
    requires Shape(T, G, l) && p < |T| && Mask(G, l, p) == l
    requires i < Pow2(G[p].base + l) && G[p].prefix == Low(i, G[p].base)
    requires Drop(i, G[p].base) < |T[p]| && Opened(T, T', p, Drop(i, G[p].base), l, width)
    requires Low(w, G[p].base + l) != i
    ensures Look(T', 0, l, w, 0) == Look(T, 0, l, w, 0)
  {
    var base := G[p].base;
    SplitTwice(w, base, l);
    Split(i, base);
    forall q, j | 0 <= q < |T| && 0 <= j < |T[q]| && OnPath(G, l, q, j, w)
      ensures j < |T'[q]| && T'[q][j] == T[q][j]
    {
    }
    LookSame(T, T', G, l, 0, w);
  }

  lemma {:induction false} OpenPlaced(P: Plan, T: Tables, T': Tables, G: seq<Info>, p: nat, i: nat, width: nat, k: nat,
                                      r: nat)
    requires ValidPlan(P) && IsCode(P.c, P.g, k, r) && Matches(P.c, k, r, i) && Placed(P, T, k, r)
    requires Shape(T, G, P.l) && p < |T| && Mask(G, P.l, p) == P.l && G[p].base + P.l < k
    requires i < Pow2(G[p].base + P.l) && G[p].prefix == Low(i, G[p].base)
    requires Drop(i, G[p].base) < |T[p]| && Opened(T, T', p, Drop(i, G[p].base), P.l, width)
    ensures Placed(P, T', k, r)
  {
    var b := G[p].base + P.l;
    forall j, q, w | IsCode(P.c, P.g, j, q) && Earlier(j, q, k, r)
      ensures PlacedAt(P, T', j, q, w)
    {
      if Matches(P.c, j, q, w) {
        if Low(w, b) == i {
          NoEarlier(P.c, P.g, j, q, k, r, i, b, w);
        }
        OpenOthers(T, T', G, P.l, p, i, width, w);
        assert PlacedAt(P, T, j, q, w);
      }
    }
  }

  lemma {:induction false} OpenStack(T: Tables, T': Tables, G: seq<Info>, u: seq<nat>, x: seq<nat>, l: nat, i: nat,
                                     width: nat)
    requires |u| > 0 && |T| == |G| && Stack(G, u, x, l, i) && Linked(T, G, u, x, l)
    requires i < Pow2(Top(G, u).base + l)
    requires var p := u[|u| - 1];
             Drop(i, G[p].base) < |T[p]| && Opened(T, T', p, Drop(i, G[p].base), l, width)
    ensures var G' := G + [Info(Top(G, u).base + l, i, width)];
            && Stack(G', u + [|T|], x + [i], l, i)
            && Linked(T', G', u + [|T|], x + [i], l)
  {
    hide Low, Drop, Pow2;
    var p := u[|u| - 1];
    var G' := G + [Info(G[p].base + l, i, width)];
    var u', x' := u + [|T|], x + [i];
    SmallLow(i, G[p].base + l);
    forall t | 0 <= t < |u'| - 1
      ensures LinkedAt(T', G', u', x', l, t)
    {
      if t < |u| - 1 {
        assert LinkedAt(T, G, u, x, l, t);
        StackOrder(G, u, x, l, i, t, |u| - 1);
      }
    }
  }
}
