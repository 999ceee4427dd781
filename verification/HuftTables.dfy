/** The linked decoding tables of inflate.c: what a lookup through them returns, and why writing
    an entry or linking in a new table does not disturb the codes that are already in place.
 */
module HuftTables {
  import opened Bits
  import opened Huffman

  /** `struct huft`.  `Unset` is an entry malloc() left uninitialised; `Value` and `Next` are the
      two uses of the union `v`. */
  datatype Huft = Unset | Value(e: nat, b: nat, n: nat) | Next(e: nat, b: nat, t: nat)

  type Tables = seq<seq<Huft>>

  /** What the decoding loops get for some bits: the operation, its value and the bits used; an
      invalid code (99); or a read of memory nobody wrote. */
  datatype Found = Hit(e: nat, n: nat, bits: nat) | Bad | Stray

  function Leaf(h: Huft, bits: nat): Found {
    if h.Value? && h.e == 99 then Bad
    else if h.Value? && h.e <= 16 then Hit(h.e, h.n, bits)
    else Stray
  }

  /** What entry `h` of a table indexed with `m` bits ends a lookup with; the bits it drops must be
      among those looked at. */
  function Final(h: Huft, m: nat, used: nat): Found {
    if h.Value? && h.e != 99 && h.b > m then Stray
    else Leaf(h, used + if h.Value? then h.b else 0)
  }

  /** Index table `p` with `m` bits of `w` and follow links, `used` bits having been dropped; a
      link too drops no more bits than were looked at, and asks for at most 16. */
  function Look(T: Tables, p: nat, m: nat, w: nat, used: nat): (f: Found)
    ensures f.Hit? ==> f.bits >= used
    decreases |T| - p
  {
    var j := Low(w, m);
    if p >= |T| || j >= |T[p]| then Stray
    else
      var h := T[p][j];
      if h.Next? then
        if h.e == 99 then Bad
        else if 16 < h.e <= 32 && h.t > p && h.b <= m then Look(T, h.t, h.e - 16, Drop(w, h.b), used + h.b)
        else Stray
      else Final(h, m, used)
  }

  // ---- the shape of the tables -------------------------------------------------------------

  /** Where table `p` hangs: the bits consumed before it, their value, and its own width. */
  datatype Info = Info(base: nat, prefix: nat, width: nat)

  /** How many bits the decoder looks up in table `p`. */
  function Mask(G: seq<Info>, l: nat, p: nat): nat
    requires p < |G|
  {
    if p == 0 then l else G[p].width
  }

  ghost predicate Sizes(T: Tables, G: seq<Info>) {
    && |T| == |G|
    && forall p :: 0 <= p < |T| ==> |T[p]| == Pow2(G[p].width) && G[p].width <= BMAX + 1
  }

  ghost predicate EntryOk(T: Tables, G: seq<Info>, l: nat, p: nat, j: nat)
    requires p < |T| == |G| && j < |T[p]|
  {
    && (T[p][j].Value? ==> T[p][j].b >= 1)
    && (T[p][j].Next? ==>
      var h := T[p][j];
      && p < h.t < |T|
      && h.b == l
      && 32 >= h.e == 16 + G[h.t].width > 16
      && Mask(G, l, p) >= l && j < Pow2(l)
      && G[h.t].base == G[p].base + l
      && G[h.t].prefix == G[p].prefix + Shl(j, G[p].base))
  }

  /** A link that is followed, or an entry that ends a lookup, drops at least one bit; links ask for at
      most `n` bits more. */
  predicate Drops(h: Huft, n: nat) {
    match h
    case Unset => true
    case Value(e, b, v) => b >= 1
    case Next(e, b, t) => b >= 1 && e <= 16 + n
  }

  predicate Steady(T: Tables, n: nat) {
    forall p, j :: 0 <= p < |T| && 0 <= j < |T[p]| ==> Drops(T[p][j], n)
  }

  /** Links go down a level, and are in the part of a table that `l` bits reach. */
  ghost predicate Links(T: Tables, G: seq<Info>, l: nat) {
    && Sizes(T, G) && l <= BMAX
    && (|G| > 0 ==> G[0].base == 0 && G[0].prefix == 0 && l <= G[0].width)
    && forall p, j :: 0 <= p < |T| && 0 <= j < |T[p]| ==> EntryOk(T, G, l, p, j)
  }

  /** No table below the root is wider than `l` bits. */
  ghost predicate Shape(T: Tables, G: seq<Info>, l: nat) {
    Links(T, G, l) && forall p :: 0 < p < |G| ==> G[p].width <= l
  }

  lemma {:induction false} ShapeSteady(T: Tables, G: seq<Info>, l: nat)
    requires Shape(T, G, l) && l >= 1
    ensures Steady(T, l)
  {
    forall p, j | 0 <= p < |T| && 0 <= j < |T[p]|
      ensures Drops(T[p][j], l)
    {
      assert EntryOk(T, G, l, p, j);
    }
  }

  /** A lookup of `w` that reaches table `q` reads its entry `j`. */
  ghost predicate OnPath(G: seq<Info>, l: nat, q: nat, j: nat, w: nat)
    requires q < |G|
  {
    Low(w, G[q].base) == G[q].prefix && Low(Drop(w, G[q].base), Mask(G, l, q)) == j
  }

  ghost predicate Agree(T: Tables, T': Tables, G: seq<Info>, l: nat, w: nat)
    requires |T| == |G|
  {
    && |T| <= |T'|
    && forall q, j :: 0 <= q < |T| && 0 <= j < |T[q]| && OnPath(G, l, q, j, w)
         ==> j < |T'[q]| && T'[q][j] == T[q][j]
  }

  lemma {:induction false} MaskFits(T: Tables, G: seq<Info>, l: nat, p: nat, w: nat)
    requires Shape(T, G, l) && p < |T|
    ensures Low(w, Mask(G, l, p)) < |T[p]|
  {
    Pow2Mono(Mask(G, l, p), G[p].width);
  }

  /** Following the link in the entry `w` selects. */
  lemma {:induction false} FollowLink(T: Tables, G: seq<Info>, l: nat, p: nat, j: nat, w: nat)
    requires Shape(T, G, l) && p < |T| && j < |T[p]| && T[p][j].Next? && OnPath(G, l, p, j, w)
    ensures var h := T[p][j];
            && p < h.t < |T| && h.b == Mask(G, l, p) && 16 < h.e <= 32 && h.e - 16 == Mask(G, l, h.t)
            && G[h.t].base == G[p].base + h.b
            && Low(w, G[h.t].base) == G[h.t].prefix
            && Drop(w, G[h.t].base) == Drop(Drop(w, G[p].base), h.b)
  {
    assert EntryOk(T, G, l, p, j);
    SplitTwice(w, G[p].base, l);
  }

  /** One step of a lookup on a path. */
  lemma {:induction false} LookStep(T: Tables, p: nat, m: nat, w: nat, used: nat, h: Huft)
    requires p < |T| && Low(w, m) < |T[p]| && T[p][Low(w, m)] == h
    requires h.Next? ==> h.t > p && 16 < h.e <= 32 && h.b <= m
    ensures Look(T, p, m, w, used)
         == if h.Next? then Look(T, h.t, h.e - 16, Drop(w, h.b), used + h.b) else Final(h, m, used)
  {
  }

  lemma {:induction false} StepsAgree(T: Tables, T': Tables, G: seq<Info>, l: nat, p: nat, w: nat) returns (h: Huft)
    requires Shape(T, G, l) && p < |T| && Agree(T, T', G, l, w)
    requires Low(w, G[p].base) == G[p].prefix
    ensures var j := Low(Drop(w, G[p].base), Mask(G, l, p));
            && j < |T[p]| && T[p][j] == h && p < |T'| && j < |T'[p]| && T'[p][j] == h
            && OnPath(G, l, p, j, w)
  {
    var j := Low(Drop(w, G[p].base), Mask(G, l, p));
    MaskFits(T, G, l, p, Drop(w, G[p].base));
    assert OnPath(G, l, p, j, w);
    h := T[p][j];
  }

  /** Changing entries off the path of `w` does not change what `w` decodes to. */
  lemma {:induction false} LookSame(T: Tables, T': Tables, G: seq<Info>, l: nat, p: nat, w: nat)
    requires Shape(T, G, l) && p < |T| && Agree(T, T', G, l, w)
    requires Low(w, G[p].base) == G[p].prefix
    ensures var y := Drop(w, G[p].base);
            Look(T', p, Mask(G, l, p), y, G[p].base) == Look(T, p, Mask(G, l, p), y, G[p].base)
    decreases |T| - p
  {
    var y := Drop(w, G[p].base);
    var m := Mask(G, l, p);
    var h := StepsAgree(T, T', G, l, p, w);
    if h.Next? {
      FollowLink(T, G, l, p, Low(y, m), w);
      LookSame(T, T', G, l, h.t, w);
    }
    LookStep(T, p, m, y, G[p].base, h);
    LookStep(T', p, m, y, G[p].base, h);
  }

  // ---- the stack of open tables ------------------------------------------------------------

  /** `u` and `x`: the tables from the root to the one being filled, and the bits leading to
      each, all of them prefixes of the current code `i`. */
  ghost predicate Stack(G: seq<Info>, u: seq<nat>, x: seq<nat>, l: nat, i: nat) {
    && |u| == |x|
    && (|u| == 0 <==> |G| == 0)
    && (|u| > 0 ==> u[0] == 0 && G[0].base == 0)
    && (forall t :: 0 <= t < |u| ==>
          u[t] < |G| && G[u[t]].prefix == x[t] == Low(i, G[u[t]].base))
    && (forall t :: 0 <= t < |u| - 1 ==>
          u[t] < u[t + 1] && G[u[t + 1]].base == G[u[t]].base + l)
  }

  ghost predicate Linked(T: Tables, G: seq<Info>, u: seq<nat>, x: seq<nat>, l: nat) {
    && |T| == |G| && |u| == |x|
    && forall t :: 0 <= t < |u| - 1 ==> LinkedAt(T, G, u, x, l, t)
  }

  ghost predicate LinkedAt(T: Tables, G: seq<Info>, u: seq<nat>, x: seq<nat>, l: nat, t: nat)
    requires |T| == |G| && |u| == |x| && t + 1 < |u|
  {
    && u[t] < |T| && u[t + 1] < |T|
    && var j := Drop(x[t + 1], G[u[t]].base);
       j < |T[u[t]]| && T[u[t]][j] == Next(16 + G[u[t + 1]].width, l, u[t + 1])
  }

  lemma {:induction false} StackOrder(G: seq<Info>, u: seq<nat>, x: seq<nat>, l: nat, i: nat, s: nat, t: nat)
    requires Stack(G, u, x, l, i) && s < t < |u|
    ensures u[s] < u[t] && G[u[s]].base + l <= G[u[t]].base
    decreases t
  {
    if s < t - 1 {
      StackOrder(G, u, x, l, i, s, t - 1);
    }
  }

  lemma {:induction false} LinkOnPath(T: Tables, G: seq<Info>, u: seq<nat>, x: seq<nat>, l: nat, i: nat, w: nat, t: nat)
    requires Shape(T, G, l) && Stack(G, u, x, l, i) && Linked(T, G, u, x, l)
    requires t + 1 < |u| && Low(w, G[u[t + 1]].base) == x[t + 1]
    ensures u[t] < |T| && Low(w, G[u[t]].base) == x[t]
    ensures var j := Low(Drop(w, G[u[t]].base), l);
            j < |T[u[t]]| && T[u[t]][j] == Next(16 + G[u[t + 1]].width, l, u[t + 1])
            && OnPath(G, l, u[t], j, w)
  {
    var base := G[u[t]].base;
    SplitTwice(w, base, l);
    SplitTwice(i, base, l);
    assert LinkedAt(T, G, u, x, l, t);
    assert EntryOk(T, G, l, u[t], Drop(x[t + 1], base));
  }

  /** Bits that begin with the prefix of a table on the stack reach that table. */
  lemma {:induction false} PathToLevel(T: Tables, G: seq<Info>, u: seq<nat>, x: seq<nat>, l: nat, i: nat, w: nat,
                                       t: nat)
    requires Shape(T, G, l) && Stack(G, u, x, l, i) && Linked(T, G, u, x, l)
    requires t < |u| && Low(w, G[u[t]].base) == x[t]
    ensures Look(T, 0, l, w, 0)
         == Look(T, u[t], Mask(G, l, u[t]), Drop(w, G[u[t]].base), G[u[t]].base)
    decreases t
  {
    hide Look, Low, Drop, Pow2, Links, LinkedAt;
    if t == 0 {
      NoDrop(w);
    } else {
      var p := u[t - 1];
      var y := Drop(w, G[p].base);
      LinkOnPath(T, G, u, x, l, i, w, t - 1);
      PathToLevel(T, G, u, x, l, i, w, t - 1);
      FollowLink(T, G, l, p, Low(y, l), w);
      LookStep(T, p, l, y, G[p].base, T[p][Low(y, l)]);
    }
  }
}
