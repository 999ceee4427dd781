/** The DEFLATE format (RFC 1951, section 3.2) as a decoder on values: a bit string, the history
    so far, and what comes out.  The reference that inflate.c is measured against.
 */
module Rfc1951 {
  import opened Bits
  import opened Huffman
  import opened Window

  /** The unread bits, first bit lowest, and how many there are. */
  datatype In = In(w: nat, left: nat)

  /** A value and the bits after it; or invalid data; or the end of the input. */
  datatype Got<+T> = Got(v: T, rest: In) | Bad | Eof {
    predicate IsFailure() { !Got? }
    function PropagateFailure<U>(): Got<U>
      requires !Got?
    {
      if Bad? then Bad else Eof
    }
    function Extract(): (T, In)
      requires Got?
    {
      (v, rest)
    }
  }

  function Skip(s: In, n: nat): In
    requires n <= s.left
  {
    In(Drop(s.w, n), s.left - n)
  }

  /** An `n`-bit number, least significant bit first. */
  function Take(s: In, n: nat): (r: Got<nat>)
    ensures r.Got? ==> r.rest.left + n == s.left && r.v < Pow2(n)
  {
    if n > s.left then Eof else Got(Low(s.w, n), Skip(s, n))
  }

  /** A symbol of the canonical code with lengths `lens`. */
  function Symbol(lens: seq<nat>, s: In): (r: Got<nat>)
    ensures r.Got? ==> r.rest.left < s.left
  {
    match Decode(lens, s.w, 0)
    case NoCode => Bad
    case Sym(m, bits) => if bits > s.left then Eof else Got(m, Skip(s, bits))
  }

  // ---- lengths and distances (section 3.2.5) -----------------------------------------------

  function LengthExtra(m: nat): nat
    requires 257 <= m <= 285
  {
    if m < 265 || m == 285 then 0 else (m - 261) / 4
  }

  function LengthBase(m: nat): nat
    requires 257 <= m <= 285
  {
    if m == 257 then 3 else if m == 285 then 258 else LengthBase(m - 1) + Pow2(LengthExtra(m - 1))
  }

  function DistExtra(m: nat): nat
    requires m <= 29
  {
    if m < 4 then 0 else (m - 2) / 2
  }

  function DistBase(m: nat): nat
    requires m <= 29
  {
    if m == 0 then 1 else DistBase(m - 1) + Pow2(DistExtra(m - 1))
  }

  // ---- compressed data ---------------------------------------------------------------------

  /** A distance: a symbol of the distance code and its extra bits. */
  function Distance(dist: seq<nat>, s: In): (r: Got<nat>)
    ensures r.Got? ==> r.rest.left < s.left
  {
    var (m, s1) :- Symbol(dist, s);
    if m > 29 then Bad
    else
      var (x, s2) :- Take(s1, DistExtra(m));
      Got(DistBase(m) + x, s2)
  }

  /** Literals and length/distance pairs up to the end-of-block code. */
  function Codes(lit: seq<nat>, dist: seq<nat>, s: In, h: seq<bv8>): (r: Got<seq<bv8>>)
    ensures r.Got? ==> r.rest.left < s.left
    decreases s.left
  {
    var (m, s1) :- Symbol(lit, s);
    if m < 256 then Codes(lit, dist, s1, h + [m as bv8])
    else if m == 256 then Got(h, s1)
    else if m > 285 then Bad
    else
      var (x, s2) :- Take(s1, LengthExtra(m));
      var (d, s3) :- Distance(dist, s2);
      if d < 1 || d > |h| then Bad
      else Codes(lit, dist, s3, Repeat(h, d, LengthBase(m) + x))
  }

  // ---- stored data (section 3.2.4) ---------------------------------------------------------

  function StoredBytes(s: In, n: nat, h: seq<bv8>): (r: Got<seq<bv8>>)
    ensures r.Got? ==> r.rest.left <= s.left
    decreases n
  {
    if n == 0 then Got(h, s)
    else
      var (c, s1) :- Take(s, 8);
      StoredBytes(s1, n - 1, h + [c as bv8])
  }

  function Stored(s: In, h: seq<bv8>): (r: Got<seq<bv8>>)
    ensures r.Got? ==> r.rest.left <= s.left
  {
    var (n, s1) :- Take(Skip(s, s.left % 8), 16);
    var (m, s2) :- Take(s1, 16);
    if n + m != 0xFFFF then Bad else StoredBytes(s2, n, h)
  }

  // ---- fixed codes (section 3.2.6) ---------------------------------------------------------

  function FixedLit(): seq<nat> { Rep(8, 144) + Rep(9, 112) + Rep(7, 24) + Rep(8, 8) }

  function FixedDist(): seq<nat> { Rep(5, 30) }

  function Rep(x: nat, n: nat): (r: seq<nat>)
    ensures |r| == n && forall i :: 0 <= i < n ==> r[i] == x
  {
    if n == 0 then [] else Rep(x, n - 1) + [x]
  }

  // ---- dynamic codes (section 3.2.7) -------------------------------------------------------

  /** A code the data may use: complete; or, as the original also accepts, at most one code, of
      one bit. */
  predicate Usable(lens: seq<nat>) {
    Kraft(lens) == Pow2(BMAX) || (Kraft(lens) < Pow2(BMAX) && forall i :: 0 <= i < |lens| ==> lens[i] <= 1)
  }

  /** Order of the code lengths of the code length code. */
  const ORDER: seq<nat> := [16, 17, 18, 0, 8, 7, 9, 6, 10, 5, 11, 4, 12, 3, 13, 2, 14, 1, 15]

  function CodeLengthLengths(s: In, j: nat, nb: nat, cl: seq<nat>): (r: Got<seq<nat>>)
    requires j <= nb <= |ORDER| == |cl|
    ensures r.Got? ==> r.rest.left <= s.left && |r.v| == |cl|
    decreases nb - j
  {
    if j == nb then Got(cl, s)
    else
      var (x, s1) :- Take(s, 3);
      CodeLengthLengths(s1, j + 1, nb, cl[ORDER[j] := x])
  }

  /** `n` code lengths, of which `acc` have been read, the last one being `prev`. */
  function CodeLengths(cl: seq<nat>, s: In, n: nat, acc: seq<nat>, prev: nat): (r: Got<seq<nat>>)
    requires |acc| <= n
    ensures r.Got? ==> r.rest.left <= s.left && |r.v| == n
    decreases s.left
  {
    if |acc| == n then Got(acc, s)
    else
      var (m, s1) :- Symbol(cl, s);
      if m < 16 then CodeLengths(cl, s1, n, acc + [m], m)
      else
        var (x, s2) :- Take(s1, if m == 16 then 2 else if m == 17 then 3 else 7);
        var k := x + if m == 18 then 11 else 3;
        var l := if m == 16 then prev else 0;
        if |acc| + k > n then Bad else CodeLengths(cl, s2, n, acc + Rep(l, k), l)
  }

  /** After the three counts: the code length code, the code lengths, the data. */
  function DynamicBody(nl: nat, nd: nat, nb: nat, s: In, h: seq<bv8>): (r: Got<seq<bv8>>)
    requires nb <= 19
    ensures r.Got? ==> r.rest.left <= s.left
  {
    if nl > 286 || nd > 30 then Bad
    else
      var (cl, s1) :- CodeLengthLengths(s, 0, nb, Rep(0, 19));
      if !Usable(cl) then Bad
      else
        var (ll, s2) :- CodeLengths(cl, s1, nl + nd, [], 0);
        if !Usable(ll[..nl]) || !Usable(ll[nl..]) then Bad else Codes(ll[..nl], ll[nl..], s2, h)
  }

  function Dynamic(s: In, h: seq<bv8>): (r: Got<seq<bv8>>)
    ensures r.Got? ==> r.rest.left <= s.left
  {
    var (hlit, s1) :- Take(s, 5);
    var (hdist, s2) :- Take(s1, 5);
    var (hclen, s3) :- Take(s2, 4);
    assert hclen < 16;
    DynamicBody(257 + hlit, 1 + hdist, 4 + hclen, s3, h)
  }

  // ---- blocks (section 3.2.3) --------------------------------------------------------------

  /** One block; whether it is the last one, and the history after it. */
  function Block(s: In, h: seq<bv8>): (r: Got<(bool, seq<bv8>)>)
    ensures r.Got? ==> r.rest.left < s.left
  {
    var (last, s1) :- Take(s, 1);
    var (t, s2) :- Take(s1, 2);
    var (h', s3) :-
      if t == 0 then Stored(s2, h)
      else if t == 1 then Codes(FixedLit(), FixedDist(), s2, h)
      else if t == 2 then Dynamic(s2, h)
      else Bad;
    Got((last == 1, h'), s3)
  }

  /** A compressed data set: blocks up to the last one. */
  function Inflate(s: In, h: seq<bv8>): (r: Got<seq<bv8>>)
    ensures r.Got? ==> r.rest.left < s.left
    decreases s.left
  {
    var (b, s1) :- Block(s, h);
    if b.0 then Got(b.1, s1) else Inflate(s1, b.1)
  }

  /** A byte string as bits: each byte from its least significant bit (section 3.1.1). */
  function Stream(d: seq<bv8>): nat {
    if d == [] then 0 else (d[0] as nat) + Shl(Stream(d[1..]), 8)
  }

  /** What a compressed byte string decodes to, and the unread bits. */
  function InflateBytes(d: seq<bv8>): Got<seq<bv8>> {
    Inflate(In(Stream(d), 8 * |d|), [])
  }

  // ---- bits used ---------------------------------------------------------------------------

  lemma {:induction false} TakeUses(s: In, n: nat)
    ensures Take(s, n).Got? ==> Take(s, n).rest.left + n == s.left
  {
  }

  lemma {:induction false} SymbolUses(lens: seq<nat>, s: In)
    ensures Symbol(lens, s).Got? ==> Symbol(lens, s).rest.left < s.left
  {
  }

  lemma {:induction false} BlockUses(s: In, h: seq<bv8>)
    ensures Block(s, h).Got? ==> Block(s, h).rest.left < s.left
  {
  }

  // ---- earlier history does not matter -----------------------------------------------------

  /** `r` with `pre` before its history. */
  function Before(pre: seq<bv8>, r: Got<seq<bv8>>): Got<seq<bv8>> {
    match r
    case Got(v, rest) => Got(pre + v, rest)
    case Bad => Bad
    case Eof => Eof
  }

  lemma {:induction false} RepeatAfter(pre: seq<bv8>, h: seq<bv8>, dist: nat, n: nat)
    requires 1 <= dist <= |h|
    ensures Repeat(pre + h, dist, n) == pre + Repeat(h, dist, n)
    decreases n
  {
    hide Repeat;
    RepeatNone(h, dist);
    RepeatNone(pre + h, dist);
    if n > 0 {
      RepeatAfter(pre, h, dist, n - 1);
      var g := Repeat(h, dist, n - 1);
      RepeatNext(h, dist, n - 1, g);
      RepeatNext(pre + h, dist, n - 1, pre + g);
      assert (pre + g)[|pre + g| - dist] == g[|g| - dist];
      assert pre + (g + [g[|g| - dist]]) == pre + g + [g[|g| - dist]];
    }
  }

  /** A decoding that succeeds without reaching back past its own history succeeds alike after any
      earlier history. */
  lemma {:induction false} CodesAfter(pre: seq<bv8>, lit: seq<nat>, dist: seq<nat>, s: In, h: seq<bv8>)
    requires Codes(lit, dist, s, h).Got?
    ensures Codes(lit, dist, s, pre + h) == Before(pre, Codes(lit, dist, s, h))
    decreases s.left
  {
    hide Symbol, Take, Distance, LengthBase, LengthExtra, Repeat;
    var (m, s1) := Symbol(lit, s).Extract();
    if m < 256 {
      assert pre + (h + [m as bv8]) == pre + h + [m as bv8];
      CodesAfter(pre, lit, dist, s1, h + [m as bv8]);
    } else if m > 256 {
      var (x, s2) := Take(s1, LengthExtra(m)).Extract();
      var (d, s3) := Distance(dist, s2).Extract();
      RepeatAfter(pre, h, d, LengthBase(m) + x);
      CodesAfter(pre, lit, dist, s3, Repeat(h, d, LengthBase(m) + x));
    }
  }

  lemma {:induction false} StoredBytesAfter(pre: seq<bv8>, s: In, n: nat, h: seq<bv8>)
    ensures StoredBytes(s, n, pre + h) == Before(pre, StoredBytes(s, n, h))
    decreases n
  {
    hide Take;
    if n > 0 && Take(s, 8).Got? {
      var (c, s1) := Take(s, 8).Extract();
      ByteRange(s);
      assert pre + (h + [c as bv8]) == pre + h + [c as bv8];
      StoredBytesAfter(pre, s1, n - 1, h + [c as bv8]);
    }
  }

  lemma {:induction false} ByteRange(s: In)
    ensures Take(s, 8).Got? ==> Take(s, 8).v < 256
  {
  }

  lemma {:induction false} BlockAfter(pre: seq<bv8>, s: In, h: seq<bv8>)
    requires Block(s, h).Got?
    ensures Block(s, pre + h).Got?
    ensures Block(s, pre + h).v == (Block(s, h).v.0, pre + Block(s, h).v.1)
    ensures Block(s, pre + h).rest == Block(s, h).rest
  {
    hide Take, Codes, StoredBytes, Dynamic, FixedLit, FixedDist;
    var (last, s1) := Take(s, 1).Extract();
    var (t, s2) := Take(s1, 2).Extract();
    if t == 0 {
      var (n, s3) := Take(Skip(s2, s2.left % 8), 16).Extract();
      var (m, s4) := Take(s3, 16).Extract();
      StoredBytesAfter(pre, s4, n, h);
    } else if t == 1 {
      CodesAfter(pre, FixedLit(), FixedDist(), s2, h);
    } else {
      DynamicAfter(pre, s2, h);
    }
  }

  lemma {:induction false} DynamicAfter(pre: seq<bv8>, s: In, h: seq<bv8>)
    requires Dynamic(s, h).Got?
    ensures Dynamic(s, pre + h) == Before(pre, Dynamic(s, h))
  {
    hide Take, DynamicBody;
    var (hlit, s1) := Take(s, 5).Extract();
    var (hdist, s2) := Take(s1, 5).Extract();
    var (hclen, s3) := Take(s2, 4).Extract();
    HclenRange(s2);
    DynamicBodyAfter(pre, 257 + hlit, 1 + hdist, 4 + hclen, s3, h);
  }

  lemma {:induction false} DynamicBodyAfter(pre: seq<bv8>, nl: nat, nd: nat, nb: nat, s: In, h: seq<bv8>)
    requires nb <= 19 && DynamicBody(nl, nd, nb, s, h).Got?
    ensures DynamicBody(nl, nd, nb, s, pre + h) == Before(pre, DynamicBody(nl, nd, nb, s, h))
  {
    hide Codes, CodeLengthLengths, CodeLengths, Usable, Rep;
    var (cl, s1) := CodeLengthLengths(s, 0, nb, Rep(0, 19)).Extract();
    var (ll, s2) := CodeLengths(cl, s1, nl + nd, [], 0).Extract();
    CodesAfter(pre, ll[..nl], ll[nl..], s2, h);
  }

  lemma {:induction false} HclenRange(s: In)
    ensures Take(s, 4).Got? ==> Take(s, 4).v < 16
  {
  }

  /** The output does not depend on what came before it. */
  lemma {:induction false} InflateAfter(pre: seq<bv8>, s: In, h: seq<bv8>)
    requires Inflate(s, h).Got?
    ensures Inflate(s, pre + h) == Before(pre, Inflate(s, h))
    decreases s.left
  {
    hide Block;
    var (b, s1) := Block(s, h).Extract();
    BlockAfter(pre, s, h);
    if !b.0 {
      InflateAfter(pre, s1, b.1);
    }
  }
}
