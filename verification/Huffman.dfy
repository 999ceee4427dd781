/** Canonical Huffman codes (RFC 1951, section 3.2.2): how code lengths determine codes, when a
    set of lengths is oversubscribed, incomplete or complete, and why bits decode uniquely.
 */
module Huffman {
  import opened Bits

  const BMAX: nat := 16  // longest code huft_build accepts

  ghost predicate Lengths(lens: seq<nat>) {
    forall s :: 0 <= s < |lens| ==> lens[s] <= BMAX
  }

  /** How many symbols have length `k`. */
  function Count(lens: seq<nat>, k: nat): (n: nat)
    ensures n <= |lens|
  {
    if lens == [] then 0
    else Count(lens[..|lens| - 1], k) + if lens[|lens| - 1] == k then 1 else 0
  }

  function Counts(lens: seq<nat>): (c: seq<nat>)
    ensures |c| == BMAX + 1
    ensures forall k :: 0 <= k <= BMAX ==> c[k] == Count(lens, k)
  {
    seq(BMAX + 1, k requires 0 <= k => Count(lens, k))
  }

  /** RFC 1951's next_code: the first code of length `k`. */
  function NextCode(c: seq<nat>, k: nat): nat
    requires k <= |c|
  {
    if k <= 1 then 0 else 2 * (NextCode(c, k - 1) + c[k - 1])
  }

  /** The code of symbol `s`: consecutive among the symbols of its length, in symbol order. */
  function Code(lens: seq<nat>, s: nat): nat
    requires s < |lens| && lens[s] <= BMAX
  {
    NextCode(Counts(lens), lens[s]) + Count(lens[..s], lens[s])
  }

  /** The bits of `w` begin with code number `r` of length `k`. */
  predicate Matches(c: seq<nat>, k: nat, r: nat, w: nat)
    requires k <= |c|
  {
    Rev(k, w) == NextCode(c, k) + r
  }

  /** Code number `r` of length `k` exists among lengths up to `g`. */
  predicate IsCode(c: seq<nat>, g: nat, k: nat, r: nat) {
    1 <= k <= g && k < |c| && r < c[k]
  }

  ghost predicate Full(c: seq<nat>, g: nat) {
    1 <= g < |c| && NextCode(c, g) + c[g] == Pow2(g)
  }

  // ---- prefix freeness ---------------------------------------------------------------------

  lemma {:induction false} NextCodeGrows(c: seq<nat>, j: nat, k: nat)
    requires 1 <= j < k <= |c|
    ensures NextCode(c, k) >= Shl(NextCode(c, j) + c[j], k - j)
    decreases k
  {
    if j + 1 < k {
      NextCodeGrows(c, j, k - 1);
    }
  }

  /** Lengths up to `g` leave room at every shorter length when they do at `g`. */
  lemma {:induction false} FitsBelow(c: seq<nat>, g: nat, k: nat)
    requires 1 <= k <= g < |c| && NextCode(c, g) + c[g] <= Pow2(g)
    ensures NextCode(c, k) + c[k] <= Pow2(k)
  {
    if k < g {
      NextCodeGrows(c, k, g);
      ShlMore(1, k, g - k);
      ShlOrder(NextCode(c, k) + c[k], Pow2(k), g - k);
    }
  }

  /** A shorter code is never a prefix of the same bits as a longer one. */
  lemma {:induction false} ShorterExcluded(c: seq<nat>, j: nat, q: nat, k: nat, r: nat, w: nat)
    requires 1 <= j < k < |c| && q < c[j]
    requires Matches(c, k, r, w)
    ensures !Matches(c, j, q, w)
  {
    NextCodeGrows(c, j, k);
    RevPrefix(j, k, w);
    DropAtLeast(Rev(k, w), k - j, NextCode(c, j) + c[j]);
  }

  /** Any two codes that begin the same bits are the same code. */
  lemma {:induction false} MatchUnique(c: seq<nat>, g: nat, j: nat, q: nat, k: nat, r: nat, w: nat)
    requires IsCode(c, g, j, q) && IsCode(c, g, k, r)
    requires Matches(c, j, q, w) && Matches(c, k, r, w)
    ensures j == k && q == r
  {
    if j < k {
      ShorterExcluded(c, j, q, k, r, w);
    } else if k < j {
      ShorterExcluded(c, k, r, j, q, w);
    }
  }

  /** In a full set some code begins any bits. */
  lemma {:induction false} MatchExists(c: seq<nat>, g: nat, w: nat) returns (k: nat, r: nat)
    requires Full(c, g)
    ensures IsCode(c, g, k, r) && Matches(c, k, r, w)
  {
    k := 1;
    while k < g && Rev(k, w) >= NextCode(c, k) + c[k]
      invariant 1 <= k <= g
      invariant Rev(k, w) >= NextCode(c, k)
    {
      assert Rev(k + 1, w) >= 2 * Rev(k, w);
      k := k + 1;
    }
    r := Rev(k, w) - NextCode(c, k);
  }

  // ---- the Kraft sum -----------------------------------------------------------------------

  /** The Kraft sum of the lengths, in units of 2^-16. */
  function Kraft(lens: seq<nat>): nat {
    if lens == [] then 0
    else
      var k := lens[|lens| - 1];
      Kraft(lens[..|lens| - 1]) + if 1 <= k <= BMAX then Pow2(BMAX - k) else 0
  }

  /** One more symbol of length `j` moves every later first code. */
  lemma {:induction false} NextCodeBump(c: seq<nat>, j: nat, k: nat)
    requires j < |c| && k <= |c|
    ensures NextCode(c[j := c[j] + 1], k)
         == NextCode(c, k) + if 1 <= j < k then Pow2(k - j) else 0
    decreases k
  {
    if k > 1 {
      NextCodeBump(c, j, k - 1);
      assert j == k - 1 ==> Pow2(k - j) == 2 * Pow2(0);
    }
  }

  lemma {:induction false} KraftIsLastCode(lens: seq<nat>)
    requires Lengths(lens)
    ensures var c := Counts(lens); Kraft(lens) == NextCode(c, BMAX) + c[BMAX]
  {
    var c := Counts(lens);
    if lens == [] {
      NoCodes(c, BMAX);
    } else {
      var front, k := lens[..|lens| - 1], lens[|lens| - 1];
      var d := Counts(front);
      KraftIsLastCode(front);
      assert c == d[k := d[k] + 1];
      NextCodeBump(d, k, BMAX);
    }
  }

  lemma {:induction false} NoCodes(c: seq<nat>, k: nat)
    requires k <= |c| && forall j :: 1 <= j < k ==> c[j] == 0
    ensures NextCode(c, k) == 0
  {
    if k > 1 {
      NoCodes(c, k - 1);
    }
  }

  /** Above the longest length `g` the last code only doubles. */
  lemma {:induction false} LastCodeDoubles(c: seq<nat>, g: nat, k: nat)
    requires 1 <= g <= k < |c| && forall j :: g < j < |c| ==> c[j] == 0
    ensures NextCode(c, k) + c[k] == Shl(NextCode(c, g) + c[g], k - g)
    decreases k
  {
    if g < k {
      LastCodeDoubles(c, g, k - 1);
    }
  }

  // ---- the reference decoder ---------------------------------------------------------------

  datatype Decoded = Sym(s: nat, bits: nat) | NoCode

  /** The first symbol of length `k` whose code is `code`, searching from `s`. */
  function FindCode(lens: seq<nat>, k: nat, code: nat, s: nat): (r: nat)
    requires s <= |lens|
    ensures s <= r <= |lens|
    decreases |lens| - s
  {
    if s == |lens| then s
    else if lens[s] == k && k <= BMAX && Code(lens, s) == code then s
    else FindCode(lens, k, code, s + 1)
  }

  /** Read one bit at a time, first bit most significant, until the bits read so far are a code;
      `k` bits have been tried without success. */
  function Decode(lens: seq<nat>, w: nat, k: nat): (d: Decoded)
    requires k <= BMAX
    ensures d.Sym? ==> d.s < |lens| && k < d.bits <= BMAX
    decreases BMAX - k
  {
    if k == BMAX then NoCode
    else
      var s := FindCode(lens, k + 1, Rev(k + 1, w), 0);
      if s < |lens| then Sym(s, k + 1) else Decode(lens, w, k + 1)
  }

  lemma {:induction false} FindCodeSpec(lens: seq<nat>, k: nat, code: nat, s: nat)
    requires s <= |lens| && k <= BMAX
    ensures var r := FindCode(lens, k, code, s);
            && (r < |lens| ==> lens[r] == k && Code(lens, r) == code)
            && forall i :: s <= i < r ==> !(lens[i] == k && Code(lens, i) == code)
    decreases |lens| - s
  {
    if s < |lens| && !(lens[s] == k && Code(lens, s) == code) {
      FindCodeSpec(lens, k, code, s + 1);
    }
  }

  lemma {:induction false} CountMono(lens: seq<nat>, s: nat, t: nat, k: nat)
    requires s <= t <= |lens|
    ensures Count(lens[..s], k) <= Count(lens[..t], k)
    ensures forall i :: s <= i < t && lens[i] == k ==> Count(lens[..s], k) < Count(lens[..t], k)
    decreases t
  {
    if s < t {
      CountMono(lens, s, t - 1, k);
      assert lens[..t][..t - 1] == lens[..t - 1];
    }
  }

  lemma {:induction false} RankBelowCount(lens: seq<nat>, s: nat)
    requires s < |lens|
    ensures Count(lens[..s], lens[s]) < Count(lens, lens[s])
  {
    CountMono(lens, s, |lens|, lens[s]);
    assert lens[..|lens|] == lens;
  }

  /** `Decode` answers `s` for exactly the bits that begin with the code of `s`. */
  lemma {:induction false} DecodeFinds(lens: seq<nat>, w: nat, s: nat, k: nat)
    requires Lengths(lens) && s < |lens| && k < lens[s]
    requires Rev(lens[s], w) == Code(lens, s)
    ensures Decode(lens, w, k) == Sym(s, lens[s])
    decreases lens[s] - k
  {
    hide Count, Rev, NextCode, FindCode;
    var c := Counts(lens);
    var f := FindCode(lens, k + 1, Rev(k + 1, w), 0);
    FindCodeSpec(lens, k + 1, Rev(k + 1, w), 0);
    RankBelowCount(lens, s);
    if f < |lens| {
      RankBelowCount(lens, f);
      MatchUnique(c, BMAX, k + 1, Count(lens[..f], k + 1), lens[s], Count(lens[..s], lens[s]), w);
      if f < s {
        CountMono(lens, f, s, k + 1);
      }
    } else {
      assert k + 1 < lens[s];
      DecodeFinds(lens, w, s, k + 1);
    }
  }

  lemma {:induction false} DecodeSound(lens: seq<nat>, w: nat, k: nat)
    requires Lengths(lens) && k <= BMAX
    ensures var d := Decode(lens, w, k);
            d.Sym? ==> d.s < |lens| && k < lens[d.s] == d.bits && Rev(d.bits, w) == Code(lens, d.s)
    decreases BMAX - k
  {
    if k < BMAX {
      FindCodeSpec(lens, k + 1, Rev(k + 1, w), 0);
      DecodeSound(lens, w, k + 1);
    }
  }
}
