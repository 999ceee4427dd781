/** The 32K circular window of inflate.c and its flushing (misc.c), against LZ77 decoding on an
    unbounded history.
 */
module Window {
  import opened Crc

  const WSIZE: nat := 0x8000

  /** Append `n` bytes, each the one `dist` places back: the meaning of a length/distance pair
      (RFC 1951, section 3.2.3), overlapping itself when `dist < n`. */
  function Repeat(h: seq<bv8>, dist: nat, n: nat): (r: seq<bv8>)
    requires 1 <= dist <= |h|
    ensures |r| == |h| + n && h <= r
    decreases n
  {
    if n == 0 then h
    else
      var g := Repeat(h, dist, n - 1);
      g + [g[|g| - dist]]
  }

  lemma {:induction false} RepeatAdd(h: seq<bv8>, dist: nat, m: nat, n: nat)
    requires 1 <= dist <= |h|
    ensures Repeat(h, dist, m + n) == Repeat(Repeat(h, dist, m), dist, n)
    decreases n
  {
    if n > 0 {
      RepeatAdd(h, dist, m, n - 1);
    }
  }

  lemma {:induction false} RepeatNone(h: seq<bv8>, dist: nat)
    requires 1 <= dist <= |h|
    ensures Repeat(h, dist, 0) == h
  {
  }

  lemma {:induction false} RepeatNext(h: seq<bv8>, dist: nat, n: nat, g: seq<bv8>)
    requires 1 <= dist <= |h| && g == Repeat(h, dist, n)
    ensures Repeat(h, dist, n + 1) == g + [g[|g| - dist]]
  {
  }

  lemma {:induction false} RepeatOne(h: seq<bv8>, dist: nat)
    requires 1 <= dist <= |h|
    ensures Repeat(h, dist, 1) == h + [h[|h| - dist]]
  {
    assert Repeat(h, dist, 0) == h;
  }

  lemma {:induction false} SliceGrows(h: seq<bv8>, a: nat, b: nat)
    requires a <= b < |h|
    ensures h[a..b + 1] == h[a..b] + [h[b]]
  {
  }

  /** A copy that does not reach its own output is a plain copy of old bytes. */
  lemma {:induction false} RepeatPlain(h: seq<bv8>, dist: nat, n: nat)
    requires 1 <= dist <= |h| && n <= dist
    ensures Repeat(h, dist, n) == h + h[|h| - dist..|h| - dist + n]
    decreases n
  {
    if n > 0 {
      RepeatPlain(h, dist, n - 1);
      SliceGrows(h, |h| - dist, |h| - dist + n - 1);
    }
  }

  // ---- the ring ----------------------------------------------------------------------------

  /** Window content `s` with `w` bytes written since the last flush, `base` being everything
      before those: the rest of `s` is the oldest part of the last WSIZE bytes. */
  ghost predicate Ring(s: seq<bv8>, w: nat, base: seq<bv8>) {
    && |s| == WSIZE <= |base| && w <= WSIZE
    && forall q :: w <= q < WSIZE ==> s[q] == base[|base| - WSIZE + q]
  }

  /** `d` is the window position `dist` places back from `w`. */
  predicate Back(w: nat, d: nat, dist: nat) {
    d < WSIZE && 1 <= dist <= WSIZE && (d == w - dist || d == w - dist + WSIZE)
  }

  lemma {:induction false} ByteBack(s: seq<bv8>, w: nat, base: seq<bv8>, d: nat, dist: nat)
    requires Ring(s, w, base) && w < WSIZE && Back(w, d, dist)
    ensures var h := base + s[..w]; s[d] == h[|h| - dist]
  {
  }

  /** slide[w++] = c */
  lemma {:induction false} RingPut(s: seq<bv8>, w: nat, base: seq<bv8>, c: bv8)
    requires Ring(s, w, base) && w < WSIZE
    ensures var s' := s[w := c];
            Ring(s', w + 1, base) && base + s'[..w + 1] == base + s[..w] + [c]
  {
    assert s[w := c][..w + 1] == s[..w] + [c];
  }

  lemma {:induction false} RingCopyByte(s: seq<bv8>, w: nat, base: seq<bv8>, d: nat, dist: nat)
    requires Ring(s, w, base) && w < WSIZE && Back(w, d, dist)
    ensures var s' := s[w := s[d]];
            Ring(s', w + 1, base) && base + s'[..w + 1] == Repeat(base + s[..w], dist, 1)
  {
    ByteBack(s, w, base, d, dist);
    RingPut(s, w, base, s[d]);
    RepeatOne(base + s[..w], dist);
  }

  lemma {:induction false} BytesBack(s: seq<bv8>, w: nat, base: seq<bv8>, d: nat, e: nat, dist: nat)
    requires Ring(s, w, base) && Back(w, d, dist) && w + e <= WSIZE && d + e <= WSIZE
    requires w < d || w - d >= e
    ensures e <= dist <= |base + s[..w]|
    ensures var h := base + s[..w]; s[d..d + e] == h[|h| - dist..|h| - dist + e]
  {
  }

  lemma {:induction false} RingCopyBlock(s: seq<bv8>, s': seq<bv8>, w: nat, base: seq<bv8>, d: nat, e: nat, dist: nat)
    requires Ring(s, w, base) && Back(w, d, dist) && w + e <= WSIZE && d + e <= WSIZE
    requires w < d || w - d >= e
    requires s' == Moved(s, w, d, e)
    ensures Ring(s', w + e, base) && base + s'[..w + e] == Repeat(base + s[..w], dist, e)
  {
    BytesBack(s, w, base, d, e, dist);
    RepeatPlain(base + s[..w], dist, e);
    assert s'[..w + e] == s[..w] + s[d..d + e];
  }

  lemma {:induction false} RingFlush(s: seq<bv8>, base: seq<bv8>)
    requires |s| == WSIZE <= |base|
    ensures Ring(s, 0, base + s)
  {
  }

  /** `t` with `n` bytes at `src` put over those at `dst`. */
  function Moved(t: seq<bv8>, dst: nat, src: nat, n: nat): seq<bv8>
    requires dst + n <= |t| && src + n <= |t|
  {
    t[..dst] + t[src..src + n] + t[dst + n..]
  }

  lemma {:induction false} MovedNext(t: seq<bv8>, dst: nat, src: nat, n: nat, i: nat)
    requires dst + n <= |t| && src + n <= |t| && (dst < src || src + n <= dst) && i < n
    ensures Moved(t, dst, src, i)[src + i] == t[src + i]
    ensures Moved(t, dst, src, i)[dst + i := t[src + i]] == Moved(t, dst, src, i + 1)
  {
    SliceGrows(t, src, src + i);
  }

  /** memcpy of misc.c: ascending, so right whenever the destination is below the source or past
      its end. */
  method MemCpy(s: array<bv8>, dst: nat, src: nat, n: nat)
    requires dst + n <= s.Length && src + n <= s.Length && (dst < src || src + n <= dst)
    modifies s
    ensures s[..] == Moved(old(s[..]), dst, src, n)
  {
    ghost var t := s[..];
    assert Moved(t, dst, src, 0) == t;
    hide Moved;
    for i := 0 to n
      invariant s[..] == Moved(t, dst, src, i)
    {
      MovedNext(t, dst, src, n, i);
      assert s[src + i] == s[..][src + i];
      s[dst + i] := s[src + i];
    }
  }

  /** d &= WSIZE-1 */
  function Wrap(d: int): nat { d % WSIZE }

  lemma {:induction false} BackFirst(w: nat, dist: nat)
    requires w < WSIZE && 1 <= dist <= WSIZE
    ensures Back(w, Wrap(w - dist), dist)
  {
  }

  lemma {:induction false} BackNext(w: nat, d: nat, dist: nat, e: nat)
    requires Back(w, d, dist) && w + e <= WSIZE && d + e <= WSIZE
    ensures Back(if w + e == WSIZE then 0 else w + e, Wrap(d + e), dist)
  {
  }

  // ---- the window --------------------------------------------------------------------------

  class OutWindow {
    const slide: array<bv8>
    const crcTab: array<bv32>
    var wp: nat              // outcnt: bytes in the window not yet flushed
    var output: seq<bv8>     // output_data[0 .. output_ptr)
    var crc: bv32            // the crc shift register
    ghost const pre: seq<bv8>  // what the window held before any output

    /** Everything the window has ever held, in order. */
    ghost function History(): seq<bv8>
      reads this, slide
    {
      pre + output + if wp <= slide.Length then slide[..wp] else []
    }

    ghost predicate Valid()
      reads this, slide, crcTab
    {
      && slide.Length == WSIZE == |pre| && wp <= WSIZE
      && Table(crcTab[..]) && crc == Register(output)
      && Ring(slide[..], wp, pre + output)
    }

    constructor ()
      ensures fresh(slide) && fresh(crcTab)
      ensures Valid() && wp == 0 && output == []
    {
      var s := new bv8[WSIZE];
      slide := s;
      pre := s[..];
      var t := new bv32[256];
      crcTab := t;
      wp, output, crc := 0, [], START;
      new;
      MakeCrc(crcTab);
      assert pre + output == pre;
    }

    /** flush_window: update the crc, copy the window out. */
    method Flush()
      requires Valid()
      modifies this`wp, this`output, this`crc
      ensures output == old(output) + slide[..old(wp)] && wp == 0 && crc == Register(output)
      ensures old(wp) == WSIZE ==> Valid()
      ensures History() == old(History())
    {
      hide Table, Register;
      if wp == 0 {
        return;
      }
      crc := UpdCrc(crcTab, crc, slide, wp, output);
      ghost var base := pre + output;
      output := output + slide[..wp];
      assert pre + output == base + slide[..wp];
      if wp == WSIZE {
        RingFlush(slide[..], base);
        assert slide[..wp] == slide[..];
      }
      wp := 0;
    }

    /** slide[w++] = c, flushing a full window. */
    method Put(c: bv8)
      requires Valid() && wp < WSIZE
      modifies this`wp, this`output, this`crc, slide
      ensures Valid() && wp < WSIZE
      ensures History() == old(History()) + [c]
    {
      hide Table, Register, Ring;
      RingPut(slide[..], wp, pre + output, c);
      slide[wp] := c;
      wp := wp + 1;
      Stored(c);
      if wp == WSIZE {
        Flush();
      }
    }

    twostate lemma Stored(c: bv8)
      requires old(wp) < slide.Length && slide[..] == old(slide[..])[old(wp) := c]
      ensures slide[..old(wp) + 1] == old(slide[..])[old(wp) := c][..old(wp) + 1]
    {
    }

    /** The copy when memcpy() may be used. */
    method CopyBlock(d: nat, e: nat, ghost dist: nat)
      requires Valid() && Back(wp, d, dist) && wp + e <= WSIZE && d + e <= WSIZE
      requires wp < d || wp - d >= e
      modifies this`wp, slide
      ensures Valid() && wp == old(wp) + e
      ensures |old(History())| >= dist && History() == Repeat(old(History()), dist, e)
    {
      hide Table, Register, Ring, Repeat, Moved, Back;
      ghost var s := slide[..];
      assert slide[..wp] == s[..wp];
      BytesBack(s, wp, pre + output, d, e, dist);
      MemCpy(slide, wp, d, e);
      RingCopyBlock(s, slide[..], wp, pre + output, d, e, dist);
      wp := wp + e;
      assert slide[..wp] == slide[..][..wp];
    }

    /** slide[w++] = slide[d] */
    method CopyByte(d: nat, ghost dist: nat)
      requires Valid() && wp < WSIZE && Back(wp, d, dist)
      modifies this`wp, slide
      ensures Valid() && wp == old(wp) + 1
      ensures |old(History())| >= dist && History() == Repeat(old(History()), dist, 1)
    {
      hide Table, Register, Ring, Repeat;
      ghost var s := slide[..];
      assert slide[..wp] == s[..wp];
      RingCopyByte(s, wp, pre + output, d, dist);
      slide[wp] := slide[d];
      wp := wp + 1;
      assert slide[..] == s[wp - 1 := s[d]];
      assert slide[..wp] == slide[..][..wp];
    }

    /** The copy one byte at a time, where the bytes copied may be bytes just written. */
    method CopySlow(d: nat, e: nat, ghost dist: nat)
      requires Valid() && Back(wp, d, dist) && wp + e <= WSIZE && d + e <= WSIZE
      modifies this`wp, slide
      ensures Valid() && wp == old(wp) + e
      ensures |old(History())| >= dist && History() == Repeat(old(History()), dist, e)
    {
      Sizes();
      hide Valid, History;
      ghost var h := History();
      var i := 0;
      while i < e
        invariant 0 <= i <= e && wp == old(wp) + i && Valid()
        invariant History() == Repeat(h, dist, i)
      {
        CopyByte(d + i, dist);
        RepeatAdd(h, dist, i, 1);
        i := i + 1;
      }
    }

    /** One chunk, up to the end of the window or of the pair. */
    method CopyChunk(d: nat, e: nat, ghost dist: nat)
      requires Valid() && Back(wp, d, dist) && wp + e <= WSIZE && d + e <= WSIZE
      modifies this`wp, this`output, this`crc, slide
      ensures Valid() && wp == if old(wp) + e == WSIZE then 0 else old(wp) + e
      ensures |old(History())| >= dist && History() == Repeat(old(History()), dist, e)
    {
      Sizes();
      hide Valid, History, Repeat;
      if wp < d || wp - d >= e {  // unsigned w - d >= e
        CopyBlock(d, e, dist);
      } else {
        CopySlow(d, e, dist);
      }
      if wp == WSIZE {
        Flush();
      }
    }

    /** As much of the pair as fits before the end of the window. */
    method CopySome(d: nat, n: nat, ghost dist: nat) returns (e: nat)
      requires Valid() && wp < WSIZE && Back(wp, d, dist) && n > 0
      modifies this`wp, this`output, this`crc, slide
      ensures Valid() && wp < WSIZE && 0 < e <= n && Back(wp, Wrap(d + e), dist)
      ensures |old(History())| >= dist && History() == Repeat(old(History()), dist, e)
    {
      hide Valid, History, Repeat, Wrap;
      e := WSIZE - if d > wp then d else wp;
      if e > n {
        e := n;
      }
      BackNext(wp, d, dist, e);
      CopyChunk(d, e, dist);
    }

    /** The copy of a length/distance pair. */
    method Copy(dist: nat, len: nat)
      requires Valid() && wp < WSIZE && 1 <= dist <= WSIZE && len > 0
      modifies this`wp, this`output, this`crc, slide
      ensures Valid() && wp < WSIZE
      ensures |old(History())| >= WSIZE && History() == Repeat(old(History()), dist, len)
    {
      hide Valid, History, Wrap, Repeat, Back;
      Sizes();
      ghost var h := History();
      var n := len;
      var d: int := wp - dist;
      BackFirst(wp, dist);
      RepeatNone(h, dist);
      assert |h| >= WSIZE && 1 <= dist <= WSIZE;
      while n > 0
        invariant 0 <= n <= len && Valid() && wp < WSIZE
        invariant Back(wp, Wrap(d), dist)
        invariant History() == Repeat(h, dist, len - n)
        decreases n
      {
        d := Wrap(d);
        var e := CopySome(d, n, dist);
        RepeatAdd(h, dist, len - n, e);
        n := n - e;
        d := d + e;
      }
    }

    lemma {:induction false} Sizes()
      requires Valid()
      ensures slide.Length == WSIZE && wp <= WSIZE && |History()| >= WSIZE
    {
    }
  }
}
