/** block_read of fs/block_dev.c: a ring of buffers between what has been asked for and what has been
    delivered, for any device of whole blocks.
 */
module BlockRead {

  const NBUF: nat := 32

  type Byte = bv8

  // ---- the device --------------------------------------------------------------------------

  /** `n` bytes from offset `o` of block `b` on. */
  function Take(d: seq<seq<Byte>>, b: nat, o: nat, n: nat): (s: seq<Byte>)
    decreases n
  {
    if n == 0 || b >= |d| || o >= |d[b]| then []
    else if n <= |d[b]| - o then d[b][o..o + n]
    else d[b][o..] + Take(d, b + 1, 0, n - (|d[b]| - o))
  }

  ghost predicate Blocks(d: seq<seq<Byte>>, bs: nat) { bs > 0 && forall b :: 0 <= b < |d| ==> |d[b]| == bs }

  function Zeros(n: nat): (s: seq<Byte>)
    ensures |s| == n
  {
    seq(n, _ => 0)
  }

  /** What the buffers show: a block that getblk has no buffer for reads as zeros. */
  function Shown(d: seq<seq<Byte>>, present: nat -> bool): (s: seq<seq<Byte>>)
    ensures |s| == |d| && forall b :: 0 <= b < |d| ==> s[b] == if present(b) then d[b] else Zeros(|d[b]|)
  {
    seq(|d|, b requires 0 <= b < |d| => if present(b) then d[b] else Zeros(|d[b]|))
  }

  /** Reading goes on at `o` of block `b` after `read` bytes from the start. */
  ghost predicate Cursor(d: seq<seq<Byte>>, b0: nat, o0: nat, read: nat, b: nat, o: nat) {
    forall m: nat :: Ahead(d, b0, o0, read, b, o, m)
  }

  ghost predicate Ahead(d: seq<seq<Byte>>, b0: nat, o0: nat, read: nat, b: nat, o: nat, m: nat) {
    Take(d, b0, o0, read + m) == Take(d, b0, o0, read) + Take(d, b, o, m)
  }

  lemma {:induction false} CursorStart(d: seq<seq<Byte>>, b0: nat, o0: nat, read: nat, b: nat, o: nat)
    requires read == 0 && b0 == b && o0 == o
    ensures Cursor(d, b0, o0, read, b, o)
  {
    hide Take;
    TakeNone(d, b, o);
  }

  lemma {:induction false} TakeNone(d: seq<seq<Byte>>, b: nat, o: nat)
    ensures Take(d, b, o, 0) == []
  {
  }

  /** Some bytes of the block at the cursor. */
  lemma {:induction false} CursorRead(d: seq<seq<Byte>>, b0: nat, o0: nat, read: nat, b: nat, o: nat, n: nat)
    requires Cursor(d, b0, o0, read, b, o) && b < |d| && o < |d[b]| && n <= |d[b]| - o
    ensures Take(d, b0, o0, read + n) == Take(d, b0, o0, read) + d[b][o..o + n]
  {
    assert Take(d, b, o, n) == d[b][o..o + n];
    hide Take;
    assert Ahead(d, b0, o0, read, b, o, n);
  }

  /** The rest of the block at the cursor. */
  lemma {:induction false} CursorNext(d: seq<seq<Byte>>, b0: nat, o0: nat, read: nat, b: nat, o: nat)
    requires Cursor(d, b0, o0, read, b, o) && b < |d| && o < |d[b]|
    ensures Cursor(d, b0, o0, read + (|d[b]| - o), b + 1, 0)
  {
    if !Cursor(d, b0, o0, read + (|d[b]| - o), b + 1, 0) {
      var m: nat :| !Ahead(d, b0, o0, read + (|d[b]| - o), b + 1, 0, m);
      CursorAfter(d, b0, o0, read, b, o, m);
      assert false;
    }
  }

  lemma {:induction false} CursorAfter(d: seq<seq<Byte>>, b0: nat, o0: nat, read: nat, b: nat, o: nat, m: nat)
    requires Cursor(d, b0, o0, read, b, o) && b < |d| && o < |d[b]|
    ensures var n := |d[b]| - o;
      Take(d, b0, o0, (read + n) + m) == Take(d, b0, o0, read + n) + Take(d, b + 1, 0, m)
  {
    hide Take;
    var n := |d[b]| - o;
    CursorRead(d, b0, o0, read, b, o, n);
    assert Ahead(d, b0, o0, read, b, o, n + m);
    TakeRest(d, b, o, m);
  }

  lemma {:induction false} TakeRest(d: seq<seq<Byte>>, b: nat, o: nat, m: nat)
    requires b < |d| && o < |d[b]|
    ensures Take(d, b, o, |d[b]| - o + m) == d[b][o..] + Take(d, b + 1, 0, m)
  {
    if m == 0 {
      assert d[b][o..|d[b]|] == d[b][o..];
    }
  }

  // ---- buffers -----------------------------------------------------------------------------

  /** A buffer head for a block, or NULL. */
  datatype Buf = None | Buf(block: nat)

  /** The buffer cache. `readable` says which blocks the device can read, and `answers` stand for
      what else is outside: whether a buffer is up to date already, and whether it is locked. `held`
      are the buffers the caller has not released. */
  class Cache {
    const disk: seq<seq<Byte>>
    const present: nat -> bool
    const readable: nat -> bool
    const answers: nat -> bool
    var clock: nat
    ghost var held: set<nat>

    constructor (disk: seq<seq<Byte>>, present: nat -> bool, readable: nat -> bool, answers: nat -> bool)
      ensures this.disk == disk && this.present == present && this.readable == readable && held == {}
    {
      this.disk, this.present, this.readable, this.answers := disk, present, readable, answers;
      clock, held := 0, {};
    }

    method Ask() returns (r: bool)
      modifies `clock
      ensures r == answers(old(clock)) && clock == old(clock) + 1
    {
      r, clock := answers(clock), clock + 1;
    }

    /** Whether a block is in its buffer before it is asked for. */
    method UpToDate(block: nat) returns (r: bool)
      modifies `clock
      ensures r <==> answers(old(clock)) && readable(block)
      ensures clock == old(clock) + 1
    {
      r := Ask();
      r := r && readable(block);
    }

    method Getblk(block: nat) returns (b: Buf)
      requires block < |disk| && block !in held
      modifies `held
      ensures b == (if present(block) then Buf(block) else None)
      ensures held == if present(block) then old(held) + {block} else old(held)
    {
      b := None;
      if present(block) {
        b, held := Buf(block), held + {block};
      }
    }

    /** A buffer can be released once. */
    method Brelse(b: Buf)
      requires b.Buf? ==> b.block in held
      modifies `held
      ensures held == if b.Buf? then old(held) - {b.block} else old(held)
    {
      if b.Buf? {
        held := held - {b.block};
      }
    }
  }

  // ---- the ring ----------------------------------------------------------------------------

  /** The next slot. */
  function Step(i: nat): (r: nat)
    ensures r < NBUF
  {
    if i + 1 >= NBUF then 0 else i + 1
  }

  function Slot(bhe: nat, k: nat): (r: nat)
    ensures r < NBUF
  {
    (bhe + k) % NBUF
  }

  lemma {:induction false} SlotStep(bhe: nat, k: nat)
    requires bhe < NBUF
    ensures Slot(Step(bhe), k) == Slot(bhe, k + 1) && Step(Slot(bhe, k)) == Slot(bhe, k + 1) && Slot(bhe, 0) == bhe
  {
    Turn(bhe + k);
    if bhe + 1 == NBUF {
      Turn(k);
      assert bhe + k + 1 == k + NBUF;
    }
  }

  lemma {:induction false} Wrapped(q: nat, r: nat)
    requires r < NBUF
    ensures (NBUF * q + r) % NBUF == r
  {
  }

  lemma {:induction false} Turn(x: nat)
    ensures (x + 1) % NBUF == if x % NBUF + 1 == NBUF then 0 else x % NBUF + 1
    ensures (x + NBUF) % NBUF == x % NBUF
  {
    var q, r := x / NBUF, x % NBUF;
    Wrapped(q, r);
    Wrapped(q + 1, r);
    Wrapped(if r + 1 == NBUF then q + 1 else q, if r + 1 == NBUF then 0 else r + 1);
  }

  /** Slots less than a turn apart are different; a whole turn comes back. */
  lemma {:induction false} SlotsDiffer(bhe: nat, k: nat, n: nat)
    requires bhe < NBUF && k < n
    ensures n < NBUF ==> Slot(bhe, k) != Slot(bhe, n)
    ensures Slot(bhe, NBUF) == bhe
  {
  }

  function BufOf(present: nat -> bool, block: nat): Buf { if present(block) then Buf(block) else None }

  /** The `n` slots from `bhe` on hold the buffers of blocks `first`, `first + 1`, and so on. */
  ghost predicate RingOk(buflist: seq<Buf>, bhe: nat, n: nat, first: nat, present: nat -> bool) {
    |buflist| == NBUF && bhe < NBUF && n <= NBUF
    && forall k: nat :: k < n ==> buflist[Slot(bhe, k)] == BufOf(present, first + k)
  }

  /** The buffers in the ring. */
  ghost function Held(present: nat -> bool, first: nat, n: nat): set<nat> {
    set b | first <= b < first + n && present(b)
  }

  lemma {:induction false} RingPut(buflist: seq<Buf>, bhe: nat, n: nat, first: nat, present: nat -> bool, b: Buf)
    requires RingOk(buflist, bhe, n, first, present) && n < NBUF && b == BufOf(present, first + n)
    ensures RingOk(buflist[Slot(bhe, n) := b], bhe, n + 1, first, present)
    ensures Held(present, first, n + 1) == Held(present, first, n) + (if b.Buf? then {first + n} else {})
    ensures first + n !in Held(present, first, n)
  {
    hide Slot;
    forall k: nat | k < n
      ensures buflist[Slot(bhe, n) := b][Slot(bhe, k)] == BufOf(present, first + k)
    {
      SlotsDiffer(bhe, k, n);
    }
  }

  lemma {:induction false} RingTake(buflist: seq<Buf>, bhe: nat, n: nat, first: nat, present: nat -> bool)
    requires RingOk(buflist, bhe, n, first, present) && n > 0
    ensures buflist[bhe] == BufOf(present, first)
    ensures RingOk(buflist, Step(bhe), n - 1, first + 1, present)
    ensures Held(present, first + 1, n - 1) == Held(present, first, n) - {first}
    ensures present(first) <==> first in Held(present, first, n)
  {
    SlotStep(bhe, 0);
    hide Slot, Step;
    assert buflist[Slot(bhe, 0)] == BufOf(present, first + 0);
    forall k: nat | k < n - 1
      ensures buflist[Slot(Step(bhe), k)] == BufOf(present, first + 1 + k)
    {
      SlotStep(bhe, k);
      assert buflist[Slot(bhe, k + 1)] == BufOf(present, first + (k + 1));
    }
  }

  // ---- bytes and blocks --------------------------------------------------------------------

  function Bytes(n: nat, bs: nat): nat { n * bs }

  lemma {:induction false} BytesStep(n: nat, bs: nat)
    ensures Bytes(n + 1, bs) == Bytes(n, bs) + bs && Bytes(0, bs) == 0
  {
  }

  lemma {:induction false} BytesOrder(m: nat, n: nat, bs: nat)
    requires bs > 0
    ensures m <= n <==> Bytes(m, bs) <= Bytes(n, bs)
    ensures Bytes(m + n, bs) == Bytes(m, bs) + Bytes(n, bs)
  {
    if m <= n {
      assert n * bs == m * bs + (n - m) * bs;
    } else {
      assert m * bs == n * bs + (m - n) * bs;
    }
  }

  lemma {:induction false} DivBytes(x: nat, bs: nat)
    requires bs > 0
    ensures Bytes(x / bs, bs) + x % bs == x && x % bs < bs
  {
  }

  /** How many blocks to ask for (lines 121-130): enough, and none past the end. */
  lemma {:induction false} Plan(total: nat, bs: nat, pos: nat, left: nat, extra: nat)
    requires bs > 0 && pos + left <= Bytes(total, bs) && left > 0
    ensures var block, offset := pos / bs, pos % bs;
      var blocks := (left + offset + bs - 1) / bs;
      && block + blocks <= total
      && Bytes(blocks, bs) >= left + offset
      && (block + (blocks + extra) > total ==> Bytes(total - block, bs) >= left + offset)
      && Bytes(blocks + extra, bs) >= left + offset
  {
    hide Bytes;
    var block, offset := pos / bs, pos % bs;
    var sum := left + offset + bs - 1;
    var blocks := sum / bs;
    DivBytes(pos, bs);
    DivBytes(sum, bs);
    BytesOrder(block, blocks, bs);
    BytesOrder(blocks, extra, bs);
    Fits(total, bs, block, blocks, offset, left);
    if block <= total {
      BytesOrder(block, total - block, bs);
    }
  }

  lemma {:induction false} Fits(total: nat, bs: nat, block: nat, blocks: nat, offset: nat, left: nat)
    requires bs > 0 && left > 0 && Bytes(block, bs) + offset + left <= Bytes(total, bs)
    requires Bytes(blocks, bs) <= left + offset + bs - 1
    ensures block + blocks <= total
  {
    hide Bytes;
    BytesOrder(block, blocks, bs);
    BytesStep(total, bs);
    BytesOrder(total + 1, block + blocks, bs);
  }

  /** A byte's block. */
  lemma {:induction false} BlockOf(x: nat, bs: nat, lo: nat, hi: nat)
    requires bs > 0 && Bytes(lo, bs) <= x < Bytes(hi, bs)
    ensures lo <= x / bs < hi
  {
    hide Bytes;
    DivBytes(x, bs);
    BytesStep(x / bs, bs);
    BytesOrder(hi, x / bs, bs);
    BytesOrder(x / bs + 1, lo, bs);
  }

  // ---- block_read --------------------------------------------------------------------------

  /** Block `b` does not stop the reading: its buffer can be read, or there is none and it counts as
      zeros. */
  predicate Good(present: nat -> bool, readable: nat -> bool, b: nat) { present(b) ==> readable(b) }

  predicate GoodAt(present: nat -> bool, readable: nat -> bool, bs: nat, i: nat)
    requires bs > 0
  {
    Good(present, readable, i / bs)
  }

  ghost predicate AllGood(present: nat -> bool, readable: nat -> bool, lo: nat, hi: nat) {
    forall b :: lo <= b < hi ==> Good(present, readable, b)
  }

  datatype Result = Empty | IoError | Read(bytes: seq<Byte>)

  /** The first stage (lines 143-162): buffers are asked for while there is room, up to the first
      one that can be used at once. */
  method Fill(c: Cache, buflist: array<Buf>, bhb0: nat, bhe: nat, block0: nat, blocks0: nat, ghost n0: nat,
              ghost held0: set<nat>)
    returns (bhb: nat, block: nat, blocks: nat, ghost n: nat)
    requires buflist.Length == NBUF && bhe < NBUF && n0 < NBUF && bhb0 == Slot(bhe, n0) && n0 <= block0
    requires RingOk(buflist[..], bhe, n0, block0 - n0, c.present) && block0 + blocks0 <= |c.disk|
    requires c.held == held0 + Held(c.present, block0 - n0, n0) && forall b :: b in held0 ==> b < block0 - n0
    modifies c, buflist
    ensures n0 <= n <= NBUF && n - n0 == blocks0 - blocks == block - block0 && bhb == Slot(bhe, n)
    ensures RingOk(buflist[..], bhe, n, block0 - n0, c.present)
    ensures c.held == held0 + Held(c.present, block0 - n0, n)
    ensures blocks0 > 0 ==> n > n0
    ensures blocks > 0 && n < NBUF ==>
      n == n0 + 1 && (c.present(block0) ==> old(c.answers(c.clock)) && c.readable(block0))
  {
    hide RingOk, Held, Slot, Step;
    bhb, block, blocks, n := bhb0, block0, blocks0, n0;
    ghost var first := block0 - n0;
    var uptodate := true;
    while blocks > 0
      invariant n0 <= n < NBUF && n - n0 == blocks0 - blocks == block - block0 && bhb == Slot(bhe, n)
      invariant RingOk(buflist[..], bhe, n, first, c.present)
      invariant c.held == held0 + Held(c.present, first, n)
      invariant uptodate ==> n == n0 && c.clock == old(c.clock)
      decreases blocks
    {
      blocks := blocks - 1;
      RingPut(buflist[..], bhe, n, first, c.present, BufOf(c.present, block));
      var b := c.Getblk(block);
      ghost var s := buflist[..];
      buflist[bhb] := b;
      assert buflist[..] == s[bhb := b];
      block := block + 1;
      var ready := c.UpToDate(block - 1);
      if b.Buf? && !ready {
        uptodate := false;
      }
      SlotStep(bhe, n);
      SlotsDiffer(bhe, n, NBUF);
      if n + 1 < NBUF {
        SlotsDiffer(bhe, 0, n + 1);
      }
      bhb, n := Step(bhb), n + 1;
      if uptodate {
        break;
      }
      if bhb == bhe {
        break;
      }
    }
  }

  /** Where delivery stands: `out` are the bytes from (`b0`, `o0`) on, and if more are wanted they
      follow at (`first`, `offset`). */
  ghost predicate Delivered(d: seq<seq<Byte>>, bs: nat, b0: nat, o0: nat, out: seq<Byte>, left: nat, first: nat,
                            offset: nat) {
    && out == Take(d, b0, o0, |out|) && (left > 0 ==> offset < bs && Cursor(d, b0, o0, |out|, first, offset))
  }

  /** One block's bytes, or as many as are wanted. */
  lemma {:induction false} DeliverKeeps(d: seq<seq<Byte>>, bs: nat, b0: nat, o0: nat, out: seq<Byte>, left: nat,
                                        first: nat, offset: nat)
    requires Blocks(d, bs) && first < |d| && left > 0 && Delivered(d, bs, b0, o0, out, left, first, offset)
    ensures var chars := if left < bs - offset then left else bs - offset;
      && offset < bs && |d[first]| == bs
      && Delivered(d, bs, b0, o0, out + d[first][offset..offset + chars], left - chars, first + 1, 0)
  {
    hide Take;
    var chars := if left < bs - offset then left else bs - offset;
    CursorRead(d, b0, o0, |out|, first, offset, chars);
    CursorNext(d, b0, o0, |out|, first, offset);
    hide Cursor;
  }

  /** Lines 169-194: the buffer at hand is waited for, delivered and released; or only released, if it
      could not be read. */
  method DeliverBuffer(c: Cache, b: Buf, bs: nat, left0: nat, offset0: nat, out0: seq<Byte>,
                       ghost first: nat, ghost b0: nat, ghost o0: nat)
    returns (left: nat, offset: nat, out: seq<Byte>, failed: bool)
    requires b == BufOf(c.present, first) && first < |c.disk| && Blocks(c.disk, bs) && (b.Buf? ==> first in c.held)
    requires left0 > 0 && Delivered(Shown(c.disk, c.present), bs, b0, o0, out0, left0, first, offset0)
    modifies c`held
    ensures c.held == old(c.held) - (if c.present(first) then {first} else {})
    ensures offset0 < bs && failed == !Good(c.present, c.readable, first)
    ensures failed ==> left == 0 && offset == offset0 && out == out0
    ensures !failed ==>
      && offset == 0 && |out| + left == |out0| + left0
      && left == left0 - if left0 < bs - offset0 then left0 else bs - offset0
    ensures Delivered(Shown(c.disk, c.present), bs, b0, o0, out, left, first + 1, offset)
  {
    hide Delivered, Shown;
    ghost var d := Shown(c.disk, c.present);
    ShownBlocks(c.disk, c.present, bs);
    Inside(d, bs, b0, o0, out0, left0, first, offset0);
    left, offset, out, failed := left0, offset0, out0, b.Buf? && !c.readable(b.block);
    if failed {
      left := 0;
      StopHere(d, bs, b0, o0, out, first, offset, first + 1);
    } else {
      DeliverKeeps(d, bs, b0, o0, out, left, first, offset);
      ShownAt(c.disk, c.present, bs, first, b);
      var chars := if left < bs - offset then left else bs - offset;
      out := out + if b.Buf? then c.disk[b.block][offset..offset + chars] else Zeros(chars);
      left, offset := left - chars, 0;
    }
    c.Brelse(b);
  }

  /** Releasing the first buffer of the ring. */
  lemma {:induction false} HeldLess(present: nat -> bool, held0: set<nat>, first: nat, n: nat)
    requires n > 0 && forall b :: b in held0 ==> b < first
    ensures held0 + Held(present, first, n) - (if present(first) then {first} else {})
      == held0 + Held(present, first + 1, n - 1)
    ensures present(first) ==> first in held0 + Held(present, first, n)
  {
  }

  /** The second stage (lines 168-197): what is there is delivered, until a buffer is still locked,
      none is left, or one could not be read. */
  method Drain(c: Cache, buflist: array<Buf>, bhe0: nat, bhb: nat, bs: nat, left0: nat, offset0: nat, out0: seq<Byte>,
               ghost n0: nat, ghost first0: nat, ghost held0: set<nat>, ghost b0: nat, ghost o0: nat)
    returns (bhe: nat, left: nat, offset: nat, out: seq<Byte>, ghost n: nat, ghost first: nat, failed: bool)
    requires buflist.Length == NBUF && left0 > 0 && 0 < n0 && bhb == Slot(bhe0, n0)
    requires RingOk(buflist[..], bhe0, n0, first0, c.present) && first0 + n0 <= |c.disk| && Blocks(c.disk, bs)
    requires c.held == held0 + Held(c.present, first0, n0) && forall b :: b in held0 ==> b < first0
    requires Delivered(Shown(c.disk, c.present), bs, b0, o0, out0, left0, first0, offset0)
    requires offset0 > 0 ==> out0 == []
    modifies c
    ensures n < n0 && first - first0 == n0 - n && bhb == Slot(bhe, n)
    ensures RingOk(buflist[..], bhe, n, first, c.present) && c.held == held0 + Held(c.present, first, n)
    ensures Delivered(Shown(c.disk, c.present), bs, b0, o0, out, left, first, offset)
    ensures left > 0 && n > 0 && !failed ==> c.present(first) && c.clock > 0 && c.answers(c.clock - 1)
    ensures left < left0 && (!failed ==> |out| + left == |out0| + left0) && |out| + left <= |out0| + left0
    ensures left > 0 ==> left + Bytes(first - first0, bs) == left0 + offset0
    ensures !failed ==> AllGood(c.present, c.readable, first0, first) && offset == 0
    ensures !failed ==> |out| + offset0 <= |out0| + Bytes(first - first0, bs)
    ensures failed ==>
      && left == 0 && first > first0 && AllGood(c.present, c.readable, first0, first - 1)
      && !Good(c.present, c.readable, first - 1) && offset < bs && (offset > 0 ==> out == [])
      && |out| + offset0 == |out0| + Bytes(first - 1 - first0, bs) + offset
  {
    hide RingOk, Held, Slot, Step, Delivered, Shown, Bytes, Good, AllGood;
    ghost var d := Shown(c.disk, c.present);
    NoneBad(c.present, c.readable, first0);
    bhe, left, offset, out, n, first, failed := bhe0, left0, offset0, out0, n0, first0, false;
    BytesStep(0, bs);
    while true
      invariant 0 < n <= n0 && first - first0 == n0 - n && bhb == Slot(bhe, n)
      invariant RingOk(buflist[..], bhe, n, first, c.present) && c.held == held0 + Held(c.present, first, n)
      invariant 0 < left <= left0 && |out| + left == |out0| + left0
      invariant Delivered(d, bs, b0, o0, out, left, first, offset)
      invariant left + offset + Bytes(first - first0, bs) == left0 + offset0
      invariant !failed && (offset > 0 ==> out == []) && AllGood(c.present, c.readable, first0, first)
      decreases left
    {
      RingTake(buflist[..], bhe, n, first, c.present);
      RingSizes(buflist[..], bhe, n, first, c.present);
      SlotStep(bhe, n - 1);
      HeldLess(c.present, held0, first, n);
      BytesStep(first - first0, bs);
      OneMoreGood(c.present, c.readable, first0, first);
      left, offset, out, failed := DeliverBuffer(c, buflist[bhe], bs, left, offset, out, first, b0, o0);
      bhe, n, first := Step(bhe), n - 1, first + 1;
      if failed {
        return;
      }
      if left == 0 || bhe == bhb {
        EmptyRing(bhe, bhb, n);
        return;
      }
      NotEmpty(bhe, bhb, n);
      RingTake(buflist[..], bhe, n, first, c.present);
      var locked := c.Ask();
      if buflist[bhe].Buf? && locked {
        return;
      }
    }
  }

  lemma {:induction false} RingSizes(buflist: seq<Buf>, bhe: nat, n: nat, first: nat, present: nat -> bool)
    requires RingOk(buflist, bhe, n, first, present)
    ensures bhe < NBUF && n <= NBUF
  {
  }

  /** With fewer than a ring of buffers, equal pointers mean none. */
  lemma {:induction false} EmptyRing(bhe: nat, bhb: nat, n: nat)
    requires bhe < NBUF && n < NBUF && bhb == Slot(bhe, n)
    ensures bhe == bhb <==> n == 0
  {
  }

  lemma {:induction false} NotEmpty(bhe: nat, bhb: nat, n: nat)
    requires bhe < NBUF && n < NBUF && bhb == Slot(bhe, n) && bhe != bhb
    ensures n > 0
  {
  }

  lemma {:induction false} OneMoreGood(present: nat -> bool, readable: nat -> bool, lo: nat, b: nat)
    ensures AllGood(present, readable, lo, b) && Good(present, readable, b) ==> AllGood(present, readable, lo, b + 1)
  {
  }

  lemma {:induction false} Inside(d: seq<seq<Byte>>, bs: nat, b0: nat, o0: nat, out: seq<Byte>, left: nat, first: nat,
                                  offset: nat)
    requires Delivered(d, bs, b0, o0, out, left, first, offset) && left > 0
    ensures offset < bs
  {
    hide Cursor, Take;
  }

  lemma {:induction false} StopHere(d: seq<seq<Byte>>, bs: nat, b0: nat, o0: nat, out: seq<Byte>, first: nat,
                                    offset: nat, first': nat)
    requires exists left: nat :: Delivered(d, bs, b0, o0, out, left, first, offset)
    ensures Delivered(d, bs, b0, o0, out, 0, first', offset)
  {
    hide Take, Cursor;
  }

  lemma {:induction false} ShownBlocks(disk: seq<seq<Byte>>, present: nat -> bool, bs: nat)
    requires Blocks(disk, bs)
    ensures Blocks(Shown(disk, present), bs) && |Shown(disk, present)| == |disk|
  {
  }

  lemma {:induction false} ShownAt(disk: seq<seq<Byte>>, present: nat -> bool, bs: nat, b: nat, buf: Buf)
    requires Blocks(disk, bs) && b < |disk| && buf == BufOf(present, b)
    ensures buf.Buf? ==> Shown(disk, present)[b] == disk[b] && buf.block == b && |disk[b]| == bs
    ensures forall i, j :: 0 <= i <= j <= bs && !buf.Buf? ==> Shown(disk, present)[b][i..j] == Zeros(j - i)
  {
  }

  lemma {:induction false} StartDelivery(d: seq<seq<Byte>>, bs: nat, b: nat, o: nat, left: nat)
    requires o < bs
    ensures Delivered(d, bs, b, o, [], left, b, o)
  {
    CursorStart(d, b, o, 0, b, o);
    TakeNone(d, b, o);
    hide Take, Cursor;
  }

  lemma {:induction false} FirstLost(disk: seq<seq<Byte>>, bs: nat, pos: nat)
    requires bs > 0 && pos < Bytes(|disk|, bs)
    ensures pos / bs < |disk|
  {
    hide Bytes;
    DivBytes(pos, bs);
    BytesOrder(|disk|, pos / bs, bs);
  }

  /** Lines 201-205: the blocks read ahead are released. */
  method ReleaseAll(c: Cache, buflist: array<Buf>, bhe0: nat, bhb: nat, ghost n0: nat, ghost first0: nat)
    requires buflist.Length == NBUF && n0 < NBUF && bhe0 < NBUF && bhb == Slot(bhe0, n0)
    requires RingOk(buflist[..], bhe0, n0, first0, c.present) && c.held == Held(c.present, first0, n0)
    modifies c
    ensures c.held == {}
  {
    hide RingOk, Held, Slot, Step;
    var bhe: nat := bhe0;
    ghost var n: nat, first: nat := n0, first0;
    while bhe != bhb
      invariant n < NBUF && bhe < NBUF && bhb == Slot(bhe, n)
      invariant RingOk(buflist[..], bhe, n, first, c.present) && c.held == Held(c.present, first, n)
      decreases n
    {
      NotEmpty(bhe, bhb, n);
      RingTake(buflist[..], bhe, n, first, c.present);
      SlotStep(bhe, n - 1);
      c.Brelse(buflist[bhe]);
      bhe, n, first := Step(bhe), n - 1, first + 1;
    }
    EmptyRing(bhe, bhb, n);
    NoneHeld(c.present, first);
  }

  /** The bytes that a reading of at most `count` from `pos` on is to deliver. */
  function Wanted(size: nat, pos: nat, count: nat): nat {
    if pos > size then 0 else if size - pos > count then count else size - pos
  }

  /** `n` of the bytes wanted from `pos` on are all those before the first block that stops the
      reading. */
  ghost predicate UpToBad(present: nat -> bool, readable: nat -> bool, bs: nat, pos: nat, want: nat, n: nat)
    requires bs > 0
  {
    && n <= want && (forall i: nat :: pos <= i < pos + n ==> GoodAt(present, readable, bs, i))
    && (n < want ==> !GoodAt(present, readable, bs, pos + n))
  }

  /** There is only one such number. */
  lemma {:induction false} UpToBadOnce(present: nat -> bool, readable: nat -> bool, bs: nat, pos: nat, want: nat,
                                       n: nat, n': nat)
    requires bs > 0 && UpToBad(present, readable, bs, pos, want, n) && UpToBad(present, readable, bs, pos, want, n')
    ensures n == n'
  {
    hide GoodAt;
  }

  /** The two stages over and over (lines 133-210), from `pos` on for `want` bytes, with `blocks0` blocks
      to ask for. */
  method ReadBlocks(c: Cache, bs: nat, pos: nat, want: nat, blocks0: nat) returns (out: seq<Byte>)
    requires Blocks(c.disk, bs) && c.held == {} && want > 0
    requires pos / bs + blocks0 <= |c.disk| && Bytes(blocks0, bs) >= want + pos % bs
    modifies c
    ensures c.held == {} && UpToBad(c.present, c.readable, bs, pos, want, |out|)
    ensures out == Take(Shown(c.disk, c.present), pos / bs, pos % bs, |out|)
  {
    hide RingOk, Held, Slot, Delivered, Shown, Bytes, Take, Good, AllGood, UpToBad;
    var left: nat, blocks: nat, failed := want, blocks0, false;
    ghost var d, b0, o0 := Shown(c.disk, c.present), pos / bs, pos % bs;
    var block: nat, offset: nat := pos / bs, pos % bs;
    var buflist := new Buf[NBUF](_ => None);
    var bhb: nat, bhe: nat := 0, 0;
    out := [];
    ghost var n: nat, first: nat := 0, block;
    StartRing(buflist[..], first, c.present);
    StartDelivery(d, bs, b0, o0, left);
    NoneBad(c.present, c.readable, b0);
    BytesStep(0, bs);
    while left > 0
      invariant n < NBUF && bhe < NBUF && bhb == Slot(bhe, n) && block == first + n
      invariant RingOk(buflist[..], bhe, n, first, c.present) && c.held == Held(c.present, first, n)
      invariant block + blocks <= |c.disk| && (left > 0 ==> Bytes(n + blocks, bs) >= left + offset)
      invariant Delivered(d, bs, b0, o0, out, left, first, offset)
      invariant |out| + left <= want && (!failed ==> |out| + left == want) && b0 <= first && (offset > 0 ==> out == [])
      invariant left > 0 ==> o0 + |out| == Bytes(first - b0, bs) + offset
      invariant !failed ==>
        AllGood(c.present, c.readable, b0, first) && (left == 0 ==> o0 + |out| <= Bytes(first - b0, bs))
      invariant failed ==>
        && left == 0 && b0 < first && AllGood(c.present, c.readable, b0, first - 1)
        && !Good(c.present, c.readable, first - 1) && offset < bs && o0 + |out| == Bytes(first - 1 - b0, bs) + offset
      decreases left
    {
      ghost var held: set<nat> := {};
      assert held + Held(c.present, first, n) == Held(c.present, first, n);
      ghost var m, asked := n, blocks;
      bhb, block, blocks, n := Fill(c, buflist, bhb, bhe, block, blocks, n, held);
      assert held + Held(c.present, first, n) == Held(c.present, first, n);
      SomethingThere(m, asked, n, bs, left, offset);
      ghost var first0 := first;
      bhe, left, offset, out, n, first, failed :=
        Drain(c, buflist, bhe, bhb, bs, left, offset, out, n, first, held, b0, o0);
      assert held + Held(c.present, first, n) == Held(c.present, first, n);
      Covered(first - first0, n + blocks, bs);
      Covered(first0 - b0, first - first0, bs);
      AllGoodJoin(c.present, c.readable, b0, first0, first);
      if failed {
        Covered(first0 - b0, first - 1 - first0, bs);
        AllGoodJoin(c.present, c.readable, b0, first0, first - 1);
      }
      RingSizes(buflist[..], bhe, n, first, c.present);
    }
    ReleaseAll(c, buflist, bhe, bhb, n, first);
    ItIs(d, bs, b0, o0, out, left, first, offset);
    if failed {
      StoppedAt(c.present, c.readable, bs, pos, want, |out|, first - 1, offset);
    } else {
      AllRead(c.present, c.readable, bs, pos, want, first);
    }
  }

  /** block_read (lines 97-210) from position `pos` for at most `count` bytes; `ahead` is the number
      of blocks to read ahead. The bytes read are the device's, exactly those up to the first block
      that cannot be read, and every buffer is released. */
  method Read(c: Cache, bs: nat, pos: nat, count: nat, ahead: nat) returns (r: Result)
    requires Blocks(c.disk, bs) && c.held == {}
    modifies c
    ensures c.held == {}
    ensures var want := Wanted(Bytes(|c.disk|, bs), pos, count);
      var n := if r.Read? then |r.bytes| else 0;
      && UpToBad(c.present, c.readable, bs, pos, want, n)
      && (r.Empty? <==> want == 0) && (r.IoError? <==> n == 0 < want)
      && (r.Read? ==> r.bytes == Take(Shown(c.disk, c.present), pos / bs, pos % bs, n))
    ensures r.Read? ==> AreAt(c.disk, c.present, bs, pos, r.bytes)
  {
    hide Shown, Bytes, Take, UpToBad, AreAt;
    var size := Bytes(|c.disk|, bs);
    var left: nat := if pos > size then 0 else size - pos;
    if left > count {
      left := count;
    }
    NothingWanted(c.present, c.readable, bs, pos);
    if left == 0 {
      return Empty;
    }
    Plan(|c.disk|, bs, pos, left, ahead);
    FirstLost(c.disk, bs, pos);
    var block: nat, offset: nat := pos / bs, pos % bs;
    var blocks: nat := (left + offset + bs - 1) / bs;
    if ahead > 0 {
      blocks := blocks + ahead;
      if block + blocks > |c.disk| {
        blocks := |c.disk| - block;
      }
    }
    var out := ReadBlocks(c, bs, pos, left, blocks);
    r := if |out| == 0 then IoError else Result.Read(out);
    Within(c.present, c.readable, bs, pos, left, |out|);
    TakenAre(c.disk, c.present, bs, pos, out);
  }

  /** The bytes are those from `pos` on, of a block that there is no buffer for zeros. */
  ghost predicate AreAt(disk: seq<seq<Byte>>, present: nat -> bool, bs: nat, pos: nat, bytes: seq<Byte>)
    requires Blocks(disk, bs)
  {
    forall i: nat :: i < |bytes| ==> IsAt(disk, present, bs, pos + i, bytes[i])
  }

  ghost predicate IsAt(disk: seq<seq<Byte>>, present: nat -> bool, bs: nat, at: nat, v: Byte)
    requires Blocks(disk, bs)
  {
    at / bs < |disk| && v == if present(at / bs) then disk[at / bs][at % bs] else 0
  }

  lemma {:induction false} TakenAre(disk: seq<seq<Byte>>, present: nat -> bool, bs: nat, pos: nat, out: seq<Byte>)
    requires Blocks(disk, bs) && pos + |out| <= Bytes(|disk|, bs)
    requires out == Take(Shown(disk, present), pos / bs, pos % bs, |out|)
    ensures AreAt(disk, present, bs, pos, out)
  {
    hide Take, Bytes;
    ShownBlocks(disk, present, bs);
    forall i: nat | i < |out|
      ensures IsAt(disk, present, bs, pos + i, out[i])
    {
      ByteAt(Shown(disk, present), bs, pos, |out|, i);
    }
  }

  lemma {:induction false} Within(present: nat -> bool, readable: nat -> bool, bs: nat, pos: nat, want: nat, n: nat)
    requires bs > 0 && UpToBad(present, readable, bs, pos, want, n)
    ensures n <= want
  {
  }

  /** Byte `i` of a reading at `pos` is byte `pos + i` of the device, wherever the blocks begin. */
  lemma {:induction false} ByteAt(d: seq<seq<Byte>>, bs: nat, pos: nat, n: nat, i: nat)
    requires Blocks(d, bs) && pos + n <= Bytes(|d|, bs) && i < n
    ensures (pos + i) / bs < |d| && |Take(d, pos / bs, pos % bs, n)| == n
    ensures Take(d, pos / bs, pos % bs, n)[i] == d[(pos + i) / bs][(pos + i) % bs]
    decreases n
  {
    var b, o := pos / bs, pos % bs;
    hide Bytes, Blocks;
    AtHand(d, bs, pos, n);
    TakenSize(d, bs, pos, n);
    if i < bs - o {
      PlaceIn(b, o + i, bs, pos + i);
    } else {
      NextBlock(b, o, bs, pos);
      ByteAt(d, bs, pos + (bs - o), n - (bs - o), i - (bs - o));
    }
  }

  /** The block at hand. */
  lemma {:induction false} AtHand(d: seq<seq<Byte>>, bs: nat, pos: nat, n: nat)
    requires Blocks(d, bs) && pos + n <= Bytes(|d|, bs) && n > 0
    ensures pos / bs < |d| && |d[pos / bs]| == bs && pos == Bytes(pos / bs, bs) + pos % bs && pos % bs < bs
  {
    hide Bytes;
    DivBytes(pos, bs);
    FirstLost(d, bs, pos);
  }

  lemma {:induction false} TakenSize(d: seq<seq<Byte>>, bs: nat, pos: nat, n: nat)
    requires Blocks(d, bs) && pos + n <= Bytes(|d|, bs)
    ensures |Take(d, pos / bs, pos % bs, n)| == n
    decreases n
  {
    var b, o := pos / bs, pos % bs;
    hide Bytes, Blocks;
    if n > 0 {
      AtHand(d, bs, pos, n);
      if n > bs - o {
        NextBlock(b, o, bs, pos);
        TakenSize(d, bs, pos + (bs - o), n - (bs - o));
      }
    }
  }

  lemma {:induction false} PlaceIn(b: nat, k: nat, bs: nat, x: nat)
    requires k < bs && x == Bytes(b, bs) + k
    ensures x / bs == b && x % bs == k
  {
    BlockOf(x, bs, b, b + 1) by { BytesStep(b, bs); }
    DivBytes(x, bs);
  }

  lemma {:induction false} NextBlock(b: nat, o: nat, bs: nat, pos: nat)
    requires o < bs && pos == Bytes(b, bs) + o
    ensures (pos + (bs - o)) / bs == b + 1 && (pos + (bs - o)) % bs == 0
  {
    BytesStep(b, bs);
    PlaceIn(b + 1, 0, bs, pos + (bs - o));
  }

  lemma {:induction false} NothingWanted(present: nat -> bool, readable: nat -> bool, bs: nat, pos: nat)
    requires bs > 0
    ensures UpToBad(present, readable, bs, pos, 0, 0)
  {
  }

  lemma {:induction false} NoneBad(present: nat -> bool, readable: nat -> bool, b: nat)
    ensures AllGood(present, readable, b, b)
  {
  }

  lemma {:induction false} AllGoodJoin(present: nat -> bool, readable: nat -> bool, lo: nat, mid: nat, hi: nat)
    requires lo <= mid
    ensures AllGood(present, readable, lo, mid) && AllGood(present, readable, mid, hi) ==>
      AllGood(present, readable, lo, hi)
  {
    hide Good;
  }

  lemma {:induction false} GoodByte(present: nat -> bool, readable: nat -> bool, bs: nat, lo: nat, hi: nat, i: nat)
    requires bs > 0 && AllGood(present, readable, lo, hi) && Bytes(lo, bs) <= i < Bytes(hi, bs)
    ensures GoodAt(present, readable, bs, i)
  {
    hide Good, Bytes;
    BlockOf(i, bs, lo, hi);
  }

  /** All that was wanted has been read. */
  lemma {:induction false} AllRead(present: nat -> bool, readable: nat -> bool, bs: nat, pos: nat, want: nat,
                                   first: nat)
    requires bs > 0 && pos / bs <= first && AllGood(present, readable, pos / bs, first)
    requires pos % bs + want <= Bytes(first - pos / bs, bs)
    ensures UpToBad(present, readable, bs, pos, want, want)
  {
    hide AllGood, Bytes, GoodAt;
    var b := pos / bs;
    DivBytes(pos, bs);
    Covered(b, first - b, bs);
    forall i: nat | pos <= i < pos + want
      ensures GoodAt(present, readable, bs, i)
    {
      GoodByte(present, readable, bs, b, first, i);
    }
  }

  /** The reading has come to block `bad`. */
  lemma {:induction false} StoppedAt(present: nat -> bool, readable: nat -> bool, bs: nat, pos: nat, want: nat, n: nat,
                                     bad: nat, offset: nat)
    requires bs > 0 && pos / bs <= bad && AllGood(present, readable, pos / bs, bad) && !Good(present, readable, bad)
    requires n <= want && offset < bs && (offset > 0 ==> n == 0) && pos % bs + n == Bytes(bad - pos / bs, bs) + offset
    ensures UpToBad(present, readable, bs, pos, want, n)
  {
    hide AllGood, Bytes, GoodAt, Good;
    var b := pos / bs;
    DivBytes(pos, bs);
    Covered(b, bad - b, bs);
    BytesStep(bad, bs);
    BadByte(present, readable, bs, bad, pos + n);
    forall i: nat | pos <= i < pos + n
      ensures GoodAt(present, readable, bs, i)
    {
      GoodByte(present, readable, bs, b, bad, i);
    }
  }

  lemma {:induction false} BadByte(present: nat -> bool, readable: nat -> bool, bs: nat, bad: nat, i: nat)
    requires bs > 0 && !Good(present, readable, bad) && Bytes(bad, bs) <= i < Bytes(bad + 1, bs)
    ensures !GoodAt(present, readable, bs, i)
  {
    hide Good, Bytes;
    BlockOf(i, bs, bad, bad + 1);
  }

  lemma {:induction false} StartRing(buflist: seq<Buf>, first: nat, present: nat -> bool)
    requires |buflist| == NBUF
    ensures RingOk(buflist, 0, 0, first, present) && Held(present, first, 0) == {} && Slot(0, 0) == 0
  {
  }

  lemma {:induction false} NoneHeld(present: nat -> bool, first: nat)
    ensures Held(present, first, 0) == {}
  {
  }

  lemma {:induction false} ItIs(d: seq<seq<Byte>>, bs: nat, b0: nat, o0: nat, out: seq<Byte>, left: nat, first: nat,
                                offset: nat)
    requires Delivered(d, bs, b0, o0, out, left, first, offset)
    ensures out == Take(d, b0, o0, |out|)
  {
    hide Take, Cursor;
  }

  /** Bytes still wanted mean blocks asked for or still to ask for. */
  lemma {:induction false} SomethingThere(m: nat, asked: nat, n: nat, bs: nat, left: nat, offset: nat)
    requires left > 0 && Bytes(m + asked, bs) >= left + offset && n >= m && (asked > 0 ==> n > m)
    ensures n > 0
  {
    BytesStep(0, bs);
    hide Bytes;
  }

  lemma {:induction false} Covered(k: nat, rest: nat, bs: nat)
    requires bs > 0
    ensures Bytes(k + rest, bs) == Bytes(k, bs) + Bytes(rest, bs)
  {
    BytesOrder(k, rest, bs);
  }
}
