/** The input side of inflate.c: inbuf and its refilling (misc.c), and the bit buffer `bb`, `bk`
    with NEEDBITS and DUMPBITS; and looking a code up in the linked tables.
 */
module BitReader {
  import opened Bits
  import opened Huffman
  import opened HuftTables
  import opened Rfc1951

  const INBUFSIZ: nat := 0x8000

  lemma {:induction false} StreamNext(d: seq<bv8>, i: nat)
    requires i < |d|
    ensures Stream(d[i..]) == (d[i] as nat) + Shl(Stream(d[i + 1..]), 8)
  {
    assert d[i..][1..] == d[i + 1..];
  }

  /** Or-ing the next byte in above the bits at hand is taking it from the stream. */
  lemma {:induction false} RefillKeeps(b: nat, k: nat, c: nat, w: nat)
    requires b < Pow2(k) && c < 256
    ensures b + Shl(c, k) < Pow2(k + 8)
    ensures b + Shl(c + Shl(w, 8), k) == b + Shl(c, k) + Shl(w, k + 8)
  {
    ShlAdd(c, Shl(w, 8), k);
    ShlMore(w, 8, k);
    ShlAdd(c, 1, k);
    ShlOrder(c + 1, 256, k);
    ShlMore(1, 8, k);
    assert Pow2(8) == 256;
  }

  /** Shifting bits out of the buffer is dropping them from the stream. */
  lemma {:induction false} DumpKeeps(b: nat, k: nat, n: nat, w: nat)
    requires b < Pow2(k) && n <= k
    ensures Drop(b, n) < Pow2(k - n)
    ensures Drop(b + Shl(w, k), n) == Drop(b, n) + Shl(w, k - n)
    ensures Low(b + Shl(w, k), n) == Low(b, n)
  {
    hide Shl, Drop, Low, Pow2;
    Join(b, w, k);
    SplitTwice(b + Shl(w, k), n, k - n);
    Split(Drop(b + Shl(w, k), n), k - n);
    SmallLow(b, k);
  }

  /** The bits `b`, of which there are `k`, and then the bytes from `at` on. */
  function Unread(d: seq<bv8>, at: nat, b: nat, k: nat): In
    requires at <= |d|
  {
    In(b + Shl(Stream(d[at..]), k), k + 8 * (|d| - at))
  }

  lemma {:induction false} UnreadMore(d: seq<bv8>, at: nat, b: nat, k: nat)
    requires at < |d| && b < Pow2(k)
    ensures var b' := b + Shl(d[at] as nat, k);
            b' < Pow2(k + 8) && Unread(d, at + 1, b', k + 8) == Unread(d, at, b, k)
  {
    StreamNext(d, at);
    RefillKeeps(b, k, d[at] as nat, Stream(d[at + 1..]));
  }

  lemma {:induction false} UnreadLess(d: seq<bv8>, at: nat, b: nat, k: nat, n: nat)
    requires at <= |d| && b < Pow2(k) && n <= k
    ensures Drop(b, n) < Pow2(k - n) && n <= Unread(d, at, b, k).left
    ensures Unread(d, at, Drop(b, n), k - n) == Skip(Unread(d, at, b, k), n)
    ensures Low(b, n) == Low(Unread(d, at, b, k).w, n)
  {
    DumpKeeps(b, k, n, Stream(d[at..]));
  }

  lemma {:induction false} Joined(d: seq<bv8>, a: nat, b: nat, c: nat)
    requires a <= b <= c <= |d|
    ensures d[a..b] + d[b..c] == d[a..c]
  {
  }

  /** No lookup asks for more than nine bits at once, and each drops at least one. */
  predicate Lean(T: Tables, l: nat) {
    l <= 9 && Steady(T, 9)
  }

  /** When a lookup runs out of input, no more bits than this come after its code. */
  function Spare(lean: bool): nat { if lean then 7 else 15 }

  class Reader {
    const data: seq<bv8>   // input_data[0 .. input_len]
    var inbuf: seq<bv8>    // inbuf[0 .. insize)
    var inptr: nat
    var input_ptr: nat
    var bb: nat
    var bk: nat

    ghost predicate Valid()
      reads this
    {
      && |inbuf| <= input_ptr <= |data| && |inbuf| <= INBUFSIZ
      && inbuf == data[input_ptr - |inbuf|..input_ptr]
      && inptr <= |inbuf|
      && bb < Pow2(bk) && bk <= 23 && (bk > 0 ==> inptr > 0)
    }

    /** How many input bytes have gone into the bit buffer. */
    function At(): int
      reads this
    {
      input_ptr - |inbuf| + inptr
    }

    /** The unread bits: those in the buffer and all bytes after them. */
    ghost function Rest(): In
      reads this
    {
      if 0 <= At() <= |data| then Unread(data, At(), bb, bk) else In(0, 0)
    }

    constructor (d: seq<bv8>)
      ensures Valid() && data == d && bk == 0 && inptr == 0 && Rest() == In(Stream(d), 8 * |d|)
    {
      data, inbuf, inptr, input_ptr, bb, bk := d, [], 0, 0, 0, 0;
      new;
      assert data[0..] == data;
    }

    /** Refill inbuf with as much as possible; error(), which halts, when there is nothing. */
    method FillInbuf() returns (ok: bool, c: bv8)
      requires Valid() && inptr == |inbuf|
      modifies this`inbuf, this`inptr, this`input_ptr
      ensures Valid()
      ensures ok == (old(At()) < |data|)
      ensures if ok then inptr == 1 && At() == old(At()) + 1 && c == data[old(At())] else At() == old(At())
    {
      var filled: seq<bv8> := [];
      while |filled| < INBUFSIZ
        invariant |filled| <= INBUFSIZ && |filled| <= input_ptr <= |data|
        invariant input_ptr == old(input_ptr) + |filled|
        invariant filled == data[old(input_ptr)..input_ptr] && inbuf == old(inbuf) && inptr == old(inptr)
        decreases INBUFSIZ - |filled|
      {
        var len := INBUFSIZ - |filled|;
        if len > |data| - input_ptr {
          len := |data| - input_ptr;
        }
        if len == 0 {
          break;
        }
        Joined(data, old(input_ptr), input_ptr, input_ptr + len);
        filled := filled + data[input_ptr..input_ptr + len];
        input_ptr := input_ptr + len;
      }
      if |filled| == 0 {
        return false, 0;
      }
      inbuf, inptr := filled, 1;
      return true, inbuf[0];
    }

    /** get_byte() */
    method GetByte() returns (ok: bool, c: bv8)
      requires Valid()
      modifies this`inbuf, this`inptr, this`input_ptr
      ensures Valid()
      ensures ok == (old(At()) < |data|)
      ensures if ok then inptr > 0 && At() == old(At()) + 1 && c == data[old(At())] else At() == old(At())
    {
      if inptr < |inbuf| {
        ok, c := true, inbuf[inptr];
        inptr := inptr + 1;
      } else {
        ok, c := FillInbuf();
      }
    }

    /** One turn of NEEDBITS: another byte above the bits at hand. */
    method MoreBits() returns (ok: bool)
      requires Valid() && bk < 16
      modifies this
      ensures Valid() && Rest() == old(Rest())
      ensures if ok then bk == old(bk) + 8 else bk == old(bk) && At() == |data|
    {
      hide Unread, Shl, Pow2;
      var c;
      ghost var at := At();
      ok, c := GetByte();
      if ok {
        UnreadMore(data, at, bb, bk);
        bb := bb + Shl(c as nat, bk);
        bk := bk + 8;
      }
    }

    lemma {:induction false} InputEnded()
      requires Valid() && At() == |data|
      ensures Rest().left == bk
    {
    }

    /** NEEDBITS(n): false if the input ends first. No more bytes are read than it takes. */
    method NeedBits(n: nat) returns (ok: bool)
      requires Valid() && n <= 16
      modifies this
      ensures Valid() && Rest() == old(Rest())
      ensures if ok then n <= bk else bk < n && Rest().left < n
      ensures bk == old(bk) || bk < n + 8
    {
      hide Rest;
      while bk < n
        invariant Valid() && Rest() == old(Rest()) && (bk == old(bk) || bk < n + 8)
        decreases n - bk
      {
        ok := MoreBits();
        if !ok {
          InputEnded();
          return false;
        }
      }
      ok := true;
    }

    /** DUMPBITS(n), after enough bits have been asked for. */
    method DumpBits(n: nat)
      requires Valid() && n <= bk
      modifies this`bb, this`bk
      ensures Valid() && bk == old(bk) - n
      ensures n <= old(Rest()).left && Rest() == Skip(old(Rest()), n)
    {
      hide Unread;
      UnreadLess(data, At(), bb, bk, n);
      bb := Drop(bb, n);
      bk := bk - n;
    }

    /** The bits at hand are the next bits of the input. */
    lemma {:induction false} AtHand(n: nat)
      requires Valid() && n <= bk
      ensures Low(bb, n) == Low(Rest().w, n) && n <= Rest().left
    {
      UnreadLess(data, At(), bb, bk, n);
    }

    /** NEEDBITS, mask and DUMPBITS: an `n`-bit number. At most one whole byte stays at hand. */
    method GetBits(n: nat) returns (ok: bool, v: nat)
      requires Valid() && n <= 16
      modifies this
      ensures Valid() && (old(bk) < 16 ==> bk < 16)
      ensures if ok then Take(old(Rest()), n) == Got(v, Rest())
              else Take(old(Rest()), n) == Eof && Rest() == old(Rest()) && Rest().left < n
    {
      hide Rest;
      v := 0;
      ok := NeedBits(n);
      if ok {
        AtHand(n);
        v := Low(bb, n);
        DumpBits(n);
      }
    }

    /** Undo too much lookahead: hand whole unread bytes back to inbuf.  `inptr` is unsigned. With at
        most one whole byte at hand it is in inbuf, since the last byte read is. */
    method Undo()
      requires Valid()
      modifies this`bk, this`inptr
      ensures bk == old(bk) % 8
      ensures inptr == (old(inptr) - old(bk) / 8) % 0x1_0000_0000
      ensures old(bk) / 8 <= old(inptr) <==> inptr <= |inbuf|
      ensures old(bk) < 16 ==> inptr <= |inbuf|
      ensures inptr <= |inbuf| ==> |data| - At() == old(Rest()).left / 8
    {
      ghost var u := 0;
      while bk >= 8
        invariant bk + 8 * u == old(bk) && u <= 3
        invariant if u <= old(inptr) then inptr == old(inptr) - u
                  else inptr == 0x1_0000_0000 + old(inptr) - u
      {
        bk := bk - 8;
        inptr := if inptr > 0 then inptr - 1 else 0xFFFF_FFFF;
        u := u + 1;
      }
    }

    // ---- table lookup ----------------------------------------------------------------------

    /** The decoding loops: index, follow links, drop the bits of each step. */
    method LookUp(T: Tables, l: nat) returns (v: Verdict, e: nat, n: nat, ghost bits: nat)
      requires Valid() && l <= 16
      modifies this
      ensures Valid()
      ensures var s, f := old(Rest()), Look(T, 0, l, old(Rest()).w, 0);
        match v
        case Code => f == Hit(e, n, bits) && bits <= s.left && Rest() == Skip(s, bits)
        case Invalid => f == Found.Bad
        case Undefined => f == Stray
        case InputEnds => f.Hit? && f.bits <= s.left ==> s.left - f.bits <= Spare(Lean(T, l))
      ensures old(bk) < 16 && Lean(T, l) && v == Code ==> bk < 16
    {
      hide Rest, Valid, Look, Low, Drop, Steady;
      ghost var s := Rest();
      bits := 0;
      e, n := 0, 0;
      var p: nat, m: nat := 0, l;
      SkipNone(s);
      ghost var lean, few := Lean(T, l), bk < 16;
      while true
        invariant lean ==> m <= 9 && Steady(T, 9) && (few ==> bk < 16)
        invariant Valid() && m <= 16 && bits <= s.left && Rest() == Skip(s, bits)
        invariant Look(T, p, m, Rest().w, bits) == Look(T, 0, l, s.w, 0)
        decreases |T| - p
      {
        var ok := NeedBits(m);
        if !ok {
          LookFurther(T, p, m, Rest().w, bits, lean);
          return InputEnds, e, n, bits;
        }
        AtHand(m);
        LookCases(T, p, m, Rest().w, bits);
        if p >= |T| || Low(bb, m) >= |T[p]| {
          return Undefined, e, n, bits;  // a table that is not there
        }
        var h := T[p][Low(bb, m)];
        SteadyAt(T, p, Low(bb, m), lean);
        if h.Unset? {
          return Undefined, e, n, bits;  // an entry nobody wrote
        }
        e := h.e;
        if e > 16 {
          if e == 99 {
            return Invalid, e, n, bits;
          }
          if !h.Next? || e > 32 || h.t <= p || h.b > m {
            return Undefined, e, n, bits;  // not a table entry huft_build makes
          }
          SkipMore(s, bits, h.b);
          DumpBits(h.b);
          bits := bits + h.b;
          p, m := h.t, e - 16;
        } else {
          if h.Next? || h.b > m {
            return Undefined, e, n, bits;
          }
          SkipMore(s, bits, h.b);
          DumpBits(h.b);
          return Code, e, h.n, bits + h.b;
        }
      }
    }
  }

  /** A valid code; the invalid-code entry; a read the tables do not cover; no more input. */
  datatype Verdict = Code | Invalid | Undefined | InputEnds

  lemma {:induction false} LookFurther(T: Tables, p: nat, m: nat, w: nat, used: nat, lean: bool)
    requires lean ==> Steady(T, 9)
    ensures Look(T, p, m, w, used).Hit? ==> Look(T, p, m, w, used).bits >= used + if lean then 1 else 0
  {
    if p < |T| && Low(w, m) < |T[p]| && lean {
      assert Drops(T[p][Low(w, m)], 9);
    }
  }

  lemma {:induction false} SteadyAt(T: Tables, p: nat, j: nat, lean: bool)
    requires p < |T| && j < |T[p]| && (lean ==> Steady(T, 9))
    ensures lean ==> Drops(T[p][j], 9)
  {
  }

  /** One step of a lookup, case by case. */
  lemma {:induction false} LookCases(T: Tables, p: nat, m: nat, w: nat, used: nat)
    ensures var f := Look(T, p, m, w, used);
      if p >= |T| || Low(w, m) >= |T[p]| then f == Stray
      else match T[p][Low(w, m)]
        case Unset => f == Stray
        case Value(e, b, n) =>
          f == if e == 99 then Found.Bad else if b > m || e > 16 then Stray else Hit(e, n, used + b)
        case Next(e, b, t) =>
          f == if e == 99 then Found.Bad
               else if 16 < e <= 32 && t > p && b <= m then Look(T, t, e - 16, Drop(w, b), used + b)
               else Stray
  {
  }

  lemma {:induction false} SkipNone(s: In)
    ensures Skip(s, 0) == s
  {
  }

  lemma {:induction false} SkipMore(s: In, m: nat, n: nat)
    requires m <= s.left && n <= s.left - m
    ensures Skip(Skip(s, m), n) == Skip(s, m + n)
  {
    SplitTwice(s.w, m, n);
  }
}
