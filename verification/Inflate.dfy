/** inflate.c from inflate_codes to inflate: the whole decompressor, working in place on its input
    buffer, bit buffer and window, against the reference decoder of RFC 1951.
 */
module Inflate {
  import opened Bits
  import opened Huffman
  import opened HuftTables
  import HuftPlan
  import HuftBuild
  import HuftMain
  import opened Crc
  import opened Window
  import opened Rfc1951
  import opened BitReader
  import opened InflateTables

  /** How a routine ends: with what the original returns, 0 or an error code; in error(), which
      halts, the input having run out; or with a read of memory that holds nothing defined. */
  datatype Outcome = Done | Fail(code: nat) | Halted | Wild

  /** The outcome fits the reference: the same data when done, no data otherwise; looking ahead the
      original may run out of input while the reference has `spare` bits left. */
  ghost predicate Agrees(o: Outcome, ref: Got<seq<bv8>>, rest: In, h: seq<bv8>, spare: nat) {
    match o
    case Done => ref == Got(h, rest)
    case Halted => ref.Got? ==> ref.rest.left <= spare
    case Fail(_) => !ref.Got?
    case Wild => !ref.Got?
  }

  function Stop(v: Verdict): Outcome {
    match v
    case Code => Done
    case Invalid => Fail(1)
    case Undefined => Wild
    case InputEnds => Halted
  }

  // ---- reading codes -----------------------------------------------------------------------

  /** A literal, the end-of-block code, or a length code with its base and extra bits. */
  method ReadLit(r: Reader, T: Tables, l: nat, ghost lit: seq<nat>)
      returns (v: Verdict, e: nat, n: nat, ghost m: nat)
    requires r.Valid() && l <= 16 && |lit| <= 288
    requires HuftMain.DecodesAll(T, l, lit, 257, CPLENS, CPLEXT)
    modifies r
    ensures r.Valid()
    ensures var g := Symbol(lit, old(r.Rest()));
      match v
      case Code => g == Got(m, r.Rest()) && m <= 285
          && (if m < 256 then e == 16 && n == m
              else if m == 256 then e == 15
              else e == LengthExtra(m) <= 5 && n == LengthBase(m) >= 3)
      case InputEnds => g.Got? && g.v <= 285 ==> g.rest.left <= Spare(Lean(T, l))
      case _ => g.Got? ==> g.v > 285
    ensures old(r.bk) < 16 && Lean(T, l) && v == Code ==> r.bk < 16
  {
    hide r.Rest, r.Valid, Look, Decode, LengthBase, LengthExtra, HuftPlan.SymbolEntry, HuftMain.DummyIndex, Lean;
    ghost var s := r.Rest();
    ghost var bits;
    v, e, n, bits := r.LookUp(T, l);
    assert HuftMain.DecodesTo(T, l, lit, 257, CPLENS, CPLEXT, s.w);
    m := 0;
    ghost var d := Decode(lit, s.w, 0);
    if d.Sym? {
      m := d.s;
      SymInRange(lit, s.w);
      LitMeaning(m, d.bits);
      if 257 <= m <= 285 {
        LengthTable(m - 257);
      }
    }
  }

  lemma {:induction false} SymInRange(lens: seq<nat>, w: nat)
    ensures Decode(lens, w, 0).Sym? ==> Decode(lens, w, 0).s < |lens|
  {
  }

  lemma {:induction false} DistSizes()
    ensures |CPDIST| == |CPDEXT| == 30
  {
  }

  /** A distance, symbol by symbol. */
  lemma {:induction false} DistanceIs(dist: seq<nat>, s: In)
    requires |dist| <= 30
    ensures var c := Decode(dist, s.w, 0);
      if c.Sym? && c.bits <= s.left then
        && c.s < 30
        && var t := Take(Skip(s, c.bits), DistExtra(c.s));
        && Distance(dist, s).Got? == t.Got?
        && (t.Got? ==> Distance(dist, s) == Got(DistBase(c.s) + t.v, t.rest))
      else !Distance(dist, s).Got?
  {
    hide Decode, Take, DistBase, DistExtra;
    if Decode(dist, s.w, 0).Sym? {
      SymInRange(dist, s.w);
    }
  }

  /** A distance: base and extra bits. */
  method ReadDistance(r: Reader, T: Tables, l: nat, ghost dist: seq<nat>) returns (v: Verdict, d: nat)
    requires r.Valid() && l <= 16 && |dist| <= 30
    requires HuftMain.DecodesAll(T, l, dist, 0, CPDIST, CPDEXT)
    modifies r
    ensures r.Valid()
    ensures var g := Distance(dist, old(r.Rest()));
      match v
      case Code => g == Got(d, r.Rest()) && 1 <= d <= WSIZE
      case InputEnds => g.Got? ==> g.rest.left <= Spare(Lean(T, l))
      case _ => !g.Got?
    ensures old(r.bk) < 16 && Lean(T, l) && v == Code ==> r.bk < 16
  {
    hide r.Rest, r.Valid, Look, Decode, DistBase, DistExtra, HuftPlan.SymbolEntry, HuftMain.DummyIndex, Lean;
    hide Distance, Take, HuftMain.MaxLength, CPDIST, CPDEXT;
    ghost var s := r.Rest();
    ghost var bits;
    var e, n;
    DistanceIs(dist, s);
    DistSizes();
    v, e, n, bits := r.LookUp(T, l);
    assert HuftMain.DecodesTo(T, l, dist, 0, CPDIST, CPDEXT, s.w);
    ghost var c := Decode(dist, s.w, 0);
    if c.Sym? {
      SymInRange(dist, s.w);
      DistMeaning(c.s, c.bits);
      DistTable(c.s);
    }
    d := 0;
    if v == Code {
      var ok, x := r.GetBits(e);
      DistanceRange(dist, s);
      if !ok {
        v := InputEnds;
      }
      d := n + x;
    }
  }

  // ---- inflate_codes -----------------------------------------------------------------------

  lemma {:induction false} CodesLiteral(lit: seq<nat>, dist: seq<nat>, s: In, h: seq<bv8>, m: nat, s1: In)
    requires Symbol(lit, s) == Got(m, s1) && m < 256
    ensures Codes(lit, dist, s, h) == Codes(lit, dist, s1, h + [m as bv8])
  {
    hide Symbol;
  }

  lemma {:induction false} CodesEnd(lit: seq<nat>, dist: seq<nat>, s: In, h: seq<bv8>, s1: In)
    requires Symbol(lit, s) == Got(256, s1)
    ensures Codes(lit, dist, s, h) == Got(h, s1)
  {
    hide Symbol;
  }

  lemma {:induction false} CodesFail(lit: seq<nat>, dist: seq<nat>, s: In, h: seq<bv8>)
    ensures Symbol(lit, s).Got? && Symbol(lit, s).v > 285 ==> !Codes(lit, dist, s, h).Got?
    ensures !Symbol(lit, s).Got? ==> !Codes(lit, dist, s, h).Got?
    ensures Codes(lit, dist, s, h).Got? ==> Codes(lit, dist, s, h).rest.left <= Symbol(lit, s).rest.left
  {
    hide Symbol, Distance, Take, LengthBase, LengthExtra, Repeat;
  }

  /** A length/distance pair whose parts have been read. */
  lemma {:induction false} CodesPair(lit: seq<nat>, dist: seq<nat>, s: In, h: seq<bv8>, m: nat, s1: In)
    requires Symbol(lit, s) == Got(m, s1) && 257 <= m <= 285
    ensures var t := Take(s1, LengthExtra(m));
      if !t.Got? then !Codes(lit, dist, s, h).Got?
      else
        var d := Distance(dist, t.rest);
        if !d.Got? then !Codes(lit, dist, s, h).Got?
        else
          && (Codes(lit, dist, s, h).Got? ==> Codes(lit, dist, s, h).rest.left <= d.rest.left)
          && (1 <= d.v <= |h| ==>
                Codes(lit, dist, s, h) == Codes(lit, dist, d.rest, Repeat(h, d.v, LengthBase(m) + t.v)))
  {
    hide Symbol, Distance, Take, LengthBase, LengthExtra, Repeat;
  }

  /** A length code has been read, with base `n` and `e` extra bits: its extra bits, the distance,
      the copy. */
  method CopyPair(r: Reader, w: OutWindow, e: nat, n: nat, td: Tables, bd: nat,
                  ghost lit: seq<nat>, ghost dist: seq<nat>, ghost m: nat, ghost s: In)
      returns (more: bool, o: Outcome)
    requires r.Valid() && w.Valid() && w.wp < WSIZE && bd <= 16 && |dist| <= 30
    requires HuftMain.DecodesAll(td, bd, dist, 0, CPDIST, CPDEXT)
    requires Symbol(lit, s) == Got(m, r.Rest()) && 257 <= m <= 285
    requires e == LengthExtra(m) <= 5 && n == LengthBase(m) >= 3
    modifies r, w, w.slide
    ensures r.Valid() && w.Valid() && w.wp < WSIZE
    ensures var ref := Codes(lit, dist, s, old(w.History()));
      if more then ref == Codes(lit, dist, r.Rest(), w.History()) && r.Rest().left < s.left
      else Agrees(o, ref, r.Rest(), w.History(), Spare(Lean(td, bd)))
    ensures old(r.bk) < 16 && Lean(td, bd) && (more || o == Done) ==> r.bk < 16
  {
    hide r.Rest, r.Valid, w.Valid, w.History, LengthBase, LengthExtra, Codes, Symbol, Distance, Take, Repeat,
      HuftMain.DecodesAll, Lean;
    ghost var h := w.History();
    SymbolUses(lit, s);
    CodesPair(lit, dist, s, h, m, r.Rest());
    var ok, x := r.GetBits(e);
    if !ok {
      return false, Halted;
    }
    TakeUses(Symbol(lit, s).rest, e);
    var v, d := ReadDistance(r, td, bd, dist);
    if v != Code {
      return false, Stop(v);
    }
    DistanceUses(dist, Take(Symbol(lit, s).rest, e).rest);
    w.Copy(d, n + x);
    return true, Done;
  }

  lemma {:induction false} DistanceUses(dist: seq<nat>, s: In)
    ensures Distance(dist, s).Got? ==> Distance(dist, s).rest.left < s.left
  {
  }

  /** One turn of the decoding loop: a literal, a pair, or the end of the block. */
  method DecodeOne(r: Reader, w: OutWindow, tl: Tables, td: Tables, bl: nat, bd: nat,
                   ghost lit: seq<nat>, ghost dist: seq<nat>) returns (more: bool, o: Outcome)
    requires r.Valid() && w.Valid() && w.wp < WSIZE && bl <= 16 && bd <= 16
    requires |lit| <= 288 && HuftMain.DecodesAll(tl, bl, lit, 257, CPLENS, CPLEXT)
    requires |dist| <= 30 && HuftMain.DecodesAll(td, bd, dist, 0, CPDIST, CPDEXT)
    modifies r, w, w.slide
    ensures r.Valid() && w.Valid() && w.wp < WSIZE
    ensures var ref := Codes(lit, dist, old(r.Rest()), old(w.History()));
      if more then ref == Codes(lit, dist, r.Rest(), w.History()) && r.Rest().left < old(r.Rest()).left
      else Agrees(o, ref, r.Rest(), w.History(), Spare(Lean(tl, bl) && Lean(td, bd)))
    ensures old(r.bk) < 16 && Lean(tl, bl) && Lean(td, bd) && (more || o == Done) ==> r.bk < 16
  {
    hide r.Rest, r.Valid, w.Valid, w.History, LengthBase, LengthExtra, Codes, Symbol, Distance, Take,
      HuftMain.DecodesAll, Lean;
    ghost var s, h := r.Rest(), w.History();
    var v, e, n;
    ghost var m;
    v, e, n, m := ReadLit(r, tl, bl, lit);
    CodesFail(lit, dist, s, h);
    SymbolUses(lit, s);
    if v != Code {
      return false, Stop(v);
    }
    if e == 16 {
      LitOrNot(m, e);
      CodesLiteral(lit, dist, s, h, m, r.Rest());
      w.Put(n as bv8);
      return true, Done;
    }
    if e == 15 {
      LitOrNot(m, e);
      CodesEnd(lit, dist, s, h, r.Rest());
      return false, Done;
    }
    more, o := CopyPair(r, w, e, n, td, bd, lit, dist, m, s);
  }

  lemma {:induction false} LitOrNot(m: nat, e: nat)
    ensures 257 <= m <= 285 && e == LengthExtra(m) ==> e <= 5
  {
  }

  /** inflate_codes: inflate the codes in a block. */
  method InflateCodes(r: Reader, w: OutWindow, tl: Tables, td: Tables, bl: nat, bd: nat,
                      ghost lit: seq<nat>, ghost dist: seq<nat>) returns (o: Outcome)
    requires r.Valid() && w.Valid() && w.wp < WSIZE && bl <= 16 && bd <= 16
    requires |lit| <= 288 && HuftMain.DecodesAll(tl, bl, lit, 257, CPLENS, CPLEXT)
    requires |dist| <= 30 && HuftMain.DecodesAll(td, bd, dist, 0, CPDIST, CPDEXT)
    modifies r, w, w.slide
    ensures r.Valid() && w.Valid() && w.wp < WSIZE
    ensures Agrees(o, Codes(lit, dist, old(r.Rest()), old(w.History())), r.Rest(), w.History(),
                   Spare(Lean(tl, bl) && Lean(td, bd)))
    ensures old(r.bk) < 16 && Lean(tl, bl) && Lean(td, bd) && o == Done ==> r.bk < 16
  {
    hide r.Rest, r.Valid, w.Valid, w.History, Codes, HuftMain.DecodesAll, Agrees, Lean, Spare;
    var more := true;
    o := Done;
    while more
      invariant old(r.bk) < 16 && Lean(tl, bl) && Lean(td, bd) && (more || o == Done) ==> r.bk < 16
      invariant r.Valid() && w.Valid() && w.wp < WSIZE
      invariant more ==>
        Codes(lit, dist, r.Rest(), w.History()) == Codes(lit, dist, old(r.Rest()), old(w.History()))
      invariant !more ==>
        Agrees(o, Codes(lit, dist, old(r.Rest()), old(w.History())), r.Rest(), w.History(),
               Spare(Lean(tl, bl) && Lean(td, bd)))
      decreases more, r.Rest().left
    {
      more, o := DecodeOne(r, w, tl, td, bl, bd, lit, dist);
    }
  }

  // ---- inflate_stored ----------------------------------------------------------------------

  /** The copying loop of a stored block. */
  method StoredLoop(r: Reader, w: OutWindow, n: nat) returns (o: Outcome)
    requires r.Valid() && w.Valid() && w.wp < WSIZE
    modifies r, w, w.slide
    ensures r.Valid() && w.Valid() && w.wp < WSIZE
    ensures Agrees(o, StoredBytes(old(r.Rest()), n, old(w.History())), r.Rest(), w.History(), 7)
    ensures old(r.bk) < 16 && o == Done ==> r.bk < 16
  {
    hide r.Rest, r.Valid, w.Valid, w.History, StoredBytes, Take;
    var i := n;
    while i > 0
      invariant old(r.bk) < 16 ==> r.bk < 16
      invariant r.Valid() && w.Valid() && w.wp < WSIZE
      invariant StoredBytes(r.Rest(), i, w.History()) == StoredBytes(old(r.Rest()), n, old(w.History()))
    {
      StoredNext(r.Rest(), i, w.History());
      i := i - 1;
      ghost var s := r.Rest();
      var ok := r.NeedBits(8);
      if !ok {
        TakeFails(s, 8);
        return Halted;
      }
      r.AtHand(8);
      TakeWorks(s, 8);
      Powers();
      w.Put(Low(r.bb, 8) as bv8);
      r.DumpBits(8);
    }
    StoredDone(r.Rest(), w.History());
    o := Done;
  }

  lemma {:induction false} TakeFails(s: In, n: nat)
    requires s.left < n
    ensures Take(s, n) == Eof
  {
  }

  lemma {:induction false} TakeWorks(s: In, n: nat)
    requires n <= s.left
    ensures Take(s, n) == Got(Low(s.w, n), Skip(s, n))
  {
  }

  lemma {:induction false} StoredNext(s: In, n: nat, h: seq<bv8>)
    requires n > 0
    ensures var t := Take(s, 8);
      if t.Got? then t.v < 256 && StoredBytes(s, n, h) == StoredBytes(t.rest, n - 1, h + [t.v as bv8])
      else !StoredBytes(s, n, h).Got?
  {
    ByteRange(s);
    hide Take;
  }

  lemma {:induction false} StoredDone(s: In, h: seq<bv8>)
    ensures StoredBytes(s, 0, h) == Got(h, s)
  {
  }

  lemma {:induction false} StoredHead(s: In, h: seq<bv8>)
    ensures var a := Take(Skip(s, s.left % 8), 16);
      if !a.Got? then !Stored(s, h).Got?
      else
        var b := Take(a.rest, 16);
        if !b.Got? || a.v + b.v != 0xFFFF then !Stored(s, h).Got?
        else Stored(s, h) == StoredBytes(b.rest, a.v, h)
  {
    hide Take, Skip, StoredBytes;
  }

  /** The buffer ends at a byte boundary. */
  lemma {:induction false} BufferAligned(r: Reader)
    requires r.Valid()
    ensures r.Rest().left % 8 == r.bk % 8
  {
  }

  /** inflate_stored: "decompress" a stored block. */
  method InflateStored(r: Reader, w: OutWindow) returns (o: Outcome)
    requires r.Valid() && w.Valid() && w.wp < WSIZE
    modifies r, w, w.slide
    ensures r.Valid() && w.Valid() && w.wp < WSIZE
    ensures Agrees(o, Stored(old(r.Rest()), old(w.History())), r.Rest(), w.History(), 7)
    ensures old(r.bk) < 16 && o == Done ==> r.bk < 16
  {
    BufferAligned(r);
    hide r.Rest, r.Valid, w.Valid, w.History, StoredBytes, Take, Stored, Skip;
    StoredHead(r.Rest(), w.History());
    r.DumpBits(r.bk % 8);
    var ok, n := r.GetBits(16);
    if !ok {
      return Halted;
    }
    var m;
    ok, m := r.GetBits(16);
    if !ok {
      return Halted;
    }
    if n as int != 0xFFFF - (m as int) {  // the length and its complement
      return Fail(1);
    }
    o := StoredLoop(r, w, n);
  }

  // ---- inflate_fixed -----------------------------------------------------------------------

  method FixedLengths(l: array<nat>)
    requires l.Length == 288
    modifies l
    ensures l[..] == FixedLit()
  {
    hide FixedLit, Rep;
    for i := 0 to 144
      invariant forall j :: 0 <= j < i ==> l[j] == 8
    {
      l[i] := 8;
    }
    for i := 144 to 256
      invariant forall j :: 0 <= j < i ==> l[j] == if j < 144 then 8 else 9
    {
      l[i] := 9;
    }
    for i := 256 to 280
      invariant forall j :: 0 <= j < i ==> l[j] == if j < 144 then 8 else if j < 256 then 9 else 7
    {
      l[i] := 7;
    }
    for i := 280 to 288
      invariant forall j :: 0 <= j < i ==>
        l[j] == if j < 144 then 8 else if j < 256 then 9 else if j < 280 then 7 else 8
    {
      l[i] := 8;
    }
    FixedLitIs(l[..]);
  }

  lemma {:induction false} FixedLitIs(s: seq<nat>)
    requires |s| == 288
    requires forall j :: 0 <= j < 288 ==> s[j] == if j < 144 then 8 else if j < 256 then 9 else if j < 280 then 7 else 8
    ensures s == FixedLit()
  {
    hide Rep;
  }

  /** Codes of ten bits and more fill no more than a fraction of the code space each. */
  lemma {:induction false} LongCodes(b: seq<nat>)
    requires Lengths(b) && forall i :: 0 <= i < |b| ==> b[i] == 0 || b[i] >= 10
    ensures Kraft(b) <= 64 * |b|
  {
    if b != [] {
      var k := b[|b| - 1];
      LongCodes(b[..|b| - 1]);
      if k > 0 {
        Pow2Mono(BMAX - k, 6);
        assert Pow2(6) == 64;
      }
    }
  }

  /** Complete sets of the sizes that inflate has are looked up at most nine bits at a time. */
  lemma {:induction false} NineBits(b: seq<nat>, l: nat, m: nat)
    requires Lengths(b) && |b| <= 288 && l <= HuftMain.MaxLength(b) && m <= 9
    requires l <= m || HuftBuild.NoneBefore(Counts(b), l)
    requires HuftMain.MaxLength(b) == 0 || HuftMain.Classify(b) == 0
    ensures l <= 9
  {
    hide Kraft, Counts, HuftMain.MaxLength;
    if l > 9 {
      forall i | 0 <= i < |b|
        ensures b[i] == 0 || b[i] >= 10
      {
        HuftMain.CountHas(b, i);
        CountsAre(b, b[i]);
      }
      LongCodes(b);
      assert Pow2(BMAX) == 0x1_0000 by { Powers(); }
    }
  }

  lemma {:induction false} CountsAre(b: seq<nat>, k: nat)
    requires k <= BMAX
    ensures Counts(b)[k] == Count(b, k)
  {
  }

  lemma {:induction false} LeanAtNine(T: Tables, l: nat)
    requires l <= 9 && Steady(T, l)
    ensures Lean(T, l)
  {
    forall p, j | 0 <= p < |T| && 0 <= j < |T[p]|
      ensures Drops(T[p][j], 9)
    {
      assert Drops(T[p][j], l);
    }
  }

  /** A code that is complete builds tables that decode it. */
  lemma {:induction false} FixedFits(l: nat)
    ensures var b := FixedLit();
      && |b| == 288 && Lengths(b) && 0 < HuftMain.MaxLength(b) <= 9 && HuftMain.Classify(b) == 0
      && (l == HuftMain.MaxLength(b) || l >= 7 ==> HuftMain.Fit(b, l))
    ensures var b := FixedDist();
      && |b| == 30 && Lengths(b) && 0 < HuftMain.MaxLength(b) <= 9 && HuftMain.Classify(b) == 1
      && (l == HuftMain.MaxLength(b) || l >= 5 ==> HuftMain.Fit(b, l))
  {
    FixedLitComplete();
    FixedDistIncomplete();
    hide FixedLit, FixedDist, HuftMain.MaxLength, HuftMain.Fit, Kraft, Pow2;
    MaxReaches(FixedLit());
    MaxAtMost(FixedLit(), 9);
    MaxReaches(FixedDist());
    MaxAtMost(FixedDist(), 5);
    assert FixedLit()[0] <= HuftMain.MaxLength(FixedLit());
    assert FixedDist()[0] <= HuftMain.MaxLength(FixedDist());
    if HuftMain.MaxLength(FixedLit()) <= 2 * l {
      HuftMain.SmallFit(FixedLit(), l);
    }
    if HuftMain.MaxLength(FixedDist()) <= 2 * l {
      HuftMain.SmallFit(FixedDist(), l);
    }
  }

  /** inflate_fixed: a block with the fixed codes. */
  method InflateFixed(r: Reader, w: OutWindow) returns (o: Outcome)
    requires r.Valid() && w.Valid() && w.wp < WSIZE
    modifies r, w, w.slide
    ensures r.Valid() && w.Valid() && w.wp < WSIZE
    ensures Agrees(o, Codes(FixedLit(), FixedDist(), old(r.Rest()), old(w.History())), r.Rest(), w.History(), 7)
    ensures old(r.bk) < 16 && o == Done ==> r.bk < 16
  {
    hide r.Rest, r.Valid, w.Valid, w.History, Codes, HuftMain.DecodesAll, HuftMain.MaxLength, HuftMain.Classify,
      HuftMain.Fit, FixedLit, FixedDist, Agrees, Lean, Steady;
    var l := new nat[288];
    FixedLengths(l);
    FixedFits(0);
    var i, tl, bl := HuftMain.Build(l[..], 257, CPLENS, CPLEXT, 7);
    FixedFits(bl);
    if i != 0 {
      return Fail(i);
    }
    var ld := FixedDistLengths();
    var j, td, bd := HuftMain.Build(ld, 0, CPDIST, CPDEXT, 5);
    FixedFits(bd);
    if j > 1 {
      return Fail(j);
    }
    LeanAtNine(tl, bl);
    LeanAtNine(td, bd);
    o := InflateCodes(r, w, tl, td, bl, bd, FixedLit(), FixedDist());
  }

  /** An incomplete code set for the distances. */
  method FixedDistLengths() returns (l: seq<nat>)
    ensures l == FixedDist()
  {
    var a := new nat[30];
    for i := 0 to 30
      invariant forall j :: 0 <= j < i ==> a[j] == 5
    {
      a[i] := 5;
    }
    l := a[..];
  }

  // ---- inflate_dynamic ---------------------------------------------------------------------

  ghost predicate Small(a: seq<nat>, n: nat) {
    forall i :: 0 <= i < |a| ==> a[i] < n
  }

  lemma {:induction false} CodeLengthNext(s: In, j: nat, nb: nat, cl: seq<nat>)
    requires j < nb <= |ORDER| == |cl|
    ensures var t := Take(s, 3);
      if t.Got? then
        && t.v < 8
        && CodeLengthLengths(s, j, nb, cl) == CodeLengthLengths(t.rest, j + 1, nb, cl[ORDER[j] := t.v])
      else !CodeLengthLengths(s, j, nb, cl).Got?
  {
    assert Pow2(3) == 8;
    assert Take(s, 3).Got? ==> Take(s, 3).v < Pow2(3);
    hide Take, Pow2;
  }

  lemma {:induction false} CodeLengthDone(s: In, nb: nat, cl: seq<nat>)
    requires nb <= |ORDER| == |cl|
    ensures CodeLengthLengths(s, nb, nb, cl) == Got(cl, s)
  {
  }

  /** The entries of `cl` named in ORDER from `j` on. */
  ghost predicate ZeroFrom(cl: seq<nat>, j: nat)
    requires |cl| == |ORDER|
  {
    forall i :: j <= i < |ORDER| ==> cl[ORDER[i]] == 0
  }

  lemma {:induction false} OrderApart(i: nat, j: nat)
    requires i < |ORDER| && j < |ORDER| && i != j
    ensures ORDER[i] != ORDER[j]
  {
  }

  /** Each of the nineteen code length symbols has one place in the order. */
  lemma {:induction false} OrderIsPermutation(m: nat) returns (j: nat)
    requires m < 19
    ensures |ORDER| == 19 && j < 19 && ORDER[j] == m
    ensures forall i :: 0 <= i < 19 && i != j ==> ORDER[i] != m && ORDER[i] < 19
  {
    j := [3, 17, 15, 13, 11, 9, 7, 5, 4, 6, 8, 10, 12, 14, 16, 18, 0, 1, 2][m];
    forall i | 0 <= i < 19 && i != j
      ensures ORDER[i] != m
    {
      OrderApart(i, j);
    }
  }

  /** The first `j` lengths in transmission order have been stored. */
  ghost predicate Sent(a: seq<nat>, cl: seq<nat>, j: nat)
    requires |cl| == |ORDER| <= |a|
  {
    forall i :: 0 <= i < j && i < |ORDER| ==> a[ORDER[i]] == cl[ORDER[i]]
  }

  lemma {:induction false} SentNext(a: seq<nat>, cl: seq<nat>, j: nat, x: nat)
    requires |cl| == |ORDER| <= |a| && j < |ORDER| && Sent(a, cl, j)
    ensures ORDER[j] < |cl| && Sent(a[ORDER[j] := x], cl[ORDER[j] := x], j + 1)
    ensures ZeroFrom(cl, j) ==> ZeroFrom(cl[ORDER[j] := x], j + 1)
    ensures cl[ORDER[j]] == x ==> Sent(a[ORDER[j] := x], cl, j + 1)
  {
    hide ORDER;
    OrderPlaces(j);
  }

  lemma {:induction false} OrderPlaces(j: nat)
    requires j < |ORDER|
    ensures |ORDER| == 19 && ORDER[j] < 19
    ensures forall i :: 0 <= i < |ORDER| && i != j ==> ORDER[i] < 19 && ORDER[i] != ORDER[j]
  {
    forall i | 0 <= i < |ORDER| && i != j
      ensures ORDER[i] != ORDER[j]
    {
      OrderApart(i, j);
    }
  }

  /** The lengths not sent are zero. */
  method ClearRest(ll: array<nat>, nb: nat, ghost cl: seq<nat>)
    requires nb <= |cl| == |ORDER| <= ll.Length && Sent(ll[..], cl, nb) && ZeroFrom(cl, nb)
    modifies ll
    ensures ll[..19] == cl
  {
    var j := nb;
    while j < 19
      invariant nb <= j <= 19 && Sent(ll[..], cl, j)
    {
      SentNext(ll[..], cl, j, 0);
      ll[ORDER[j]] := 0;
      j := j + 1;
    }
    OrderCovers(ll[..19], cl);
  }

  /** Read in bit-length-code lengths. */
  method ReadCodeLengthLengths(r: Reader, ll: array<nat>, nb: nat) returns (ok: bool)
    requires r.Valid() && nb <= 19 <= ll.Length
    modifies r, ll
    ensures r.Valid()
    ensures var ref := CodeLengthLengths(old(r.Rest()), 0, nb, Rep(0, 19));
      if ok then ref == Got(ll[..19], r.Rest()) && Small(ll[..19], 8) else !ref.Got?
    ensures old(r.bk) < 16 ==> r.bk < 16
  {
    hide r.Rest, r.Valid, CodeLengthLengths, Take, Rep, Sent, ZeroFrom;
    ghost var cl: seq<nat> := Rep(0, 19);
    ghost var ref := CodeLengthLengths(r.Rest(), 0, nb, cl);
    RepZero();
    NoneSent(ll[..], cl);
    for j := 0 to nb
      invariant old(r.bk) < 16 ==> r.bk < 16
      invariant r.Valid() && |cl| == 19 && Small(cl, 8) && ZeroFrom(cl, j) && Sent(ll[..], cl, j)
      invariant ref == CodeLengthLengths(r.Rest(), j, nb, cl)
    {
      CodeLengthNext(r.Rest(), j, nb, cl);
      var x;
      ok, x := r.GetBits(3);
      if !ok {
        return false;
      }
      SentNext(ll[..], cl, j, x);
      ll[ORDER[j]] := x;
      cl := cl[ORDER[j] := x];
    }
    CodeLengthDone(r.Rest(), nb, cl);
    ClearRest(ll, nb, cl);
    ok := true;
  }

  lemma {:induction false} NoneSent(a: seq<nat>, cl: seq<nat>)
    requires |cl| == |ORDER| <= |a|
    ensures Sent(a, cl, 0)
  {
  }

  lemma {:induction false} RepZero()
    ensures |Rep(0, 19)| == 19 && Small(Rep(0, 19), 8) && ZeroFrom(Rep(0, 19), 0)
  {
    hide Rep;
  }

  lemma {:induction false} OrderCovers(a: seq<nat>, b: seq<nat>)
    requires |a| == |b| == |ORDER| && forall i :: 0 <= i < |ORDER| ==> a[ORDER[i]] == b[ORDER[i]]
    ensures a == b
  {
    assert a[ORDER[3]] == b[ORDER[3]] && a[ORDER[17]] == b[ORDER[17]] && a[ORDER[15]] == b[ORDER[15]];
    assert a[ORDER[13]] == b[ORDER[13]] && a[ORDER[11]] == b[ORDER[11]] && a[ORDER[9]] == b[ORDER[9]];
    assert a[ORDER[7]] == b[ORDER[7]] && a[ORDER[5]] == b[ORDER[5]] && a[ORDER[4]] == b[ORDER[4]];
    assert a[ORDER[6]] == b[ORDER[6]] && a[ORDER[8]] == b[ORDER[8]] && a[ORDER[10]] == b[ORDER[10]];
    assert a[ORDER[12]] == b[ORDER[12]] && a[ORDER[14]] == b[ORDER[14]] && a[ORDER[16]] == b[ORDER[16]];
    assert a[ORDER[18]] == b[ORDER[18]] && a[ORDER[0]] == b[ORDER[0]] && a[ORDER[1]] == b[ORDER[1]];
    assert a[ORDER[2]] == b[ORDER[2]];
  }

  /** Bits that begin with no code of a usable code length code reach no invalid-code entry. */
  lemma {:induction false} NeverBad(T: Tables, l: nat, cl: seq<nat>, w: nat)
    requires |cl| == 19 && Lengths(cl) && Usable(cl) && HuftMain.DecodesTo(T, l, cl, 19, [], [], w)
    ensures var f := Look(T, 0, l, w, 0);
      match Decode(cl, w, 0)
      case Sym(m, bits) => m < 19 && f == Hit(16, m, bits)
      case NoCode => f == Stray
  {
    var d := Decode(cl, w, 0);
    var g := HuftMain.MaxLength(cl);
    SymInRange(cl, w);
    if d.NoCode? && g > 0 {
      UsableIff(cl);
      if Kraft(cl) == Pow2(BMAX) {
        HuftMain.CompleteDecodes(cl, w);
      } else {
        assert g == 1;
        SmallIndex(cl, w);
      }
    }
  }

  lemma {:induction false} SmallIndex(b: seq<nat>, w: nat)
    requires HuftMain.MaxLength(b) == 1
    ensures HuftMain.DummyIndex(b, w) <= 1
  {
    assert Rev(1, w) < Pow2(1);
  }

  /** A code length symbol: one lookup, single level; its entry is not checked. */
  method ReadLengthSymbol(r: Reader, T: Tables, l: nat, ghost cl: seq<nat>) returns (v: Verdict, j: nat)
    requires r.Valid() && l <= 16 && |cl| == 19 && Lengths(cl) && Usable(cl)
    requires HuftMain.DecodesAll(T, l, cl, 19, [], []) && (T == [] || HuftBuild.Flat(T))
    modifies r
    ensures r.Valid()
    ensures var g := Symbol(cl, old(r.Rest()));
      match v
      case Code => g == Got(j, r.Rest()) && j < 19
      case InputEnds => g.Got? ==> g.rest.left <= Spare(Lean(T, l))
      case _ => !g.Got?
    ensures old(r.bk) < 16 && Lean(T, l) && v == Code ==> r.bk < 16
  {
    hide r.Rest, r.Valid, Look, Decode, HuftPlan.SymbolEntry, HuftMain.DummyIndex, Usable;
    ghost var s := r.Rest();
    assert HuftMain.DecodesTo(T, l, cl, 19, [], [], s.w);
    NeverBad(T, l, cl, s.w);
    LookCases(T, 0, l, s.w, 0);
    j := 0;
    var ok := r.NeedBits(l);
    if !ok {
      return InputEnds, j;
    }
    r.AtHand(l);
    if |T| == 0 || Low(r.bb, l) >= |T[0]| {
      return Undefined, j;  // no table
    }
    var h := T[0][Low(r.bb, l)];
    if h.Unset? {
      return Undefined, j;  // an entry nobody wrote
    }
    assert Lean(T, l) ==> Drops(h, 9);
    if h.b > l || h.e > 16 {
      return Undefined, j;  // not an entry huft_build makes
    }
    r.DumpBits(h.b);
    return Code, h.n;
  }

  lemma {:induction false} LengthsLiteral(cl: seq<nat>, s: In, n: nat, acc: seq<nat>, prev: nat)
    requires |acc| < n
    ensures var g := Symbol(cl, s);
      if !g.Got? then !CodeLengths(cl, s, n, acc, prev).Got?
      else
        && (g.v < 16 ==> CodeLengths(cl, s, n, acc, prev) == CodeLengths(cl, g.rest, n, acc + [g.v], g.v))
        && (CodeLengths(cl, s, n, acc, prev).Got? ==> CodeLengths(cl, s, n, acc, prev).rest.left <= g.rest.left)
  {
    hide Symbol, Take, Rep;
  }

  lemma {:induction false} LengthsRepeat(cl: seq<nat>, s: In, n: nat, acc: seq<nat>, prev: nat)
    requires |acc| < n && Symbol(cl, s).Got? && Symbol(cl, s).v >= 16
    ensures var m := Symbol(cl, s).v;
      var t := Take(Symbol(cl, s).rest, RepeatBits(m));
      if !t.Got? then !CodeLengths(cl, s, n, acc, prev).Got?
      else
        var k := t.v + RepeatBase(m);
        if |acc| + k > n then !CodeLengths(cl, s, n, acc, prev).Got?
        else
          var l := if m == 16 then prev else 0;
          CodeLengths(cl, s, n, acc, prev) == CodeLengths(cl, t.rest, n, acc + Rep(l, k), l)
  {
    hide Symbol, Take, Rep;
  }

  /** Extra bits and base of the repeat counts: 3 to 6, 3 to 10, 11 to 138. */
  function RepeatBits(m: nat): nat { if m == 16 then 2 else if m == 17 then 3 else 7 }
  function RepeatBase(m: nat): nat { if m == 18 then 11 else 3 }

  /** while (j--) ll[i++] = l; */
  method FillLengths(ll: array<nat>, i: nat, l: nat, k: nat)
    requires i + k <= ll.Length
    modifies ll
    ensures ll[..i + k] == old(ll[..i]) + Rep(l, k)
  {
    for j := 0 to k
      invariant forall q :: 0 <= q < i + j ==> ll[q] == if q < i then old(ll[q]) else l
    {
      ll[i + j] := l;
    }
    hide Rep;
  }

  /** One code length symbol: a length, or a repetition. */
  method ReadLengthsOnce(r: Reader, T: Tables, bl: nat, ll: array<nat>, i: nat, l: nat, n: nat, ghost cl: seq<nat>)
      returns (o: Outcome, i': nat, l': nat)
    requires r.Valid() && bl <= 16 && |cl| == 19 && Lengths(cl) && Usable(cl)
    requires HuftMain.DecodesAll(T, bl, cl, 19, [], []) && (T == [] || HuftBuild.Flat(T))
    requires i < n <= ll.Length && Small(ll[..i], 16) && l < 16
    modifies r, ll
    ensures r.Valid()
    ensures var ref := CodeLengths(cl, old(r.Rest()), n, old(ll[..i]), l);
      match o
      case Done => i < i' <= n && l' < 16 && Small(ll[..i'], 16) && ref == CodeLengths(cl, r.Rest(), n, ll[..i'], l')
      case Halted => ref.Got? ==> ref.rest.left <= Spare(Lean(T, bl))
      case _ => !ref.Got?
    ensures old(r.bk) < 16 && Lean(T, bl) && o == Done ==> r.bk < 16
  {
    hide r.Rest, r.Valid, Symbol, CodeLengths, Take, Rep, HuftMain.DecodesAll, HuftBuild.Flat, Usable, Lengths, Lean;
    ghost var s, acc := r.Rest(), ll[..i];
    LengthsLiteral(cl, s, n, acc, l);
    i', l' := i, l;
    var v, j := ReadLengthSymbol(r, T, bl, cl);
    if v != Code {
      return Stop(v), i', l';
    }
    if j < 16 {  // length of code in bits (0..15)
      ll[i] := j;
      i', l' := i + 1, j;
      assert ll[..i'] == acc + [j];
      return Done, i', l';
    }
    LengthsRepeat(cl, s, n, acc, l);
    var ok, x := r.GetBits(RepeatBits(j));
    if !ok {
      return Halted, i', l';
    }
    var k := x + RepeatBase(j);
    if i + k > n {
      return Fail(1), i', l';
    }
    if j != 16 {
      l' := 0;
    }
    FillLengths(ll, i, l', k);
    i' := i + k;
    o := Done;
  }

  lemma {:induction false} LengthsEnd(cl: seq<nat>, s: In, n: nat, acc: seq<nat>, prev: nat)
    requires |acc| == n
    ensures CodeLengths(cl, s, n, acc, prev) == Got(acc, s)
  {
  }

  /** Read in literal and distance code lengths. */
  method ReadLengths(r: Reader, T: Tables, bl: nat, ll: array<nat>, n: nat, ghost cl: seq<nat>) returns (o: Outcome)
    requires r.Valid() && bl <= 16 && |cl| == 19 && Lengths(cl) && Usable(cl)
    requires HuftMain.DecodesAll(T, bl, cl, 19, [], []) && (T == [] || HuftBuild.Flat(T))
    requires n <= ll.Length
    modifies r, ll
    ensures r.Valid()
    ensures var ref := CodeLengths(cl, old(r.Rest()), n, [], 0);
      match o
      case Done => ref == Got(ll[..n], r.Rest()) && Small(ll[..n], 16)
      case Halted => ref.Got? ==> ref.rest.left <= Spare(Lean(T, bl))
      case _ => !ref.Got?
    ensures old(r.bk) < 16 && Lean(T, bl) && o == Done ==> r.bk < 16
  {
    hide r.Rest, r.Valid, CodeLengths, HuftMain.DecodesAll, HuftBuild.Flat, Usable, Lengths, Lean;
    var i, l := 0, 0;
    assert ll[..0] == [];
    while i < n
      invariant old(r.bk) < 16 && Lean(T, bl) ==> r.bk < 16
      invariant r.Valid() && 0 <= i <= n && l < 16 && Small(ll[..i], 16)
      invariant CodeLengths(cl, r.Rest(), n, ll[..i], l) == CodeLengths(cl, old(r.Rest()), n, [], 0)
    {
      o, i, l := ReadLengthsOnce(r, T, bl, ll, i, l, n, cl);
      if o != Done {
        return;
      }
    }
    LengthsEnd(cl, r.Rest(), n, ll[..i], l);
    o := Done;
  }

  lemma {:induction false} DynamicHead(s: In, h: seq<bv8>)
    ensures var a := Take(s, 5);
      if !a.Got? then !Dynamic(s, h).Got?
      else
        var b := Take(a.rest, 5);
        if !b.Got? then !Dynamic(s, h).Got?
        else
          var c := Take(b.rest, 4);
          if !c.Got? then !Dynamic(s, h).Got?
          else
            && c.v < 16
            && Dynamic(s, h) == DynamicBody(257 + a.v, 1 + b.v, 4 + c.v, c.rest, h)
  {
    hide Take, DynamicBody, Pow2, Shl;
    var a := Take(s, 5);
    if a.Got? {
      var b := Take(a.rest, 5);
      if b.Got? {
        HclenRange(b.rest);
        var c := Take(b.rest, 4);
        if c.Got? {
          assert Dynamic(s, h) == DynamicBody(257 + a.v, 1 + b.v, 4 + c.v, c.rest, h);
        }
      }
    }
  }

  lemma {:induction false} CodesShrink(lit: seq<nat>, dist: seq<nat>, s: In, h: seq<bv8>)
    ensures Codes(lit, dist, s, h).Got? ==> Codes(lit, dist, s, h).rest.left < s.left
  {
  }

  /** Tables for a set of code lengths that was read decode it, if huft_build accepts it. */
  lemma {:induction false} DynamicFits(b: seq<nat>, l: nat, m: nat)
    requires Small(b, 16) && (l == HuftMain.MaxLength(b) || l >= m)
    requires m == 9 || (m == 6 && |b| <= 30) || (m == 7 && Small(b, 8))
    ensures Lengths(b)
    ensures Usable(b) <==> HuftMain.MaxLength(b) == 0 || HuftMain.Classify(b) == 0
    ensures Usable(b) ==> HuftMain.Fit(b, l)
  {
    UsableIff(b);
    MaxAtMost(b, 15);
    if m == 7 {
      MaxAtMost(b, 7);
    }
    if m == 6 && l >= 6 {
      Pow2Mono(6, l);
      assert Pow2(6) == 64;
    }
    if Usable(b) {
      HuftMain.SmallFit(b, l);
    }
  }

  /** The two trees of a dynamic block, and its codes. */
  method DynamicTrees(r: Reader, w: OutWindow, lit: seq<nat>, dist: seq<nat>) returns (o: Outcome)
    requires r.Valid() && w.Valid() && w.wp < WSIZE
    requires 257 <= |lit| <= 286 && 1 <= |dist| <= 30 && Small(lit, 16) && Small(dist, 16)
    modifies r, w, w.slide
    ensures r.Valid() && w.Valid() && w.wp < WSIZE
    ensures Agrees(o,
      if Usable(lit) && Usable(dist) then Codes(lit, dist, old(r.Rest()), old(w.History())) else Rfc1951.Bad,
      r.Rest(), w.History(), 7)
    ensures old(r.bk) < 16 && o == Done ==> r.bk < 16
  {
    hide r.Rest, r.Valid, w.Valid, w.History, Codes, HuftMain.DecodesAll, HuftMain.MaxLength, HuftMain.Classify,
      HuftMain.Fit, Usable, HuftBuild.Flat, Lean, Steady, Kraft;
    DynamicFits(lit, HuftMain.MaxLength(lit), 9);
    DynamicFits(dist, HuftMain.MaxLength(dist), 6);
    var i, tl, bl := HuftMain.Build(lit, 257, CPLENS, CPLEXT, 9);
    DynamicFits(lit, bl, 9);
    if i != 0 {
      return Fail(i);  // incomplete code set
    }
    var td, bd;
    i, td, bd := HuftMain.Build(dist, 0, CPDIST, CPDEXT, 6);
    DynamicFits(dist, bd, 6);
    if i != 0 {
      return Fail(i);
    }
    NineBits(lit, bl, 9);
    NineBits(dist, bd, 6);
    LeanAtNine(tl, bl);
    LeanAtNine(td, bd);
    o := InflateCodes(r, w, tl, td, bl, bd, lit, dist);
  }

  /** The code length code, the lengths it codes, and the rest of the block. */
  method DynamicLengths(r: Reader, w: OutWindow, nl: nat, nd: nat, nb: nat) returns (o: Outcome)
    requires r.Valid() && w.Valid() && w.wp < WSIZE && 257 <= nl <= 286 && 1 <= nd <= 30 && nb <= 19
    modifies r, w, w.slide
    ensures r.Valid() && w.Valid() && w.wp < WSIZE
    ensures Agrees(o, DynamicBody(nl, nd, nb, old(r.Rest()), old(w.History())), r.Rest(), w.History(), 7)
    ensures old(r.bk) < 16 && o == Done ==> r.bk < 16
  {
    hide r.Rest, r.Valid, w.Valid, w.History, Codes, HuftMain.DecodesAll, HuftMain.MaxLength, HuftMain.Classify,
      HuftMain.Fit, Usable, HuftBuild.Flat, CodeLengths, CodeLengthLengths, Rep, Lengths, Lean, Steady;
    ghost var s := r.Rest();
    var ll := new nat[286 + 30];
    var ok := ReadCodeLengthLengths(r, ll, nb);
    if !ok {
      return Halted;
    }
    var cl := ll[..19];
    DynamicFits(cl, HuftMain.MaxLength(cl), 7);
    var i, T, bl := HuftMain.Build(cl, 19, [], [], 7);
    DynamicFits(cl, bl, 7);
    if i != 0 {
      return Fail(i);  // incomplete code set
    }
    SingleLevel(cl, bl);
    LeanAtNine(T, bl);
    o := ReadLengths(r, T, bl, ll, nl + nd, cl);
    if DynamicBody(nl, nd, nb, s, w.History()).Got? {
      BodyLeft(nl, nd, nb, s, w.History());
    }
    if o != Done {
      return;
    }
    var lit, dist := ll[..nl], ll[nl..nl + nd];
    assert ll[..nl + nd][..nl] == lit && ll[..nl + nd][nl..] == dist;
    o := DynamicTrees(r, w, lit, dist);
  }

  lemma {:induction false} SingleLevel(cl: seq<nat>, bl: nat)
    requires Small(cl, 8) && (bl == HuftMain.MaxLength(cl) || bl >= 7)
    ensures HuftMain.MaxLength(cl) <= bl && HuftMain.MaxLength(cl) <= 7
  {
    MaxAtMost(cl, 7);
  }

  /** A dynamic block that decodes leaves no more than its code lengths left. */
  lemma {:induction false} BodyLeft(nl: nat, nd: nat, nb: nat, s: In, h: seq<bv8>)
    requires nb <= 19 && DynamicBody(nl, nd, nb, s, h).Got?
    ensures var c := CodeLengthLengths(s, 0, nb, Rep(0, 19));
      && c.Got? && Usable(c.v)
      && var g := CodeLengths(c.v, c.rest, nl + nd, [], 0);
         g.Got? && DynamicBody(nl, nd, nb, s, h).rest.left <= g.rest.left
  {
    hide CodeLengthLengths, CodeLengths, Usable, Rep;
    var c := CodeLengthLengths(s, 0, nb, Rep(0, 19));
    var g := CodeLengths(c.v, c.rest, nl + nd, [], 0);
    CodesShrink(g.v[..nl], g.v[nl..], g.rest, h);
  }

  lemma {:induction false} TooMany(nl: nat, nd: nat, nb: nat, s: In, h: seq<bv8>)
    requires nb <= 19 && (nl > 286 || nd > 30)
    ensures !DynamicBody(nl, nd, nb, s, h).Got?
  {
  }

  /** inflate_dynamic: a block with codes of its own. */
  method InflateDynamic(r: Reader, w: OutWindow) returns (o: Outcome)
    requires r.Valid() && w.Valid() && w.wp < WSIZE
    modifies r, w, w.slide
    ensures r.Valid() && w.Valid() && w.wp < WSIZE
    ensures Agrees(o, Dynamic(old(r.Rest()), old(w.History())), r.Rest(), w.History(), 7)
    ensures old(r.bk) < 16 && o == Done ==> r.bk < 16
  {
    hide r.Rest, r.Valid, w.Valid, w.History, Dynamic, DynamicBody, Take;
    DynamicHead(r.Rest(), w.History());
    var ok, hlit := r.GetBits(5);
    if !ok {
      return Halted;
    }
    var hdist;
    ok, hdist := r.GetBits(5);
    if !ok {
      return Halted;
    }
    var hclen;
    ok, hclen := r.GetBits(4);
    if !ok {
      return Halted;
    }
    var nl, nd, nb := 257 + hlit, 1 + hdist, 4 + hclen;
    if nl > 286 || nd > 30 {
      TooMany(nl, nd, nb, r.Rest(), w.History());
      return Fail(1);  // bad lengths
    }
    o := DynamicLengths(r, w, nl, nd, nb);
  }

  // ---- inflate_block and inflate -----------------------------------------------------------

  lemma {:induction false} BlockHead(s: In, h: seq<bv8>)
    ensures var a := Take(s, 1);
      if !a.Got? then !Block(s, h).Got?
      else
        var b := Take(a.rest, 2);
        if !b.Got? then !Block(s, h).Got?
        else
          var s2 := b.rest;
          && (b.v == 0 ==> Block(s, h) == Tagged(a.v == 1, Stored(s2, h)))
          && (b.v == 1 ==> Block(s, h) == Tagged(a.v == 1, Codes(FixedLit(), FixedDist(), s2, h)))
          && (b.v == 2 ==> Block(s, h) == Tagged(a.v == 1, Dynamic(s2, h)))
          && (b.v > 2 ==> !Block(s, h).Got?)
  {
    hide Take, Stored, Codes, Dynamic, FixedLit, FixedDist;
  }

  function Tagged(last: bool, r: Got<seq<bv8>>): Got<(bool, seq<bv8>)> {
    match r
    case Got(v, rest) => Got((last, v), rest)
    case Bad => Rfc1951.Bad
    case Eof => Eof
  }

  /** The block fits the reference. */
  ghost predicate BlockAgrees(o: Outcome, e: nat, ref: Got<(bool, seq<bv8>)>, rest: In, h: seq<bv8>) {
    match o
    case Done => ref == Got((e == 1, h), rest)
    case Halted => ref.Got? ==> ref.rest.left <= 7
    case Fail(_) => !ref.Got?
    case Wild => !ref.Got?
  }

  /** inflate_block; `e` is the last block flag. */
  method InflateBlock(r: Reader, w: OutWindow) returns (o: Outcome, e: nat)
    requires r.Valid() && w.Valid() && w.wp < WSIZE
    modifies r, w, w.slide
    ensures r.Valid() && w.Valid() && w.wp < WSIZE
    ensures BlockAgrees(o, e, Block(old(r.Rest()), old(w.History())), r.Rest(), w.History())
    ensures old(r.bk) < 16 && o == Done ==> r.bk < 16
  {
    hide r.Rest, r.Valid, w.Valid, w.History, Dynamic, Stored, Codes, Take, Block, FixedLit, FixedDist;
    BlockHead(r.Rest(), w.History());
    var ok;
    ok, e := r.GetBits(1);
    if !ok {
      return Halted, e;
    }
    var t;
    ok, t := r.GetBits(2);
    if !ok {
      return Halted, e;
    }
    if t == 2 {
      o := InflateDynamic(r, w);
    } else if t == 0 {
      o := InflateStored(r, w);
    } else if t == 1 {
      o := InflateFixed(r, w);
    } else {
      o := Fail(2);  // bad block type
    }
  }

  lemma {:induction false} InflateStep(s: In, h: seq<bv8>)
    ensures var b := Block(s, h);
      if !b.Got? then !Inflate(s, h).Got?
      else
        && b.rest.left < s.left
        && (b.v.0 ==> Inflate(s, h) == Got(b.v.1, b.rest))
        && (!b.v.0 ==> Inflate(s, h) == Inflate(b.rest, b.v.1))
        && (Inflate(s, h).Got? ==> Inflate(s, h).rest.left <= b.rest.left)
  {
    hide Block;
    assert Block(s, h).Got? ==> Block(s, h).rest.left < s.left by { BlockUses(s, h); }
  }

  /** The blocks up to the last one. */
  method InflateBlocks(r: Reader, w: OutWindow) returns (o: Outcome)
    requires r.Valid() && w.Valid() && w.wp < WSIZE
    modifies r, w, w.slide
    ensures r.Valid() && w.Valid() && w.wp < WSIZE
    ensures Agrees(o, Rfc1951.Inflate(old(r.Rest()), old(w.History())), r.Rest(), w.History(), 7)
    ensures old(r.bk) < 16 && o == Done ==> r.bk < 16
  {
    hide r.Rest, r.Valid, w.Valid, w.History, Block, Rfc1951.Inflate;
    var e := 0;
    while e != 1
      invariant old(r.bk) < 16 ==> r.bk < 16
      invariant r.Valid() && w.Valid() && w.wp < WSIZE
      invariant e != 1 ==>
        Rfc1951.Inflate(r.Rest(), w.History()) == Rfc1951.Inflate(old(r.Rest()), old(w.History()))
      invariant e == 1 ==> Rfc1951.Inflate(old(r.Rest()), old(w.History())) == Got(w.History(), r.Rest())
      decreases e != 1, r.Rest().left
    {
      InflateStep(r.Rest(), w.History());
      o, e := InflateBlock(r, w);
      if o != Done {
        return;
      }
    }
    o := Done;
  }

  /** Undo too much lookahead and flush out the window. */
  method Finish(r: Reader, w: OutWindow)
    requires r.Valid() && w.Valid()
    modifies r, w
    ensures w.crc == Register(w.output) && w.pre + w.output == old(w.History())
    ensures r.inptr <= |r.inbuf| ==> |r.data| - r.At() == old(r.Rest()).left / 8
    ensures old(r.bk) / 8 <= old(r.inptr) <==> r.inptr <= |r.inbuf|
    ensures old(r.bk) < 16 ==> r.inptr <= |r.inbuf|
  {
    hide r.Rest, r.Valid, w.Valid, w.History, Register;
    r.Undo();
    w.Flush();
    EndOfHistory(w);
  }

  /** What decoding `d` gives after the history `pre`. */
  function Reference(d: seq<bv8>, pre: seq<bv8>): Got<seq<bv8>> {
    Rfc1951.Inflate(In(Stream(d), 8 * |d|), pre)
  }

  /** Data that refers to nothing before itself decodes the same after any history. */
  lemma {:induction false} ReferenceAfter(d: seq<bv8>, pre: seq<bv8>)
    requires InflateBytes(d).Got?
    ensures Reference(d, pre) == Before(pre, InflateBytes(d))
  {
    hide Rfc1951.Inflate, Stream;
    InflateAfter(pre, In(Stream(d), 8 * |d|), []);
    assert pre + [] == pre;
  }

  /** inflate: decompress an entry.  What comes out is exactly what the format says, and the input is read
      on from the byte after it; and data the format allows is decompressed if a byte follows it, as one
      does in input_data. */
  method InflateAll(r: Reader, w: OutWindow) returns (o: Outcome)
    requires r.Valid() && r.bk == 0 && w.Valid() && w.wp == 0 && w.output == []
    modifies r, w, w.slide
    ensures 0 <= old(r.At()) <= |r.data|
    ensures var d := r.data[old(r.At())..];
      InflateBytes(d).Got? && InflateBytes(d).rest.left >= 8 ==> o == Done && w.output == InflateBytes(d).v
    ensures var ref := Reference(r.data[old(r.At())..], w.pre);
      if o == Done then
        && ref.Got? && ref.v == w.pre + w.output && w.crc == Register(w.output)
        && r.inptr <= |r.inbuf| && |r.data| - r.At() == ref.rest.left / 8
      else if o == Halted then ref.Got? ==> ref.rest.left < 8
      else !ref.Got?
  {
    ghost var d := r.data[r.At()..];
    StartOfBytes(r, d, w.pre);
    StartOfHistory(w);
    hide r.Rest, r.Valid, w.Valid, w.History, InflateBytes, Register, r.At;
    if InflateBytes(d).Got? {
      ReferenceAfter(d, w.pre);
    }
    hide Reference;
    o := InflateBlocks(r, w);
    if o == Done {
      Finish(r, w);
      if InflateBytes(d).Got? {
        SameTail(w.pre, InflateBytes(d).v, w.output);
      }
    }
  }

  lemma {:induction false} StartOfBytes(r: Reader, d: seq<bv8>, pre: seq<bv8>)
    requires r.Valid() && r.bk == 0 && 0 <= r.At() <= |r.data| && d == r.data[r.At()..]
    ensures Rfc1951.Inflate(r.Rest(), pre) == Reference(d, pre)
  {
    assert r.Rest() == In(Stream(d), 8 * |d|) by { hide Rfc1951.Inflate, Stream; }
    hide Rfc1951.Inflate, Stream, r.Rest;
  }

  lemma {:induction false} SameTail(pre: seq<bv8>, a: seq<bv8>, b: seq<bv8>)
    ensures pre + a == pre + b ==> a == b
  {
    if pre + a == pre + b {
      assert (pre + a)[|pre|..] == a && (pre + b)[|pre|..] == b;
    }
  }

  lemma {:induction false} StartOfHistory(w: OutWindow)
    requires w.Valid() && w.wp == 0 && w.output == []
    ensures w.History() == w.pre
  {
  }

  lemma {:induction false} EndOfHistory(w: OutWindow)
    requires w.wp == 0
    ensures w.History() == w.pre + w.output
  {
  }
}
