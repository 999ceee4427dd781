/** The CRC-32 of misc.c: the table built by makecrc and the byte-at-a-time updcrc, against the
    bit-at-a-time shift register they stand for (RFC 1952, section 8).
 */
module Crc {

  /** x^26 + x^23 + ... + x + 1, first term most significant, without x^32. */
  const POLY: bv32 := 0xEDB88320

  const START: bv32 := 0xFFFFFFFF

  // The bit operations have names so that proofs by induction can leave them folded.
  function Xor(a: bv32, b: bv32): bv32 { a ^ b }
  function Lsb(a: bv32): bv32 { a & 1 }
  function Half(a: bv32): bv32 { a >> 1 }

  /** Shift one bit out of the register. */
  function Step(c: bv32): bv32 {
    if Lsb(c) == 1 then Xor(Half(c), POLY) else Half(c)
  }

  /** Feed the lowest `n` bits of `b` into the register, lowest first. */
  function Serial(c: bv32, b: bv32, n: nat): bv32
    decreases n
  {
    if n == 0 then c else Serial(Step(Xor(c, Lsb(b))), Half(b), n - 1)
  }

  /** The register after all bits of all bytes of `s`. */
  function Register(s: seq<bv8>): bv32 {
    if s == [] then START
    else Serial(Register(s[..|s| - 1]), s[|s| - 1] as bv32, 8)
  }

  /** Shift `n` times with nothing fed in. */
  function Steps(c: bv32, n: nat): bv32
    decreases n
  {
    if n == 0 then c else Steps(Step(c), n - 1)
  }

  function Halves(b: bv32, n: nat): bv32
    decreases n
  {
    if n == 0 then b else Halves(Half(b), n - 1)
  }

  // ---- the register is linear --------------------------------------------------------------

  lemma {:induction false} ShiftXor(a: bv32, b: bv32)
    ensures Half(Xor(a, b)) == Xor(Half(a), Half(b))
    ensures Lsb(Xor(a, b)) == Xor(Lsb(a), Lsb(b))
    ensures Lsb(a) == 0 || Lsb(a) == 1
  {
  }

  lemma {:induction false} XorCancels(x: bv32, y: bv32, p: bv32)
    ensures Xor(Xor(x, p), Xor(y, p)) == Xor(x, y)
  {
    assert (x ^ p) ^ (y ^ p) == x ^ y;
  }

  lemma {:induction false} XorAssoc(x: bv32, y: bv32, z: bv32)
    ensures Xor(Xor(x, y), z) == Xor(x, Xor(y, z))
  {
  }

  lemma {:induction false} XorComm(x: bv32, y: bv32)
    ensures Xor(x, y) == Xor(y, x)
  {
  }

  lemma {:induction false} XorMoves(x: bv32, y: bv32, p: bv32)
    ensures Xor(Xor(x, p), Xor(y, p)) == Xor(x, y)
    ensures Xor(Xor(x, p), y) == Xor(Xor(x, y), p)
    ensures Xor(x, Xor(y, p)) == Xor(Xor(x, y), p)
  {
    hide Xor;
    XorCancels(x, y, p);
    XorAssoc(x, p, y);
    XorComm(p, y);
    XorAssoc(x, y, p);
  }

  lemma {:induction false} StepXor(a: bv32, b: bv32)
    ensures Step(Xor(a, b)) == Xor(Step(a), Step(b))
  {
    ShiftXor(a, b);
    ShiftXor(b, a);
    XorMoves(Half(a), Half(b), POLY);
  }

  lemma {:induction false} StepsXor(a: bv32, b: bv32, n: nat)
    ensures Steps(Xor(a, b), n) == Xor(Steps(a, n), Steps(b, n))
    decreases n
  {
    hide Xor, Step;
    if n > 0 {
      StepXor(a, b);
      StepsXor(Step(a), Step(b), n - 1);
    }
  }

  function Rest(b: bv32): bv32 { b & 0xFFFFFFFE }

  lemma {:induction false} SplitBit(b: bv32)
    ensures b == Xor(Lsb(b), Rest(b))
  {
  }

  lemma {:induction false} RestStep(b: bv32)
    ensures Step(Rest(b)) == Half(b)
  {
  }

  /** Feeding the lowest bit of `b` is shifting a register into which all of `b` has been xored. */
  lemma {:induction false} SerialStep(c: bv32, b: bv32)
    ensures Step(Xor(c, b)) == Xor(Step(Xor(c, Lsb(b))), Half(b))
  {
    hide Xor, Step, Lsb, Half, Rest;
    SplitBit(b);
    XorAssoc(c, Lsb(b), Rest(b));
    StepXor(Xor(c, Lsb(b)), Rest(b));
    RestStep(b);
  }

  lemma {:induction false} SerialAndSteps(c: bv32, b: bv32, n: nat)
    ensures Steps(Xor(c, b), n) == Xor(Serial(c, b, n), Halves(b, n))
    decreases n
  {
    hide Xor, Step, Lsb, Half;
    if n > 0 {
      SerialStep(c, b);
      SerialAndSteps(Step(Xor(c, Lsb(b))), Half(b), n - 1);
    }
  }

  lemma {:induction false} HalvesAdd(b: bv32, m: nat, n: nat)
    ensures Halves(b, m + n) == Halves(Halves(b, m), n)
    decreases m
  {
    hide Half;
    if m > 0 {
      HalvesAdd(Half(b), m - 1, n);
    }
  }

  function Nibble(b: bv32): bv32 { b >> 4 }

  lemma {:induction false} FourHalves(b: bv32)
    ensures Halves(b, 4) == Nibble(b)
  {
    FourTimes(b);
    assert Halves(b, 4) == Halves(Half(b), 3) == Halves(Half(Half(b)), 2)
        == Halves(Half(Half(Half(b))), 1) == Half(Half(Half(Half(b)))) by { hide Half; }
  }

  lemma {:induction false} FourTimes(b: bv32)
    ensures Half(Half(Half(Half(b)))) == Nibble(b)
  {
  }

  lemma {:induction false} TwoNibbles(b: bv32)
    ensures Nibble(Nibble(b)) == b >> 8
  {
  }

  lemma {:induction false} ByteHalves(b: bv32)
    ensures Halves(b, 8) == b >> 8
  {
    hide Halves, Nibble;
    HalvesAdd(b, 4, 4);
    FourHalves(b);
    FourHalves(Nibble(b));
    TwoNibbles(b);
  }

  /** While the low bits are zero nothing is fed back. */
  lemma {:induction false} ShiftOut(x: bv32, n: nat)
    requires LowZero(x, n)
    ensures Steps(x, n) == Halves(x, n)
    decreases n
  {
    hide Xor, Lsb, Half;
    if n > 0 {
      ShiftOut(Half(x), n - 1);
    }
  }

  predicate LowZero(x: bv32, n: nat)
    decreases n
  {
    n == 0 || (Lsb(x) == 0 && LowZero(Half(x), n - 1))
  }

  lemma {:induction false} LowByteZero(x: bv32)
    requires x & 0xFF == 0
    ensures LowZero(x, 8)
  {
    var y := Half(Half(Half(Half(x))));
    assert LowZero(y, 4) by { FourZero(y); }
    assert Lsb(Half(Half(Half(x)))) == 0 && LowZero(Half(Half(Half(x))), 5);
    assert Lsb(Half(Half(x))) == 0 && LowZero(Half(Half(x)), 6);
    assert Lsb(Half(x)) == 0 && LowZero(Half(x), 7);
  }

  lemma {:induction false} FourZero(x: bv32)
    requires x & 0xF == 0
    ensures LowZero(x, 4)
  {
    assert LowZero(Half(Half(Half(x))), 1);
    assert LowZero(Half(Half(x)), 2);
    assert LowZero(Half(x), 3);
  }

  function LowPart(x: bv32): bv32 { x & 0xFF }
  function HighPart(x: bv32): bv32 { x & 0xFFFFFF00 }

  lemma {:induction false} ByteSplit(x: bv32)
    ensures x == Xor(LowPart(x), HighPart(x))
    ensures HighPart(x) & 0xFF == 0 && HighPart(x) >> 8 == x >> 8
  {
  }

  lemma {:induction false} XorZero(x: bv32)
    ensures Xor(x, 0) == x
  {
  }

  lemma {:induction false} XorShift(c: bv32, b: bv32)
    requires b < 256
    ensures Xor(c, b) >> 8 == c >> 8 && b >> 8 == 0
  {
  }

  /** Shifting a whole byte out: the low byte goes through the table, the rest is shifted. */
  lemma {:induction false} EightSteps(x: bv32)
    ensures Steps(x, 8) == Xor(Steps(LowPart(x), 8), x >> 8)
  {
    hide Step, Steps, LowZero, Halves, Half, Lsb, Xor, LowPart, HighPart;
    ByteSplit(x);
    ByteHalves(HighPart(x));
    StepsXor(LowPart(x), HighPart(x), 8);
    LowByteZero(HighPart(x));
    ShiftOut(HighPart(x), 8);
  }

  lemma {:induction false} SerialByte(c: bv32, b: bv32)
    requires b < 256
    ensures Serial(c, b, 8) == Steps(Xor(c, b), 8)
  {
    hide Step, Steps, Serial, Halves, Xor;
    SerialAndSteps(c, b, 8);
    ByteHalves(b);
    XorShift(c, b);
    XorZero(Serial(c, b, 8));
  }

  /** A byte at a time. */
  lemma {:induction false} ByteStep(c: bv32, b: bv32)
    requires b < 256
    ensures Serial(c, b, 8) == Xor(Steps(LowPart(Xor(c, b)), 8), c >> 8)
  {
    hide Steps, Serial, Xor, LowPart;
    SerialByte(c, b);
    EightSteps(Xor(c, b));
    XorShift(c, b);
  }

  // ---- makecrc -----------------------------------------------------------------------------

  /** Terms of the polynomial defining this crc (except x^32). */
  const TERMS: seq<nat> := [0, 1, 2, 4, 5, 7, 8, 10, 11, 12, 16, 22, 23, 26]

  function Pattern(n: nat): bv32
    requires n <= |TERMS|
  {
    if n == 0 then 0 else Pattern(n - 1) | Term(TERMS[n - 1])
  }

  lemma {:induction false} NoTerms()
    ensures Pattern(0) == 0
  {
  }

  function Term(t: nat): bv32
    requires t <= 31
  {
    1 << (31 - t)
  }

  lemma {:induction false} PatternNext(n: nat, p: bv32)
    requires n < |TERMS| && Pattern(n) == p
    ensures Pattern(n + 1) == p | Term(TERMS[n])
  {
    hide Term;
  }

  lemma {:induction false} PatternA()
    ensures Pattern(4) == 0xE8000000
  {
    hide Pattern;
    NoTerms();
    PatternNext(0, 0);
    PatternNext(1, 0x80000000);
    PatternNext(2, 0xC0000000);
    PatternNext(3, 0xE0000000);
  }

  lemma {:induction false} PatternB()
    ensures Pattern(8) == 0xEDA00000
  {
    hide Pattern;
    PatternA();
    PatternNext(4, 0xE8000000);
    PatternNext(5, 0xEC000000);
    PatternNext(6, 0xED000000);
    PatternNext(7, 0xED800000);
  }

  lemma {:induction false} PatternC()
    ensures Pattern(11) == 0xEDB88000
  {
    hide Pattern;
    PatternB();
    PatternNext(8, 0xEDA00000);
    PatternNext(9, 0xEDB00000);
    PatternNext(10, 0xEDB80000);
  }

  lemma {:induction false} PatternIsPoly()
    ensures Pattern(14) == POLY
  {
    hide Pattern;
    PatternC();
    PatternNext(11, 0xEDB88000);
    PatternNext(12, 0xEDB88200);
    PatternNext(13, 0xEDB88300);
  }

  /** Feed the bits of `k` below its highest one. */
  function UpToSentinel(c: bv32, k: bv32): bv32
    decreases k
  {
    if k <= 1 then c
    else
      HalfLess(k);
      UpToSentinel(Step(Xor(c, Lsb(k))), Half(k))
  }

  lemma {:induction false} HalfLess(k: bv32)
    requires k > 1
    ensures Half(k) < k && Half(k) >= 1
  {
  }

  /** `k` is the `n` low bits of `i` under a highest one. */
  predicate Sentinel(k: bv32, i: bv32, n: nat)
    decreases n
  {
    if n == 0 then k == 1 else k > 1 && Lsb(k) == Lsb(i) && Sentinel(Half(k), Half(i), n - 1)
  }

  /** The sentinel stops the loop after `n` bits. */
  lemma {:induction false} SentinelIsSerial(c: bv32, k: bv32, i: bv32, n: nat)
    requires Sentinel(k, i, n)
    ensures UpToSentinel(c, k) == Serial(c, i, n)
    decreases n
  {
    hide Step, Xor, Lsb, Half;
    if n > 0 {
      SentinelIsSerial(Step(Xor(c, Lsb(k))), Half(k), Half(i), n - 1);
    }
  }

  lemma {:induction false} SentinelFour(i: bv32)
    requires i < 16
    ensures Sentinel(i | 16, i, 4)
  {
    assert Sentinel(Half(Half(Half(i | 16))), Half(Half(Half(i))), 1);
    assert Sentinel(Half(Half(i | 16)), Half(Half(i)), 2);
    assert Sentinel(Half(i | 16), Half(i), 3);
  }

  lemma {:induction false} SentinelUp(k: bv32, i: bv32, n: nat)
    requires k > 1 && Lsb(k) == Lsb(i) && Sentinel(Half(k), Half(i), n)
    ensures Sentinel(k, i, n + 1)
  {
    hide Lsb, Half;
  }

  lemma {:induction false} SentinelByte(i: bv32)
    requires i < 256
    ensures Sentinel(i | 256, i, 8)
  {
    var i1, i2, i3, i4 := Half(i), Half(Half(i)), Half(Half(Half(i))), Half(Half(Half(Half(i))));
    var k := i | 256;
    assert i4 < 16 && Half(Half(Half(Half(k)))) == i4 | 16;
    hide Sentinel;
    SentinelFour(i4);
    SentinelUp(Half(Half(Half(k))), i3, 4);
    SentinelUp(Half(Half(k)), i2, 5);
    SentinelUp(Half(k), i1, 6);
    SentinelUp(k, i, 7);
  }

  lemma {:induction false} EntryIsSteps(i: bv32)
    requires i < 256
    ensures UpToSentinel(0, i | 256) == Steps(i, 8)
  {
    hide Step, Steps, Serial, Halves, UpToSentinel, Sentinel;
    SentinelByte(i);
    SentinelIsSerial(0, i | 256, i, 8);
    SerialAndSteps(0, i, 8);
    ByteHalves(i);
    assert Xor(0, i) == i && i >> 8 == 0;
    assert Xor(Serial(0, i, 8), 0) == Serial(0, i, 8);
  }

  function Entry(i: nat): bv32
    requires i < 256
  {
    Steps(i as bv32, 8)
  }

  /** The table: entry `i` is the register after shifting eight times from `i`. */
  ghost predicate Table(t: seq<bv32>) {
    |t| == 256 && forall i :: 0 <= i < 256 ==> t[i] == Entry(i)
  }

  method MakePattern() returns (e: bv32)
    ensures e == POLY
  {
    hide Term, Pattern;
    e := 0;
    NoTerms();
    for i := 0 to |TERMS|
      invariant e == Pattern(i)
    {
      PatternNext(i, e);
      e := e | Term(TERMS[i]);
    }
    PatternIsPoly();
  }

  /** Xoring the pattern in afterwards is feeding the bit beforehand. */
  lemma {:induction false} FeedOne(c: bv32, k: bv32)
    ensures Step(Xor(c, Lsb(k))) == if k & 1 == 1 then Xor(Step(c), POLY) else Step(c)
  {
    StepXor(c, Lsb(k));
    OneBit(c, k);
  }

  lemma {:induction false} OneBit(c: bv32, k: bv32)
    ensures Step(1) == POLY && Step(0) == 0
    ensures Lsb(k) == 1 <==> k & 1 == 1
    ensures Lsb(k) == 0 || Lsb(k) == 1
    ensures Xor(Step(c), 0) == Step(c) && Xor(c, 0) == c
  {
  }

  method FeedBit(c0: bv32, k: bv32, e: bv32) returns (c: bv32)
    requires e == POLY
    ensures c == Step(Xor(c0, Lsb(k)))
  {
    FeedOne(c0, k);
    c := if Lsb(c0) == 1 then Xor(Half(c0), e) else Half(c0);
    if k & 1 == 1 {
      c := Xor(c, e);
    }
    hide Xor, Half, Lsb;
  }

  method TableEntry(i: nat, e: bv32) returns (c: bv32)
    requires 0 < i < 256 && e == POLY
    ensures c == Entry(i)
  {
    hide Step, Steps, Xor, Lsb;
    var b := i as bv32;
    SmallByte(i);
    c := 0;
    var k := b | 256;
    SentinelSet(b);
    while k != 1
      invariant k >= 1 && UpToSentinel(c, k) == UpToSentinel(0, b | 256)
      decreases k
    {
      HalfLess(k);
      c := FeedBit(c, k, e);
      k := Half(k);
    }
    EntryIsSteps(b);
  }

  lemma {:induction false} SmallByte(i: nat)
    requires i < 256
    ensures (i as bv32) < 256
  {
  }

  lemma {:induction false} SentinelSet(b: bv32)
    ensures b | 256 >= 1
  {
  }

  method MakeCrc(t: array<bv32>)
    requires t.Length == 256
    modifies t
    ensures Table(t[..])
  {
    hide Entry, Step, Steps;
    var e := MakePattern();
    t[0] := 0;
    ZeroEntry();
    for i := 1 to 256
      invariant forall j :: 0 <= j < i ==> t[j] == Entry(j)
    {
      var c := TableEntry(i, e);
      t[i] := c;
    }
  }

  lemma {:induction false} ZeroEntry()
    ensures Entry(0) == 0
  {
    LowByteZero(0);
    ShiftOut(0, 8);
    ByteHalves(0);
  }

  // ---- updcrc ------------------------------------------------------------------------------

  function TableIndex(c: bv32, b: bv8): nat {
    ((c ^ (b as bv32)) & 0xFF) as nat
  }

  lemma {:induction false} IndexIs(c: bv32, b: bv8)
    ensures TableIndex(c, b) == LowPart(Xor(c, b as bv32)) as nat
  {
  }

  lemma {:induction false} SmallInt(x: bv32)
    requires x < 256
    ensures (x as nat) < 256 && (x as nat) as bv32 == x
  {
  }

  lemma {:induction false} ByteFits(b: bv8)
    ensures (b as bv32) < 256
  {
  }

  lemma {:induction false} LowByte(x: bv32)
    ensures LowPart(x) < 256
  {
  }

  lemma {:induction false} TableStep(t: seq<bv32>, c: bv32, b: bv8)
    requires Table(t)
    ensures TableIndex(c, b) < 256
    ensures Xor(t[TableIndex(c, b)], c >> 8) == Serial(c, b as bv32, 8)
  {
    hide Step, Steps, Serial, Xor, LowPart;
    var x := LowPart(Xor(c, b as bv32));
    LowByte(Xor(c, b as bv32));
    SmallInt(x);
    ByteFits(b);
    ByteStep(c, b as bv32);
    IndexIs(c, b);
  }

  /** Run a set of bytes through the crc shift register. */
  method UpdCrc(t: array<bv32>, crc: bv32, s: array<bv8>, n: nat, ghost before: seq<bv8>) returns (c: bv32)
    requires Table(t[..]) && n <= s.Length && crc == Register(before)
    ensures c == Register(before + s[..n])
  {
    hide Serial, Steps, TableIndex, Xor, Register;
    c := crc;
    assert before + s[..0] == before;
    for i := 0 to n
      invariant c == Register(before + s[..i])
    {
      RegisterNext(before + s[..i], s[i]);
      assert before + s[..i + 1] == before + s[..i] + [s[i]];
      TableStep(t[..], c, s[i]);
      c := Xor(t[TableIndex(c, s[i])], c >> 8);
    }
  }

  lemma {:induction false} RegisterNext(s: seq<bv8>, b: bv8)
    ensures Register(s + [b]) == Serial(Register(s), b as bv32, 8)
  {
    hide Serial;
    assert (s + [b])[..|s|] == s;
  }

  /** The register through nine digits. */
  lemma {:induction false} DigitOne()
    ensures Serial(0xFFFFFFFF, 0x31, 8) == 0x7C231048
  {
  }

  lemma {:induction false} DigitTwo()
    ensures Serial(0x7C231048, 0x32, 8) == 0xB0ACBB32
  {
  }

  lemma {:induction false} DigitThree()
    ensures Serial(0xB0ACBB32, 0x33, 8) == 0x77B79C2D
  {
  }

  lemma {:induction false} DigitFour()
    ensures Serial(0x77B79C2D, 0x34, 8) == 0x641C1F5C
  {
  }

  lemma {:induction false} DigitFive()
    ensures Serial(0x641C1F5C, 0x35, 8) == 0x340AC5E3
  {
  }

  lemma {:induction false} DigitSix()
    ensures Serial(0x340AC5E3, 0x36, 8) == 0xF68D2C9E
  {
  }

  lemma {:induction false} DigitSeven()
    ensures Serial(0xF68D2C9E, 0x37, 8) == 0xAFFC9660
  {
  }

  lemma {:induction false} DigitEight()
    ensures Serial(0xAFFC9660, 0x38, 8) == 0x651F2550
  {
  }

  lemma {:induction false} DigitNine()
    ensures Serial(0x651F2550, 0x39, 8) == 0x340BC6D9
  {
  }

  /** The check value of the CRC that RFC 1952 uses: the complement of the register of the nine digits. */
  lemma {:induction false} CheckValue()
    ensures Xor(Register([0x31, 0x32, 0x33, 0x34, 0x35, 0x36, 0x37, 0x38, 0x39]), 0xFFFFFFFF) == 0xCBF43926
  {
    hide Serial, Step, Lsb, Half;
    DigitOne();
    DigitTwo();
    DigitThree();
    DigitFour();
    DigitFive();
    DigitSix();
    DigitSeven();
    DigitEight();
    DigitNine();
    var none: seq<bv8> := [];
    assert Register(none) == 0xFFFFFFFF;
    hide Register;
    RegisterNext(none, 0x31);
    RegisterNext(none + [0x31], 0x32);
    RegisterNext(none + [0x31] + [0x32], 0x33);
    RegisterNext(none + [0x31] + [0x32] + [0x33], 0x34);
    RegisterNext(none + [0x31] + [0x32] + [0x33] + [0x34], 0x35);
    RegisterNext(none + [0x31] + [0x32] + [0x33] + [0x34] + [0x35], 0x36);
    RegisterNext(none + [0x31] + [0x32] + [0x33] + [0x34] + [0x35] + [0x36], 0x37);
    RegisterNext(none + [0x31] + [0x32] + [0x33] + [0x34] + [0x35] + [0x36] + [0x37], 0x38);
    RegisterNext(none + [0x31] + [0x32] + [0x33] + [0x34] + [0x35] + [0x36] + [0x37] + [0x38], 0x39);
    assert none + [0x31] + [0x32] + [0x33] + [0x34] + [0x35] + [0x36] + [0x37] + [0x38] + [0x39]
        == [0x31, 0x32, 0x33, 0x34, 0x35, 0x36, 0x37, 0x38, 0x39];
  }
}
