/** reg_store_bcd and reg_load_bcd of drivers/FPU-emu/reg_ld_str.c: eighteen decimal digits, two to a
    byte, and a sign.
 */
module FpuBcd {

  import opened Bits
  import opened FpuRound
  import opened FpuLoad

  const MOST: nat := 999_999_999_999_999_999
  const DIGITS: nat := 9
  const BYTES: nat := 10

  /** What a byte of two digits counts. */
  function Pair(b: nat): nat { b % 16 + 10 * (b / 16) }

  /** The number written in some bytes, lowest digits first. */
  function Value(s: seq<nat>): nat { if s == [] then 0 else Pair(s[0]) + 100 * Value(s[1..]) }

  ghost predicate BytesOk(s: seq<nat>) { forall i :: 0 <= i < |s| ==> s[i] < 0x100 }

  predicate Digits(b: nat) { b / 16 <= 9 && b % 16 <= 9 }

  ghost predicate Decimal(s: seq<nat>) { forall i :: 0 <= i < |s| ==> Digits(s[i]) }

  /** `x` with `n` pairs of zeros after it. */
  function Scaled(n: nat, x: nat): nat { if n == 0 then x else 100 * Scaled(n - 1, x) }

  lemma {:induction false} ScaledAdd(n: nat, x: nat, y: nat)
    ensures Scaled(n, x + y) == Scaled(n, x) + Scaled(n, y)
  {
    if n > 0 {
      ScaledAdd(n - 1, x, y);
    }
  }

  lemma {:induction false} ScaledMore(n: nat, x: nat)
    ensures Scaled(n + 1, x) == Scaled(n, 100 * x)
  {
    if n > 0 {
      ScaledMore(n - 1, x);
    }
  }

  lemma {:induction false} ScaledNine(x: nat)
    ensures Scaled(9, x) == (MOST + 1) * x
  {
    assert Scaled(1, x) == 100 * x;
    assert Scaled(2, x) == 10_000 * x;
    assert Scaled(3, x) == 1_000_000 * x;
    assert Scaled(4, x) == 100_000_000 * x;
    assert Scaled(5, x) == 10_000_000_000 * x;
    assert Scaled(6, x) == 1_000_000_000_000 * x;
    assert Scaled(7, x) == 100_000_000_000_000 * x;
    assert Scaled(8, x) == 10_000_000_000_000_000 * x;
  }

  lemma {:induction false} ValueSnoc(s: seq<nat>, b: nat)
    ensures Value(s + [b]) == Value(s) + Scaled(|s|, Pair(b))
  {
    if s == [] {
      assert s + [b] == [b];
      assert Value([b][1..]) == 0;
    } else {
      assert (s + [b])[0] == s[0] && (s + [b])[1..] == s[1..] + [b];
      ValueSnoc(s[1..], b);
    }
  }

  /** Bytes that are not digits count too, up to 165 each. */
  lemma {:induction false} ValueMost(s: seq<nat>)
    requires BytesOk(s)
    ensures 99 * Value(s) <= 165 * (Scaled(|s|, 1) - 1)
    ensures Decimal(s) ==> Value(s) < Scaled(|s|, 1)
  {
    if s != [] {
      ValueMost(s[1..]);
      assert Digits(s[0]) ==> Pair(s[0]) <= 99;
      assert s[0] < 0x100 && Pair(s[0]) <= 165;
    }
  }

  /** Digits are determined by the number. */
  lemma {:induction false} ValueUnique(s: seq<nat>, t: seq<nat>)
    requires |s| == |t| && Decimal(s) && Decimal(t) && Value(s) == Value(t)
    ensures s == t
  {
    if s != [] {
      PairUnique(s[0], t[0], Value(s[1..]), Value(t[1..]));
      ValueUnique(s[1..], t[1..]);
      assert s == [s[0]] + s[1..] && t == [t[0]] + t[1..];
    }
  }

  lemma {:induction false} PairUnique(a: nat, b: nat, x: nat, y: nat)
    requires Digits(a) && Digits(b) && Pair(a) + 100 * x == Pair(b) + 100 * y
    ensures a == b && x == y
  {
    var a0, a1, b0, b1 := a % 16, a / 16, b % 16, b / 16;
    assert a == 16 * a1 + a0 && b == 16 * b1 + b0;
    SameDigits(a0, a1, b0, b1, x, y);
  }

  lemma {:induction false} SameDigits(a0: nat, a1: nat, b0: nat, b1: nat, x: nat, y: nat)
    requires a0 <= 9 && a1 <= 9 && b0 <= 9 && b1 <= 9 && a0 + 10 * a1 + 100 * x == b0 + 10 * b1 + 100 * y
    ensures a0 == b0 && a1 == b1 && x == y
  {
  }

  /** The assembler routine div_small. */
  method DivSmall(x: nat, y: nat) returns (q: nat, rem: nat)
    requires y > 0
    ensures q == x / y && rem == x % y
  {
    q, rem := x / y, x % y;
  }

  /** Whether the number rounds to one of eighteen digits, and to which. */
  ghost predicate Fits(rc: Rc, sign: bool, tag: Tag, exp: int, sig: nat, m: nat) {
    && m <= MOST
    && if tag == Zero then m == 0 else tag != Empty && exp <= 63 && Rounded(rc, sign, sig, 63 - exp, m)
  }

  /** The indefinite value. */
  function Indefinite(): (s: seq<nat>)
    ensures |s| == BYTES
  {
    [0, 0, 0, 0, 0, 0, 0, 0xc0, 0xff, 0xff]
  }

  /** Nine bytes of digits. */
  method PutDigits(mem: array<nat>, d: nat, m: nat)
    requires d + BYTES <= mem.Length && m <= MOST
    modifies mem
    ensures Decimal(mem[d..d + DIGITS]) && Value(mem[d..d + DIGITS]) == m
    ensures forall i :: 0 <= i < mem.Length && !(d <= i < d + DIGITS) ==> mem[i] == old(mem[i])
  {
    hide Value, Scaled, Pair, Digits;
    var ll := m;
    NoDigits(ll);
    assert mem[d..d] == [];
    for i := 0 to DIGITS
      invariant Decimal(mem[d..d + i]) && Value(mem[d..d + i]) + Scaled(i, ll) == m
      invariant forall j :: 0 <= j < mem.Length && !(d <= j < d + i) ==> mem[j] == old(mem[j])
    {
      ghost var s, l0 := mem[d..d + i], ll;
      var b, c;
      ll, b := DivSmall(ll, 10);
      ll, c := DivSmall(ll, 10);
      mem[d + i] := b + 16 * c;
      TwoDigits(l0, b, c);
      assert mem[d..d + i + 1] == s + [b + 16 * c];
      ValueSnoc(s, b + 16 * c);
      ScaledAdd(i, Pair(b + 16 * c), 100 * ll);
      ScaledMore(i, ll);
    }
    ScaledNine(ll);
  }

  lemma {:induction false} NoDigits(x: nat)
    ensures Value([]) == 0 && Scaled(0, x) == x
  {
  }

  lemma {:induction false} TwoDigits(l: nat, b: nat, c: nat)
    requires b == l % 10 && c == l / 10 % 10
    ensures Digits(b + 16 * c) && Pair(b + 16 * c) == b + 10 * c && Pair(b + 16 * c) + 100 * (l / 10 / 10) == l
  {
  }

  /** reg_store_bcd (lines 1029-1096), invalid operation masked: the digits of the number rounded to an
      integer, or the indefinite value where they do not suffice. */
  method StoreBcd(st0: Reg, rc: Rc, mem: array<nat>, d: nat) returns (loss: Loss, ghost m: nat)
    requires st0.Words() && (st0.tag == Infinity || st0.tag == NaN ==> st0.exp == EXP_OVER)
    requires d + BYTES <= mem.Length
    modifies mem
    ensures forall i :: 0 <= i < mem.Length && !(d <= i < d + BYTES) ==> mem[i] == old(mem[i])
    ensures Fits(rc, st0.sign, st0.tag, st0.exp, st0.Sig(), m) ==>
      && Decimal(mem[d..d + DIGITS]) && Value(mem[d..d + DIGITS]) == m
      && mem[d + DIGITS] == (if st0.sign then 0x80 else 0)
    ensures !Fits(rc, st0.sign, st0.tag, st0.exp, st0.Sig(), m) ==>
      && mem[d..d + BYTES] == Indefinite()
      && forall k :: !Fits(rc, st0.sign, st0.tag, st0.exp, st0.Sig(), k)
  {
    hide Rounded, Shl, Value, Decimal;
    loss, m := Exact, 0;
    var invalid := st0.tag == Empty;
    if !invalid {
      var t := new Reg.Copy(st0);
      loss := RoundToInt(t, rc);
      m := t.Sig();
      if t.sigh > 0x0de0_b6b3 || (t.sigh == 0x0de0_b6b3 && t.sigl > 0xa763_ffff) {
        invalid := true;
      } else {
        PutDigits(mem, d, t.Sig());
        mem[d + DIGITS] := if st0.sign then 0x80 else 0;
        assert mem[d..d + DIGITS] == mem[d..][..DIGITS];
      }
    }
    if invalid {
      PutIndefinite(mem, d);
      forall k | Fits(rc, st0.sign, st0.tag, st0.exp, st0.Sig(), k)
        ensures false
      {
        FitsOnly(rc, st0.sign, st0.tag, st0.exp, st0.Sig(), m, k);
      }
    }
  }

  /** Lines 1061-1067. */
  method PutIndefinite(mem: array<nat>, d: nat)
    requires d + BYTES <= mem.Length
    modifies mem
    ensures mem[d..d + BYTES] == Indefinite()
    ensures forall i :: 0 <= i < mem.Length && !(d <= i < d + BYTES) ==> mem[i] == old(mem[i])
  {
    for i := 0 to 7
      invariant forall j :: d <= j < d + i ==> mem[j] == 0
      invariant forall j :: 0 <= j < mem.Length && !(d <= j < d + i) ==> mem[j] == old(mem[j])
    {
      mem[d + i] := 0;
    }
    mem[d + 7], mem[d + 8], mem[d + 9] := 0xc0, 0xff, 0xff;
  }

  /** If a number fits, it fits as what it rounds to. */
  lemma {:induction false} FitsOnly(rc: Rc, sign: bool, tag: Tag, exp: int, sig: nat, m: nat, k: nat)
    requires tag != Empty && exp <= 63 ==> if tag == Zero then m == 0 else Rounded(rc, sign, sig, 63 - exp, m)
    requires Fits(rc, sign, tag, exp, sig, k)
    ensures tag == Zero || m == k
  {
    hide Rounded;
    if tag != Zero {
      RoundedUnique(rc, sign, sig, 63 - exp, m, k);
    }
  }

  /** reg_load_bcd (lines 392-438): the number the bytes say, exactly. */
  method LoadBcd(r: Reg, mem: array<nat>, d: nat) returns (ghost s: nat)
    requires d + BYTES <= mem.Length && BytesOk(mem[d..d + BYTES])
    modifies r
    ensures r.Words() && r.sign == (mem[d + DIGITS] >= 0x80)
    ensures var v := Value(mem[d..d + DIGITS]);
      if v == 0 then r.tag == Zero
      else r.tag == Valid && r.sigh >= 0x8000_0000 && r.exp == 63 - s && r.Sig() == Shl(v, s)
  {
    hide Shl, Value, Scaled;
    var l := 0;
    s := 0;
    ghost var whole := mem[d..d + DIGITS];
    ValueCons([]);
    assert whole[DIGITS..] == [];
    for pos := DIGITS downto 0
      invariant l == Value(whole[pos..])
    {
      assert whole[pos] == mem[d + pos];
      ValueCons(whole[pos..]);
      assert whole[pos..][1..] == whole[pos + 1..];
      l := l * 10;
      var bcd := mem[d + pos];
      l := l + bcd / 16;
      l := l * 10;
      l := l + bcd % 16;
    }
    assert whole[0..] == whole;
    r.sign := mem[d + DIGITS] / 0x80 % 2 == 1;
    ValueMost(whole) by { assert forall i :: 0 <= i < DIGITS ==> whole[i] == mem[d..d + BYTES][i]; }
    ScaledNine(1);
    assert mem[d..d + BYTES][DIGITS] == mem[d + DIGITS];
    if l == 0 {
      r.tag, r.exp, r.sigh, r.sigl := Zero, EXP_UNDER, 0, 0;
    } else {
      r.SetSig(l);
      r.exp, r.tag := 63, Valid;
      s := NormalizeNuo(r);
    }
  }

  lemma {:induction false} ValueCons(s: seq<nat>)
    ensures s != [] ==> Value(s) == Pair(s[0]) + 100 * Value(s[1..])
    ensures Value([]) == 0
  {
  }

  /** Loaded and stored again, ten bytes keep their number and sign whatever the rounding mode, as long
      as eighteen digits can say it; decimal bytes with a plain sign byte come back as they were. */
  method BcdThrough(mem: array<nat>, d: nat, rc: Rc)
    requires d + BYTES <= mem.Length && BytesOk(mem[d..d + BYTES])
    modifies mem
    ensures old(Value(mem[d..d + DIGITS])) <= MOST ==>
      && Decimal(mem[d..d + DIGITS]) && Value(mem[d..d + DIGITS]) == old(Value(mem[d..d + DIGITS]))
      && mem[d + DIGITS] == if old(mem[d + DIGITS]) >= 0x80 then 0x80 else 0
    ensures old(Value(mem[d..d + DIGITS])) > MOST ==> mem[d..d + BYTES] == Indefinite()
    ensures old(Decimal(mem[d..d + DIGITS])) && old(mem[d + DIGITS]) % 0x80 == 0 ==> mem[..] == old(mem[..])
  {
    hide Value, Decimal, Rounded, Shl, Scaled;
    ghost var was := mem[d..d + DIGITS];
    assert BytesOk(was) by { assert forall i :: 0 <= i < DIGITS ==> was[i] == mem[d..d + BYTES][i]; }
    assert mem[d..d + BYTES][DIGITS] == mem[d + DIGITS];
    ghost var v := Value(was);
    var r := new Reg(false, Empty, 0, 0, 0);
    ghost var s := LoadBcd(r, mem, d);
    if v != 0 {
      ExactRounded(rc, r.sign, v, s);
    }
    var loss;
    ghost var m;
    loss, m := StoreBcd(r, rc, mem, d);
    if v <= MOST {
      assert Fits(rc, r.sign, r.tag, r.exp, r.Sig(), v);
      if v != 0 {
        RoundedUnique(rc, r.sign, r.Sig(), s, v, m);
      }
    }
    ValueMost(was);
    ScaledNine(1);
    if v > MOST && Fits(rc, r.sign, r.tag, r.exp, r.Sig(), m) {
      RoundedUnique(rc, r.sign, r.Sig(), s, v, m);
      assert false;
    }
    if Decimal(was) {
      ValueUnique(was, mem[d..d + DIGITS]);
      if old(mem[d + DIGITS]) % 0x80 == 0 {
        forall i | 0 <= i < mem.Length ensures mem[i] == old(mem[i]) {
          if d <= i < d + DIGITS {
            assert mem[d..d + DIGITS][i - d] == was[i - d];
          }
        }
      }
    }
  }
}
