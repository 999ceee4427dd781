/** The floating-point unit's state in memory: fstenv, fsave, fldenv and frstor of
    drivers/FPU-emu/reg_ld_str.c, 32-bit format.
 */
module FpuFrame {

  import opened Bits
  import opened FpuRound
  import opened FpuState
  import opened FpuWords

  const ENV: nat := 14
  const IMAGE: nat := 54

  function Long(m: seq<nat>, p: nat): nat
    requires p + 2 <= |m|
  {
    m[p] + 0x1_0000 * m[p + 1]
  }

  /** Memory words are 16 bits. */
  ghost predicate WordsOk(m: seq<nat>) { forall i :: 0 <= i < |m| ==> m[i] < 0x1_0000 }

  /** The register that `st(i)` is. */
  function Slot(top: nat, i: nat): (k: nat)
    ensures k < 8
  {
    (top + i) % 8
  }

  function St(regs: seq<Content>, top: nat, i: nat): Content
    requires |regs| == 8
  {
    regs[Slot(top, i)]
  }

  /** A register's ten bytes at `p`. */
  ghost predicate RealAt(rc: Rc, m: seq<nat>, p: nat, r: Content)
    requires p + 5 <= |m|
  {
    Written(rc, r, Long(m, p), Long(m, p + 2), m[p + 4])
  }

  /** Where the last instruction and its operand were: offsets and selectors. */
  datatype Pointers = Pointers(ip: nat, cs: nat, data: nat, operand: nat)

  /** What the pointers leave in memory: not all bits of the selectors. */
  function Kept(q: Pointers): (r: Pointers)
  {
    q.(cs := q.cs % 0x800_0000, operand := 0xffff_0000 + q.operand % 0x1_0000)
  }

  ghost predicate PointersAt(m: seq<nat>, p: nat, q: Pointers)
    requires p + 8 <= |m|
  {
    Long(m, p) == q.ip && Long(m, p + 2) == q.cs && Long(m, p + 4) == q.data && Long(m, p + 6) == q.operand
  }

  /** What fstenv leaves at `d` of a machine in the given state; an 80486 sets the reserved bits to 1. */
  ghost predicate Environment(m: seq<nat>, d: nat, cw: nat, ps: nat, top: nat, regs: seq<Content>, q: Pointers)
    requires d + ENV <= |m|
  {
    && m[d] == Control(cw) && m[d + 2] == Status(ps, top) && m[d + 4] == TagWord(regs)
    && m[d + 1] == m[d + 3] == m[d + 5] == 0xffff
    && PointersAt(m, d + 6, Kept(q))
  }

  /** What fsave leaves at `d` of a machine in the given state. */
  ghost predicate Image(m: seq<nat>, d: nat, rc: Rc, cw: nat, ps: nat, top: nat, regs: seq<Content>, q: Pointers)
    requires d + IMAGE <= |m| && |regs| == 8
  {
    && Environment(m, d, cw, ps, top, regs, q)
    && forall i :: 0 <= i < 8 ==> RealAt(rc, m, d + ENV + 5 * i, St(regs, top, i))
  }

  /** What two tag bits say of a register. */
  predicate TagSays(tag: nat, r: Content) {
    && tag < 4
    && (tag == 0 <==> r.tag == Valid && r.exp > -0x3fff)
    && (tag == 1 <==> r.tag == Zero)
    && (tag == 2 <==> r.tag == Infinity || r.tag == NaN || (r.tag == Valid && r.exp <= -0x3fff))
    && (tag == 3 <==> r.tag == Empty)
  }

  /** The environment field by field: control and status word bit by bit, what each register's two tag
      bits say of it, and the pointers. */
  ghost predicate Fields(m: seq<nat>, d: nat, cw: nat, ps: nat, top: nat, regs: seq<Content>, q: Pointers)
    requires d + ENV <= |m| && |regs| == 8
  {
    && ControlKept(m[d], cw) && StatusWord(m[d + 2], ps, top)
    && (forall i: nat :: i < 8 ==> TagSays(TagAt(m[d + 4], i), regs[i]))
    && Long(m, d + 6) == q.ip && Long(m, d + 10) == q.data && Long(m, d + 8) == q.cs % 0x800_0000
    && m[d + 12] == q.operand % 0x1_0000 && m[d + 13] == 0xffff
  }

  lemma {:induction false} FieldsOf(m: seq<nat>, d: nat, cw: nat, ps: nat, top: nat, regs: seq<Content>, q: Pointers)
    requires d + ENV <= |m| && |regs| == 8 && top < 8 && WordsOk(m)
    requires Environment(m, d, cw, ps, top, regs, q)
    ensures Fields(m, d, cw, ps, top, regs, q)
  {
    hide Control, Status, TagWord, TagAt, ControlKept, StatusWord;
    ControlBits(cw);
    StatusBits(ps, top);
    assert m[d + 12] < 0x1_0000 && m[d + 13] < 0x1_0000;
    forall i: nat | i < 8
      ensures TagSays(TagAt(m[d + 4], i), regs[i])
    {
      TagOf(regs, i);
    }
    assert PointersAt(m, d + 6, Kept(q));
    assert Long(m, d + 12) == 0xffff_0000 + q.operand % 0x1_0000;
  }

  method PutLong(mem: array<nat>, p: nat, v: nat)
    requires p + 2 <= mem.Length && v < W32
    modifies mem
    ensures mem[..] == old(mem[..])[p := v % 0x1_0000][p + 1 := v / 0x1_0000]
    ensures Long(mem[..], p) == v && (old(WordsOk(mem[..])) ==> WordsOk(mem[..]))
  {
    mem[p] := v % 0x1_0000;
    mem[p + 1] := v / 0x1_0000;
  }

  /** write_to_extended (lines 1405-1463). */
  method WriteToExtended(r: Content, rc: Rc, mem: array<nat>, p: nat)
    requires p + 5 <= mem.Length && Plain(r) && WordsOk(mem[..])
    modifies mem
    ensures RealAt(rc, mem[..], p, r) && WordsOk(mem[..])
    ensures forall i :: 0 <= i < mem.Length && !(p <= i < p + 5) ==> mem[i] == old(mem[i])
  {
    hide Rounded;
    var e := r.exp + EXT_BIAS;
    if e > 0 {
      PutLong(mem, p, r.sigl);
      PutLong(mem, p + 2, r.sigh);
    } else {
      var tmp := new Reg(r.sign, r.tag, r.exp - (1 - EXT_BIAS) + 63, r.sigh, r.sigl);
      assert tmp.Sig() == SigOf(r);
      var _ := RoundToInt(tmp, rc);
      e := 0;
      PutLong(mem, p, tmp.sigl);
      PutLong(mem, p + 2, tmp.sigh);
    }
    mem[p + 4] := if r.sign then e + 0x8000 else e;
    assert Long(mem[..], p) == mem[p] + 0x1_0000 * mem[p + 1];
  }

  class Fpu {
    var controlWord: nat
    var partialStatus: nat
    var top: nat
    const regs: array<Content>
    var ipOffset: nat
    var csSelector: nat
    var dataOffset: nat
    var operandSelector: nat

    ghost predicate Valid()
      reads this, regs
    {
      && regs.Length == 8 && top < 8 && controlWord < 0x1_0000 && partialStatus < 0x1_0000
      && ipOffset < W32 && csSelector < W32 && dataOffset < W32 && operandSelector < W32
      && forall i :: 0 <= i < 8 ==> Plain(regs[i])
    }

    /** After finit: all registers are empty. */
    constructor ()
      ensures Valid() && fresh(regs) && controlWord == 0x37f && partialStatus == 0 && top == 0
      ensures forall i :: 0 <= i < 8 ==> regs[i].tag == Empty
    {
      controlWord, partialStatus, top := 0x37f, 0, 0;
      regs := new Content[8](_ => Content(false, Empty, 0, 0, 0));
      ipOffset, csSelector, dataOffset, operandSelector := 0, 0, 0, 0;
    }

    /** The rounding control field. */
    function Rounding(): (rc: Rc)
      reads this
      ensures rc == Nearest <==> Bit(controlWord, 11) == 0 && Bit(controlWord, 10) == 0
      ensures rc == Down <==> Bit(controlWord, 11) == 0 && Bit(controlWord, 10) == 1
      ensures rc == Up <==> Bit(controlWord, 11) == 1 && Bit(controlWord, 10) == 0
      ensures rc == Chop <==> Bit(controlWord, 11) == 1 && Bit(controlWord, 10) == 1
    {
      RoundingBits(controlWord);
      match controlWord / 1024 % 4
      case 0 => Nearest
      case 1 => Down
      case 2 => Up
      case _ => Chop
    }

    function Last(): Pointers
      reads this
    {
      Pointers(ipOffset, csSelector, dataOffset, operandSelector)
    }

    /** tag_word (lines 1286-1313). */
    method TagWordOf() returns (word: nat)
      requires Valid()
      ensures word == TagWord(regs[..])
    {
      hide TagWord, TagBits, Plain;
      ghost var s := regs[..];
      TagNone(s);
      word := 0;
      for i := 8 downto 0
        invariant word == TagWord(s[i..])
      {
        TagStep(s, i);
        word := word * 4 + TagBits(regs[i]);
      }
      assert s[0..] == s;
    }

    /** finit. */
    method Finit()
      requires Valid()
      modifies this, regs
      ensures Valid() && controlWord == 0x37f && partialStatus == 0 && top == 0
      ensures forall i :: 0 <= i < 8 ==> regs[i] == old(regs[i]).(tag := Empty)
      ensures Last() == Pointers(0, old(csSelector), 0, 0)
    {
      controlWord, partialStatus, top := 0x37f, 0, 0;
      for r := 0 to 8
        invariant forall i :: 0 <= i < 8 ==> Plain(regs[i])
        invariant forall i :: 0 <= i < 8 ==> regs[i] == if i < r then old(regs[i]).(tag := Empty) else old(regs[i])
        invariant controlWord == 0x37f && partialStatus == 0 && top == 0 && Last() == old(Last())
      {
        regs[r] := regs[r].(tag := Empty);
      }
      dataOffset, operandSelector, ipOffset := 0, 0, 0;
    }

    /** The last eight words of fstenv. */
    method PutPointers(mem: array<nat>, p: nat)
      requires Valid() && p + 8 <= mem.Length && WordsOk(mem[..])
      modifies mem
      ensures WordsOk(mem[..]) && PointersAt(mem[..], p, Kept(Last()))
      ensures forall i :: 0 <= i < mem.Length && !(p <= i < p + 8) ==> mem[i] == old(mem[i])
    {
      hide WordsOk, Plain;
      PutLong(mem, p, ipOffset);
      PutLong(mem, p + 2, csSelector % 0x800_0000);
      PutLong(mem, p + 4, dataOffset);
      PutLong(mem, p + 6, 0xffff_0000 + operandSelector % 0x1_0000);
    }

    /** The fourteen words of fstenv. */
    method PutEnvironment(mem: array<nat>, d: nat)
      requires Valid() && d + ENV <= mem.Length && WordsOk(mem[..])
      modifies mem
      ensures WordsOk(mem[..]) && Environment(mem[..], d, controlWord, partialStatus, top, regs[..], Last())
      ensures forall i :: 0 <= i < mem.Length && !(d <= i < d + ENV) ==> mem[i] == old(mem[i])
    {
      hide Plain, Control, Status, TagWord, PointersAt, Kept;
      var tags := TagWordOf();
      mem[d], mem[d + 1] := Control(controlWord), 0xffff;
      mem[d + 2], mem[d + 3] := Status(partialStatus, top), 0xffff;
      mem[d + 4], mem[d + 5] := tags, 0xffff;
      SmallWords(controlWord, partialStatus, top);
      TagSmall(regs[..]);
      PutPointers(mem, d + 6);
    }

    /** fstenv (lines 1350-1379). */
    method Fstenv(mem: array<nat>, d: nat)
      requires Valid() && d + ENV <= mem.Length && WordsOk(mem[..])
      modifies this, mem
      ensures WordsOk(mem[..])
      ensures Environment(mem[..], d, old(controlWord), old(partialStatus), top, regs[..], Last())
      ensures Fields(mem[..], d, old(controlWord), old(partialStatus), top, regs[..], Last())
      ensures forall i :: 0 <= i < mem.Length && !(d <= i < d + ENV) ==> mem[i] == old(mem[i])
      ensures Valid() && regs[..] == old(regs[..]) && top == old(top) && Rounding() == old(Rounding())
      ensures Last() == old(Last())
      ensures forall k: nat :: Bit(controlWord, k) == if k < 6 then 1 else Bit(old(controlWord), k)
      ensures forall k: nat :: k < 16 ==>
        Bit(partialStatus, k) == if k == 7 || k == 15 then 0 else Bit(old(partialStatus), k)
    {
      hide Plain, Control, Status, TagWord, Summed, WordsOk, Environment, Fields, Bit;
      PutEnvironment(mem, d);
      FieldsOf(mem[..], d, controlWord, partialStatus, top, regs[..], Last());
      Masked(controlWord);
      WordSizes(controlWord, partialStatus, false);
      controlWord := controlWord - controlWord % 64 + 63;
      partialStatus := Summed(partialStatus, false);
      forall k: nat
        ensures Bit(controlWord, k) == if k < 6 then 1 else Bit(old(controlWord), k)
        ensures k < 16 ==> Bit(partialStatus, k) == if k == 7 || k == 15 then 0 else Bit(old(partialStatus), k)
      {
        MaskedBits(old(controlWord), k);
        SummedBits(old(partialStatus), false, k);
      }
    }

    /** fsave (lines 1383-1397). */
    method Fsave(mem: array<nat>, d: nat)
      requires Valid() && d + IMAGE <= mem.Length && WordsOk(mem[..])
      modifies this, regs, mem
      ensures Valid() && WordsOk(mem[..])
      ensures Image(mem[..], d, old(Rounding()), old(controlWord), old(partialStatus), old(top), old(regs[..]),
                    old(Last()))
      ensures Fields(mem[..], d, old(controlWord), old(partialStatus), old(top), old(regs[..]), old(Last()))
      ensures forall i :: 0 <= i < mem.Length && !(d <= i < d + IMAGE) ==> mem[i] == old(mem[i])
      ensures controlWord == 0x37f && partialStatus == 0 && top == 0 && Last() == Pointers(0, old(csSelector), 0, 0)
      ensures forall i :: 0 <= i < 8 ==> regs[i] == old(regs[i]).(tag := Empty)
    {
      hide Written, Plain, TagWord, Control, Status, Environment, Fields, Bit;
      ghost var rc, s := Rounding(), regs[..];
      assert forall i :: 0 <= i < 8 ==> Plain(s[i]);
      Fstenv(mem, d);
      for i := 0 to 8
        invariant Valid() && regs[..] == s && top == old(top) && Rounding() == rc && WordsOk(mem[..])
        invariant Last() == old(Last())
        invariant forall i :: 0 <= i < mem.Length && !(d <= i < d + IMAGE) ==> mem[i] == old(mem[i])
        invariant Environment(mem[..], d, old(controlWord), old(partialStatus), top, s, Last())
        invariant forall j :: 0 <= j < i ==> RealAt(rc, mem[..], d + ENV + 5 * j, St(s, top, j))
      {
        ghost var was := mem[..];
        WriteToExtended(regs[Slot(top, i)], Rounding(), mem, d + ENV + 5 * i);
        EnvironmentKept(was, mem[..], d, old(controlWord), old(partialStatus), top, s, Last());
        forall j | 0 <= j < i
          ensures RealAt(rc, mem[..], d + ENV + 5 * j, St(s, top, j))
        {
          RealKept(rc, was, mem[..], d + ENV + 5 * j, St(s, top, j));
        }
      }
      FieldsOf(mem[..], d, old(controlWord), old(partialStatus), top, s, Last());
      Finit();
    }

    /** Lines 1219-1247: whether each register is empty, by its two bits. */
    method Retag(tags: nat)
      requires regs.Length == 8 && forall i :: 0 <= i < 8 ==> Plain(regs[i])
      modifies regs
      ensures forall i :: 0 <= i < 8 ==> Plain(regs[i]) && (regs[i].tag == Empty <==> TagAt(tags, i) == 3)
      ensures forall i :: 0 <= i < 8 ==> regs[i] == Retagged(old(regs[i]), TagAt(tags, i))
    {
      hide Plain, TagAt, Retagged;
      var tagWord := tags;
      NoDrop(tags);
      for i := 0 to 8
        invariant forall j :: 0 <= j < 8 ==> Plain(regs[j])
        invariant tagWord == Drop(tags, 2 * i)
        invariant forall j :: 0 <= j < i ==> (regs[j].tag == Empty <==> TagAt(tags, j) == 3)
        invariant forall j :: 0 <= j < i ==> regs[j] == Retagged(old(regs[j]), TagAt(tags, j))
        invariant forall j :: i <= j < 8 ==> regs[j] == old(regs[j])
      {
        TagNext(tags, i);
        var tag := tagWord % 4;
        tagWord := tagWord / 4;
        RetaggedIs(regs[i], tag);
        regs[i] := Retagged(regs[i], tag);
      }
    }

    /** fldenv (lines 1195-1250): the words but for the registers. A register keeps the number it holds;
        whether it is empty is decided by the tag word. */
    method Fldenv(mem: array<nat>, s: nat)
      requires Valid() && s + ENV <= mem.Length && WordsOk(mem[..])
      modifies this, regs
      ensures Valid() && controlWord == Cleared(mem[s]) && top == mem[s + 2] / 2048 % 8
      ensures partialStatus == Summed(mem[s + 2], Pending(mem[s + 2], Cleared(mem[s])))
      ensures WordsLoaded(mem[s], mem[s + 2], controlWord, partialStatus, top)
      ensures PointersAt(mem[..], s + 6, Last())
      ensures forall i :: 0 <= i < 8 ==> (regs[i].tag == Empty <==> TagAt(mem[s + 4], i) == 3)
      ensures forall i :: 0 <= i < 8 ==> regs[i] == Retagged(old(regs[i]), TagAt(mem[s + 4], i))
    {
      hide Plain, Pending, TagAt, Cleared, Summed, Bit, Retagged, WordsLoaded;
      LoadedBits(mem[s], mem[s + 2]);
      controlWord, partialStatus := mem[s], mem[s + 2];
      var tagWord := mem[s + 4];
      ipOffset := mem[s + 6] + 0x1_0000 * mem[s + 7];
      csSelector := mem[s + 8] + 0x1_0000 * mem[s + 9];
      dataOffset := mem[s + 10] + 0x1_0000 * mem[s + 11];
      operandSelector := mem[s + 12] + 0x1_0000 * mem[s + 13];
      controlWord := Cleared(controlWord);
      top := partialStatus / 2048 % 8;
      partialStatus := Summed(partialStatus, Pending(partialStatus, controlWord));
      WordSizes(mem[s], mem[s + 2], Pending(mem[s + 2], Cleared(mem[s])));
      Retag(tagWord);
    }

    /** frstor (lines 1261-1283): each register is the ten bytes saved for it, or empty. */
    method Frstor(mem: array<nat>, s: nat)
      requires Valid() && s + IMAGE <= mem.Length && WordsOk(mem[..])
      modifies this, regs
      ensures Valid() && controlWord == Cleared(mem[s]) && top == mem[s + 2] / 2048 % 8
      ensures partialStatus == Summed(mem[s + 2], Pending(mem[s + 2], Cleared(mem[s])))
      ensures WordsLoaded(mem[s], mem[s + 2], controlWord, partialStatus, top)
      ensures PointersAt(mem[..], s + 6, Last())
      ensures forall i :: 0 <= i < 8 ==> St(regs[..], top, i) == Restored(mem[..], s, top, i)
    {
      hide Plain, Pending, TagAt, Loaded, Slot, Cleared, Summed, Bit, WordsLoaded;
      Fldenv(mem, s);
      ghost var tags := mem[s + 4];
      for i := 0 to 8
        invariant Valid() && controlWord == Cleared(mem[s]) && top == mem[s + 2] / 2048 % 8
        invariant partialStatus == Summed(mem[s + 2], Pending(mem[s + 2], Cleared(mem[s])))
        invariant WordsLoaded(mem[s], mem[s + 2], controlWord, partialStatus, top)
        invariant PointersAt(mem[..], s + 6, Last())
        invariant forall j :: i <= j < 8 ==> (regs[Slot(top, j)].tag == Empty <==> TagAt(tags, Slot(top, j)) == 3)
        invariant forall j :: 0 <= j < i ==> regs[Slot(top, j)] == Restored(mem[..], s, top, j)
      {
        var p := s + ENV + 5 * i;
        var stnr := Slot(top, i);
        var tag := regs[stnr].tag;
        var r := Loaded(mem[p] + 0x1_0000 * mem[p + 1], mem[p + 2] + 0x1_0000 * mem[p + 3], mem[p + 4]);
        LoadedPlain(mem[p] + 0x1_0000 * mem[p + 1], mem[p + 2] + 0x1_0000 * mem[p + 3], mem[p + 4]);
        assert r == RealFrom(mem[..], p);
        regs[stnr] := if tag == Empty then r.(tag := Empty) else r;
        RetagPlain(r);
        OtherSlots(top, i);
      }
    }
  }

  /** Control word `cw`, status word `ps` and the stack top after the words `c` and `w` were loaded, bit by bit:
      the summary and busy bits tell whether an exception has happened whose mask bit is clear. */
  ghost predicate WordsLoaded(c: nat, w: nat, cw: nat, ps: nat, top: nat) {
    && (forall k: nat :: Bit(cw, k) == if k == 7 || k >= 13 then 0 else Bit(c, k))
    && (forall k: nat :: k < 15 && k != 7 ==> Bit(ps, k) == Bit(w, k))
    && Bit(ps, 7) == Bit(ps, 15)
    && (Bit(ps, 7) == 1 <==> exists k: nat :: k < 6 && Bit(w, k) == 1 && Bit(c, k) == 0)
    && top == Bit(w, 11) + 2 * Bit(w, 12) + 4 * Bit(w, 13)
  }

  lemma {:induction false} LoadedBits(c: nat, w: nat)
    ensures WordsLoaded(c, w, Cleared(c), Summed(w, Pending(w, Cleared(c))), w / 2048 % 8)
  {
    hide Bit, Cleared, Summed, Pending;
    forall k: nat
      ensures Bit(Cleared(c), k) == if k == 7 || k >= 13 then 0 else Bit(c, k)
    {
      ClearedBits(c, k);
    }
    forall k: nat
      ensures Bit(Summed(w, Pending(w, Cleared(c))), k)
           == if k == 7 || k == 15 then (if Pending(w, Cleared(c)) then 1 else 0) else if k < 15 then Bit(w, k) else 0
    {
      SummedBits(w, Pending(w, Cleared(c)), k);
    }
    PendingBits(w, Cleared(c));
    TopBits(w);
  }

  /** Bits `2i` and `2i + 1` of the tag word. */
  function TagAt(w: nat, i: nat): nat { Drop(w, 2 * i) % 4 }

  /** The register in ten bytes of memory. */
  function RealFrom(m: seq<nat>, p: nat): Content
    requires p + 5 <= |m| && forall i :: p <= i < p + 5 ==> m[i] < 0x1_0000
  {
    Loaded(Long(m, p), Long(m, p + 2), m[p + 4])
  }

  ghost function Restored(m: seq<nat>, s: nat, top: nat, i: nat): Content
    requires s + IMAGE <= |m| && i < 8 && WordsOk(m)
  {
    var r := RealFrom(m, s + ENV + 5 * i);
    if TagAt(m[s + 4], Slot(top, i)) == 3 then r.(tag := Empty) else r
  }

  /** Lines 1224-1247. */
  function Retagged(r: Content, tag: nat): (q: Content)
    ensures q == r.(tag := q.tag)
  {
    if tag == 3 then r.(tag := Empty)
    else if r.tag != Empty then r
    else if r.exp == -EXT_BIAS then r.(tag := if r.sigl == 0 && r.sigh == 0 then Zero else Valid)
    else if r.exp == 0x4000 then r.(tag := if r.sigh % INF_HIGH == 0 && r.sigl == 0 then Infinity else NaN)
    else r.(tag := Valid)
  }

  lemma {:induction false} RetaggedIs(r: Content, tag: nat)
    ensures Retagged(r, tag).tag == Empty <==> tag == 3
    ensures Plain(r) <==> Plain(Retagged(r, tag))
  {
  }

  /** A register that was marked empty gets back the tag of what it holds. */
  lemma {:induction false} RetagBack(r: Content, tag: nat)
    requires Representable(r) && tag != 3
    ensures Retagged(r.(tag := Empty), tag) == r == Retagged(r, tag)
  {
    hide Low;
  }

  lemma {:induction false} RetagPlain(r: Content)
    ensures Plain(r) <==> Plain(r.(tag := Empty))
  {
  }

  lemma {:induction false} LoadedPlain(lo: nat, hi: nat, e: nat)
    requires lo < W32 && hi < W32 && e < 0x1_0000
    ensures Plain(Loaded(lo, hi, e))
  {
    var x := hi * W32 + lo;
    if 0 < x < W64 {
      LeadShifts(x);
    }
    hide Lead, Shl;
  }

  lemma {:induction false} WordSizes(cw: nat, ps: nat, on: bool)
    requires cw < 0x1_0000 && ps < 0x1_0000
    ensures Cleared(cw) < 0x1_0000 && Summed(ps, on) < 0x1_0000
  {
  }

  lemma {:induction false} TagNext(w: nat, i: nat)
    ensures TagAt(w, i) == Drop(w, 2 * i) % 4 && Drop(w, 2 * (i + 1)) == Drop(w, 2 * i) / 4
  {
    SplitTwice(w, 2 * i, 2);
    assert Drop(Drop(w, 2 * i), 2) == Drop(Drop(w, 2 * i) / 2, 1) == Drop(Drop(w, 2 * i) / 2 / 2, 0);
  }

  /** Different stack positions are different registers. */
  lemma {:induction false} OtherSlots(top: nat, i: nat)
    requires top < 8 && i < 8
    ensures forall j: nat :: j < 8 && j != i ==> Slot(top, j) != Slot(top, i)
  {
  }

  lemma {:induction false} SmallWords(cw: nat, ps: nat, top: nat)
    requires top < 8
    ensures Control(cw) < 0x1_0000 && Status(ps, top) < 0x1_0000 && Cleared(Control(cw)) == Control(cw)
  {
    var a, b := cw % 64, cw / 256 % 32;
    assert Control(cw) == a + 64 + 256 * b;
  }

  lemma {:induction false} TagSmall(s: seq<Content>)
    requires |s| <= 8
    ensures TagWord(s) < Pow2(2 * |s|) <= 0x1_0000
  {
    Pow2Mono(2 * |s|, 16);
    assert Pow2(16) == 0x1_0000 by { Sixteen(); }
    if s != [] {
      TagSmall(s[1..]);
      Four(|s[1..]|);
    }
  }

  lemma {:induction false} Four(n: nat)
    ensures Pow2(2 * (n + 1)) == 4 * Pow2(2 * n)
  {
    assert Shl(1, 2 * n + 2) == 2 * Shl(1, 2 * n + 1);
  }

  lemma {:induction false} Sixteen()
    ensures Pow2(16) == 0x1_0000
  {
    Four(0);
    Four(1);
    Four(2);
    Four(3);
    Four(4);
    Four(5);
    Four(6);
    Four(7);
  }

  /** A register's two bits in the tag word. */
  lemma {:induction false} TagOf(s: seq<Content>, i: nat)
    requires i < |s|
    ensures TagAt(TagWord(s), i) == TagBits(s[i]) && TagSays(TagBits(s[i]), s[i])
  {
    TagDrop(s, i);
    TagStep(s, i);
    hide TagWord, TagBits, Drop;
  }

  lemma {:induction false} TagDrop(s: seq<Content>, i: nat)
    requires i <= |s|
    ensures Drop(TagWord(s), 2 * i) == TagWord(s[i..])
  {
    if i == 0 {
      NoDrop(TagWord(s));
      assert s[0..] == s;
    } else {
      TagDrop(s, i - 1);
      TagNext(TagWord(s), i - 1);
      TagStep(s, i - 1);
      hide TagWord, TagBits, Drop;
    }
  }

  /** What frstor makes of the image fsave wrote, register by register. */
  lemma {:induction false} ImageBack(m: seq<nat>, d: nat, rc: Rc, cw: nat, ps: nat, top: nat, regs: seq<Content>,
                                     q: Pointers, i: nat)
    requires d + IMAGE <= |m| && |regs| == 8 && top < 8 && i < 8 && WordsOk(m)
    requires Image(m, d, rc, cw, ps, top, regs, q)
    requires forall k :: 0 <= k < 8 ==> regs[k].tag == Empty || Representable(regs[k])
    ensures m[d + 2] / 2048 % 8 == top && Cleared(m[d]) == Control(cw)
    ensures var was, now := St(regs, top, i), Restored(m, d, top, i);
      if was.tag == Empty then now.tag == Empty else now == was
  {
    hide Written, Representable, Loaded, Control, Cleared, Status, TagWord, TagBits, Slot, TagAt, PointersAt;
    SmallWords(cw, ps, top);
    StatusTop(ps, top);
    var r, p := St(regs, top, i), d + ENV + 5 * i;
    TagOf(regs, Slot(top, i));
    TagEmpty(r);
    if r.tag != Empty {
      RegisterBack(rc, r, Long(m, p), Long(m, p + 2), m[p + 4]);
    }
  }

  lemma {:induction false} TagEmpty(r: Content)
    ensures TagBits(r) == 3 <==> r.tag == Empty
  {
  }

  /** Masking the reserved control bits hides no exception. */
  lemma {:induction false} PendingSame(ps: nat, cw: nat, top: nat)
    requires top < 8
    ensures Pending(Status(ps, top), Control(cw)) == Pending(ps, cw)
  {
    LowSix(ps, cw, top);
    hide Status, Control, Unmasked;
  }

  lemma {:induction false} Sixty(k: nat, r: nat)
    requires r < 64
    ensures (64 * k + r) % 64 == r
  {
  }

  lemma {:induction false} LowSix(ps: nat, cw: nat, top: nat)
    ensures Status(ps, top) % 64 == ps % 64 && Control(cw) % 64 == cw % 64
  {
    var a, b, c := ps % 2048, ps / 16384 % 4, ps / 2048;
    Sixty(ps % 2048 / 64 + 32 * top + 256 * b, ps % 2048 % 64);
    Sixty(ps % 2048 / 64 + 32 * c, ps % 2048 % 64);
    assert a == 64 * (a / 64) + a % 64 && ps == 2048 * c + a;
    assert Status(ps, top) == 64 * (a / 64 + 32 * top + 256 * b) + a % 64;
    assert ps == 64 * (a / 64 + 32 * c) + a % 64;
    Sixty(1 + 4 * (cw / 256 % 32), cw % 64);
  }

  /** The words through memory, bit by bit. */
  lemma {:induction false} WordsThrough(c: nat, w: nat, cw': nat, ps': nat, cw: nat, ps: nat, top: nat)
    requires top < 8 && c == Control(cw) && w == Status(ps, top) && WordsLoaded(c, w, cw', ps', top)
    ensures ControlKept(cw', cw)
    ensures forall k: nat :: k < 15 && k != 7 ==>
      Bit(ps', k) == if 11 <= k < 14 then Bit(top, k - 11) else Bit(ps, k)
    ensures Bit(ps', 7) == Bit(ps', 15)
    ensures Bit(ps', 7) == 1 <==> exists k: nat :: k < 6 && Bit(ps, k) == 1 && Bit(cw, k) == 0
  {
    hide Bit, Control, Status;
    ControlBits(cw);
    StatusBits(ps, top);
  }

  /** fsave and then frstor, on the same unit or another, carry the state over: the stack top, every
      register that is not empty, which ones are, the control word apart from its reserved bits, the
      status word, whose summary bits are made to agree with its exceptions, and the pointers as far as
      memory has bits for them. */
  method SaveRestore(from: Fpu, to: Fpu, mem: array<nat>, d: nat)
    requires from.Valid() && to.Valid()
    requires d + IMAGE <= mem.Length && WordsOk(mem[..])
    requires forall k :: 0 <= k < 8 ==> from.regs[k].tag == Empty || Representable(from.regs[k])
    modifies from, from.regs, to, to.regs, mem
    ensures to.Valid() && to.top == old(from.top) && to.Rounding() == old(from.Rounding())
    ensures ControlKept(to.controlWord, old(from.controlWord))
    ensures forall i :: 0 <= i < 8 ==>
      var was, now := St(old(from.regs[..]), to.top, i), St(to.regs[..], to.top, i);
      if was.tag == Empty then now.tag == Empty else now == was
    ensures forall k: nat :: k < 15 && k != 7 ==>
      Bit(to.partialStatus, k) == if 11 <= k < 14 then Bit(old(from.top), k - 11) else Bit(old(from.partialStatus), k)
    ensures Bit(to.partialStatus, 7) == Bit(to.partialStatus, 15)
    ensures Bit(to.partialStatus, 7) == 1 <==>
      exists k: nat :: k < 6 && Bit(old(from.partialStatus), k) == 1 && Bit(old(from.controlWord), k) == 0
    ensures var status := Status(old(from.partialStatus), old(from.top));
      Consistent(status, old(from.controlWord)) ==> to.partialStatus == status
    ensures to.ipOffset == old(from.ipOffset) && to.dataOffset == old(from.dataOffset)
    ensures to.csSelector == old(from.csSelector) % 0x800_0000
    ensures to.operandSelector == 0xffff_0000 + old(from.operandSelector) % 0x1_0000
  {
    hide Representable, Pending, Control, Cleared, Summed, Slot, Restored, TagWord, BitOf, Bit, Fields;
    ghost var rc, cw, ps, top, s := from.Rounding(), from.controlWord, from.partialStatus, from.top, from.regs[..];
    ghost var q := from.Last();
    from.Fsave(mem, d);
    to.Frstor(mem, d);
    forall i | 0 <= i < 8
      ensures to.top == top
      ensures var was, now := St(s, top, i), St(to.regs[..], to.top, i);
        if was.tag == Empty then now.tag == Empty else now == was
    {
      ImageBack(mem[..], d, rc, cw, ps, top, s, q, i);
    }
    ImageBack(mem[..], d, rc, cw, ps, top, s, q, 0);
    StatusTop(ps, top);
    PendingSame(ps, cw, top);
    StatusKept(ps, cw, top);
    WordsThrough(mem[d], mem[d + 2], to.controlWord, to.partialStatus, cw, ps, top);
  }

  lemma {:induction false} StatusKept(ps: nat, cw: nat, top: nat)
    requires top < 8
    ensures Pending(Status(ps, top), cw) == Pending(ps, cw)
    ensures Consistent(Status(ps, top), cw) ==> Summed(Status(ps, top), Pending(Status(ps, top), cw)) == Status(ps, top)
  {
    LowSix(ps, cw, top);
    StatusTop(ps, top);
    hide Status, BitOf, Summed, Unmasked;
    if Consistent(Status(ps, top), cw) {
      SummedSame(Status(ps, top), cw);
    }
  }

  lemma {:induction false} TagNone(s: seq<Content>)
    ensures TagWord(s[|s|..]) == 0
  {
  }

  lemma {:induction false} TagStep(s: seq<Content>, i: nat)
    requires i < |s|
    ensures TagWord(s[i..]) == TagBits(s[i]) + 4 * TagWord(s[i + 1..]) && TagBits(s[i]) < 4
  {
    assert s[i..][1..] == s[i + 1..];
  }

  lemma {:induction false} EnvironmentKept(m: seq<nat>, m': seq<nat>, d: nat, cw: nat, ps: nat, top: nat,
                                           regs: seq<Content>, q: Pointers)
    requires d + ENV <= |m| == |m'| && Environment(m, d, cw, ps, top, regs, q)
    requires forall i :: d <= i < d + ENV ==> m'[i] == m[i]
    ensures Environment(m', d, cw, ps, top, regs, q)
  {
    hide Control, Status, TagWord;
  }

  lemma {:induction false} RealKept(rc: Rc, m: seq<nat>, m': seq<nat>, p: nat, r: Content)
    requires p + 5 <= |m| == |m'| && RealAt(rc, m, p, r)
    requires forall i :: p <= i < p + 5 ==> m'[i] == m[i]
    ensures RealAt(rc, m', p, r)
  {
    hide Written;
  }

  /** Masking every exception leaves the rounding control. */
  lemma {:induction false} Masked(cw: nat)
    requires cw < 0x1_0000
    ensures (cw - cw % 64 + 63) / 1024 == cw / 1024 && cw - cw % 64 + 63 < 0x1_0000
  {
  }
}
