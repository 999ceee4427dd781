/** The lists of ports that share an interrupt in drivers/char/serial.c, doubly linked through the
    entries of rs_table, as startup, shutdown and set_serial_info change them.
 */
module SerialPorts {

  import opened Lists

  const IRQS: nat := 16
  const NULL: int := -1

  /** `struct async_struct`; pointers are indexes into rs_table. `usable` says that it has an I/O
      port and a UART type, `up` is ASYNC_INITIALIZED. */
  datatype Port = Port(irq: nat, usable: bool, up: bool, next: int, prev: int)

  function First(s: seq<int>): int { if |s| > 0 then s[0] else NULL }
  function After(s: seq<int>, i: nat): int { if i + 1 < |s| then s[i + 1] else NULL }
  function Before(s: seq<int>, i: nat): int { if 0 < i <= |s| then s[i - 1] else NULL }

  /** `s` are the ports linked from `head`, both ways. */
  ghost predicate Linked(t: seq<Port>, head: int, s: seq<int>) {
    && head == First(s) && Distinct(s)
    && forall i :: 0 <= i < |s| ==> 0 <= s[i] < |t| && t[s[i]].next == After(s, i) && t[s[i]].prev == Before(s, i)
  }

  ghost predicate AllLinked(t: seq<Port>, heads: seq<int>, lists: seq<seq<int>>) {
    |heads| == IRQS && |lists| == IRQS && forall q :: 0 <= q < IRQS ==> Linked(t, heads[q], lists[q])
  }

  /** Whether port `p` should be in the list `s` of interrupt `q` is whether it is. */
  ghost predicate Right(t: seq<Port>, s: seq<int>, q: int, p: int) {
    p in s <==> 0 <= p < |t| && t[p].up && t[p].irq == q
  }

  ghost predicate Listed(t: seq<Port>, lists: seq<seq<int>>) {
    |lists| == IRQS && forall q, p :: 0 <= q < IRQS ==> Right(t, lists[q], q, p)
  }

  /** IRQ_ports[q] lists exactly the ports that are up and have interrupt `q`, once each. */
  ghost predicate Chains(t: seq<Port>, heads: seq<int>, lists: seq<seq<int>>) {
    AllLinked(t, heads, lists) && Listed(t, lists) && forall p :: 0 <= p < |t| ==> t[p].irq < IRQS
  }

  /** Links that do not concern `s`. */
  lemma {:induction false} LinkedFrame(t: seq<Port>, t': seq<Port>, head: int, s: seq<int>)
    requires Linked(t, head, s) && |t'| == |t|
    requires forall p :: p in s && 0 <= p < |t| ==> t'[p].next == t[p].next && t'[p].prev == t[p].prev
    ensures Linked(t', head, s)
  {
  }

  // ---- a port comes up (lines 828-832, 846) ------------------------------------------------

  /** rs_table with port `p` linked in front of list `head`. */
  function Joined(t: seq<Port>, head: int, p: nat): seq<Port>
    requires p < |t| && (head == NULL || 0 <= head < |t|)
  {
    var u := t[p := t[p].(prev := NULL, next := head)];
    var w := if head == NULL then u else u[head := u[head].(prev := p)];
    w[p := w[p].(up := true)]
  }

  lemma {:induction false} JoinedHere(t: seq<Port>, head: int, s: seq<int>, p: nat)
    requires Linked(t, head, s) && p < |t| && p !in s
    ensures head == NULL || 0 <= head < |t|
    ensures Linked(Joined(t, head, p), p, [p] + s)
  {
    var w, r := Joined(t, head, p), [p] + s;
    forall i | 0 <= i < |r|
      ensures 0 <= r[i] < |w| && w[r[i]].next == After(r, i) && w[r[i]].prev == Before(r, i)
    {
      if i > 0 {
        assert r[i] == s[i - 1] && r[i] in s;
        assert i > 1 ==> s[i - 1] != s[0];
      }
    }
  }

  lemma {:induction false} JoinedElsewhere(t: seq<Port>, head: int, p: nat, h: int, s: seq<int>)
    requires Linked(t, h, s) && p < |t| && (head == NULL || 0 <= head < |t|) && p !in s && head !in s
    ensures Linked(Joined(t, head, p), h, s)
  {
    LinkedFrame(t, Joined(t, head, p), h, s);
  }

  lemma {:induction false} JoinedFields(t: seq<Port>, head: int, p: nat)
    requires p < |t| && (head == NULL || 0 <= head < |t|)
    ensures |Joined(t, head, p)| == |t|
    ensures forall i :: 0 <= i < |t| ==> Joined(t, head, p)[i].irq == t[i].irq
    ensures forall i :: 0 <= i < |t| ==> Joined(t, head, p)[i].up == (t[i].up || i == p)
  {
  }

  lemma {:induction false} ListedIs(t: seq<Port>, heads: seq<int>, lists: seq<seq<int>>, q: nat, p: int)
    requires Chains(t, heads, lists) && q < IRQS
    ensures p in lists[q] <==> 0 <= p < |t| && t[p].up && t[p].irq == q
  {
    hide Linked;
    assert Right(t, lists[q], q, p);
  }

  lemma {:induction false} OneLinked(t: seq<Port>, heads: seq<int>, lists: seq<seq<int>>, q: nat)
    requires Chains(t, heads, lists) && q < IRQS
    ensures Linked(t, heads[q], lists[q])
  {
    hide Linked;
  }

  /** Lists of different interrupts share nothing. */
  lemma {:induction false} Apart(t: seq<Port>, heads: seq<int>, lists: seq<seq<int>>, q: nat, r: nat, p: int)
    requires Chains(t, heads, lists) && q < IRQS && r < IRQS && q != r && p in lists[q]
    ensures p !in lists[r]
  {
    ListedIs(t, heads, lists, q, p);
    ListedIs(t, heads, lists, r, p);
  }

  lemma {:induction false} JoinKeeps(t: seq<Port>, heads: seq<int>, lists: seq<seq<int>>, p: nat)
    requires Chains(t, heads, lists) && p < |t| && !t[p].up
    ensures var q := t[p].irq;
      && q < IRQS && (heads[q] == NULL || 0 <= heads[q] < |t|)
      && Chains(Joined(t, heads[q], p), heads[q := p], lists[q := [p] + lists[q]])
  {
    var q := t[p].irq;
    var head := heads[q];
    ListedIs(t, heads, lists, q, p);
    JoinedHere(t, head, lists[q], p);
    JoinedFields(t, head, p);
    var w, h, l := Joined(t, head, p), heads[q := p], lists[q := [p] + lists[q]];
    hide Linked, Joined;
    forall r | 0 <= r < IRQS
      ensures Linked(w, h[r], l[r])
    {
      if r != q {
        HeadIn(t, head, lists[q]);
        ListedIs(t, heads, lists, r, p);
        if head != NULL {
          Apart(t, heads, lists, q, r, head);
        } else {
          NullOut(t, heads[r], lists[r]);
        }
        JoinedElsewhere(t, head, p, heads[r], lists[r]);
      }
    }
    forall r, e | 0 <= r < IRQS
      ensures Right(w, l[r], r, e)
    {
      assert Right(t, lists[r], r, e);
      assert l[r] == if r == q then [p] + lists[r] else lists[r];
    }
  }

  lemma {:induction false} HeadIn(t: seq<Port>, head: int, s: seq<int>)
    requires Linked(t, head, s)
    ensures head != NULL ==> head in s
  {
  }

  lemma {:induction false} NullOut(t: seq<Port>, head: int, s: seq<int>)
    requires Linked(t, head, s)
    ensures NULL !in s
  {
  }

  // ---- a port goes down (lines 872-877, 906) -----------------------------------------------

  /** rs_table with port `p` unlinked. */
  function Left(t: seq<Port>, p: nat): seq<Port>
    requires p < |t| && NULL <= t[p].next < |t| && NULL <= t[p].prev < |t|
  {
    var f := t[p];
    var u := if f.next == NULL then t else t[f.next := t[f.next].(prev := f.prev)];
    var w := if f.prev == NULL then u else u[f.prev := u[f.prev].(next := f.next)];
    w[p := w[p].(up := false)]
  }

  lemma {:induction false} LeftHere(t: seq<Port>, head: int, s: seq<int>, i: nat)
    requires Linked(t, head, s) && i < |s|
    ensures 0 <= s[i] < |t| && NULL <= t[s[i]].next < |t| && NULL <= t[s[i]].prev < |t|
    ensures Linked(Left(t, s[i]), if t[s[i]].prev == NULL then t[s[i]].next else head, Without(s, i))
  {
    var p, r := s[i], Without(s, i);
    assert t[p].next == After(s, i) && t[p].prev == Before(s, i);
    assert i + 1 < |s| ==> 0 <= s[i + 1] < |t|;
    assert i > 0 ==> 0 <= s[i - 1] < |t|;
    WithoutMembers(s, i);
    var w := Left(t, p);
    forall j | 0 <= j < |r|
      ensures 0 <= r[j] < |w| && w[r[j]].next == After(r, j) && w[r[j]].prev == Before(r, j)
    {
      var k := if j < i then j else j + 1;
      WithoutAt(s, i, j);
      LeftAt(t, head, s, i, k);
    }
  }

  lemma {:induction false} LeftAt(t: seq<Port>, head: int, s: seq<int>, i: nat, k: nat)
    requires Linked(t, head, s) && i < |s| && k < |s| && k != i
    requires 0 <= s[i] < |t| && NULL <= t[s[i]].next < |t| && NULL <= t[s[i]].prev < |t|
    ensures 0 <= s[k] < |t| && |Left(t, s[i])| == |t|
    ensures Left(t, s[i])[s[k]].next == if k + 1 == i then After(s, i) else After(s, k)
    ensures Left(t, s[i])[s[k]].prev == if k == i + 1 then Before(s, i) else Before(s, k)
  {
    LeftEffect(t, s[i], s[k]);
    hide Left;
    assert t[s[i]].next == After(s, i) && t[s[i]].prev == Before(s, i);
    OnlyNeighbour(s, i, k);
  }

  /** Only the two neighbours' links change. */
  lemma {:induction false} LeftEffect(t: seq<Port>, p: nat, e: nat)
    requires p < |t| && NULL <= t[p].next < |t| && NULL <= t[p].prev < |t| && e < |t|
    ensures |Left(t, p)| == |t|
    ensures e != p && t[p].next != p && t[p].prev != p && (t[p].next == NULL || t[p].next != t[p].prev) ==>
      && Left(t, p)[e].next == (if e == t[p].prev then t[p].next else t[e].next)
      && Left(t, p)[e].prev == (if e == t[p].next then t[p].prev else t[e].prev)
  {
  }

  lemma {:induction false} OnlyNeighbour(s: seq<int>, i: nat, k: nat)
    requires Distinct(s) && i < |s| && k < |s| && k != i && forall j :: 0 <= j < |s| ==> s[j] != NULL
    ensures s[k] != s[i] && (s[k] == Before(s, i) <==> k + 1 == i) && (s[k] == After(s, i) <==> k == i + 1)
    ensures After(s, i) != s[i] && Before(s, i) != s[i] && (After(s, i) == NULL || After(s, i) != Before(s, i))
  {
  }

  lemma {:induction false} LeftElsewhere(t: seq<Port>, p: nat, h: int, s: seq<int>)
    requires Linked(t, h, s) && p < |t| && NULL <= t[p].next < |t| && NULL <= t[p].prev < |t|
    requires p !in s && t[p].next !in s && t[p].prev !in s
    ensures Linked(Left(t, p), h, s)
  {
    LinkedFrame(t, Left(t, p), h, s);
  }

  lemma {:induction false} LeftFields(t: seq<Port>, p: nat)
    requires p < |t| && NULL <= t[p].next < |t| && NULL <= t[p].prev < |t|
    ensures |Left(t, p)| == |t|
    ensures forall i :: 0 <= i < |t| ==> Left(t, p)[i].irq == t[i].irq
    ensures forall i :: 0 <= i < |t| ==> Left(t, p)[i].up == (t[i].up && i != p)
  {
  }

  lemma {:induction false} LeaveListed(t: seq<Port>, w: seq<Port>, lists: seq<seq<int>>, q: nat, s: seq<int>, i: nat,
                                       p: nat)
    requires Listed(t, lists) && q < IRQS && s == lists[q] && i < |s| && s[i] == p && Distinct(s)
    requires |w| == |t| && forall e :: 0 <= e < |t| ==> w[e].irq == t[e].irq && w[e].up == (t[e].up && e != p)
    ensures Listed(w, lists[q := Without(s, i)])
  {
    WithoutMembers(s, i);
    assert p in s && Right(t, lists[q], q, p);
    hide Without, Distinct;
    var l := lists[q := Without(s, i)];
    forall r, e | 0 <= r < IRQS
      ensures Right(w, l[r], r, e)
    {
      assert Right(t, lists[r], r, e);
      assert l[r] == if r == q then Without(s, i) else lists[r];
    }
  }

  lemma {:induction false} LeaveKeeps(t: seq<Port>, heads: seq<int>, lists: seq<seq<int>>, p: nat, i: nat)
    requires Chains(t, heads, lists) && p < |t| && t[p].up && t[p].irq < IRQS
    requires i < |lists[t[p].irq]| && lists[t[p].irq][i] == p
    ensures NULL <= t[p].next < |t| && NULL <= t[p].prev < |t|
    ensures var q := t[p].irq;
      Chains(Left(t, p), if t[p].prev == NULL then heads[q := t[p].next] else heads, lists[q := Without(lists[q], i)])
  {
    hide Linked, Left, Without, Distinct;
    var q := t[p].irq;
    var s := lists[q];
    OneLinked(t, heads, lists, q);
    LeftHere(t, heads[q], s, i);
    LeftFields(t, p);
    Neighbours(t, heads[q], s, i);
    ListDistinct(t, heads[q], s);
    WithoutMembers(s, i);
    var w, l := Left(t, p), lists[q := Without(s, i)];
    var h := if t[p].prev == NULL then heads[q := t[p].next] else heads;
    forall r | 0 <= r < IRQS
      ensures Linked(w, h[r], l[r])
    {
      if r == q {
        assert l[r] == Without(s, i) && h[r] == if t[p].prev == NULL then t[p].next else heads[q];
      } else {
        OneLinked(t, heads, lists, r);
        NullOut(t, heads[r], lists[r]);
        Apart(t, heads, lists, q, r, p);
        if t[p].next != NULL {
          Apart(t, heads, lists, q, r, t[p].next);
        }
        if t[p].prev != NULL {
          Apart(t, heads, lists, q, r, t[p].prev);
        }
        LeftElsewhere(t, p, heads[r], lists[r]);
      }
    }
    LeaveListed(t, w, lists, q, s, i, p);
    assert |h| == IRQS && |l| == IRQS;
    forall e | 0 <= e < |w|
      ensures w[e].irq < IRQS
    {
      IrqFits(t, heads, lists, e);
    }
  }

  lemma {:induction false} ListDistinct(t: seq<Port>, head: int, s: seq<int>)
    requires Linked(t, head, s)
    ensures Distinct(s)
  {
  }

  lemma {:induction false} Neighbours(t: seq<Port>, head: int, s: seq<int>, i: nat)
    requires Linked(t, head, s) && i < |s|
    ensures t[s[i]].next != NULL ==> t[s[i]].next in s
    ensures t[s[i]].prev != NULL ==> t[s[i]].prev in s
  {
  }

  // ---- the driver --------------------------------------------------------------------------

  /** A step: open a port, close it, or give it another interrupt. `granted` is what irqaction says
      when the interrupt is asked for. */
  /** Links apart, no port but `p` has changed, and `p`'s interrupt and address have not. */
  ghost predicate OnlyUp(t: seq<Port>, t': seq<Port>, p: nat) {
    && |t'| == |t|
    && forall e :: 0 <= e < |t| ==>
      t'[e].irq == t[e].irq && t'[e].usable == t[e].usable && (e != p ==> t'[e].up == t[e].up)
  }

  /** `p` is gone from list `q`, and the others stay as they were, in their order. */
  ghost predicate TakenOut(lists: seq<seq<int>>, lists': seq<seq<int>>, q: nat, p: int) {
    q < |lists| && exists i :: 0 <= i < |lists[q]| && lists[q][i] == p && lists' == lists[q := Without(lists[q], i)]
  }

  datatype Step = Open(p: nat, getIrq: bool, granted: bool) | Close(p: nat)
    | Configure(p: nat, irq: nat, moved: bool, usable: bool, refused: bool)

  class Driver {
    const rsTable: array<Port>
    const irqPorts: array<int>
    ghost var lists: seq<seq<int>>

    ghost predicate Valid()
      reads this, rsTable, irqPorts
    {
      irqPorts.Length == IRQS && Chains(rsTable[..], irqPorts[..], lists)
    }

    /** Before any port is opened. */
    constructor (rsTable: array<Port>)
      requires forall p :: 0 <= p < rsTable.Length ==> rsTable[p].irq < IRQS && !rsTable[p].up
      ensures Valid() && this.rsTable == rsTable
    {
      this.rsTable := rsTable;
      irqPorts := new int[IRQS](_ => NULL);
      lists := seq(IRQS, _ => []);
      new;
      NoChains(rsTable[..], irqPorts[..], lists);
    }

    /** set_serial_info by a superuser (lines 1132-1225): a port that gets another interrupt or address
        is shut down, changed, and started again. `refused` stands for the errors of lines 1166-1188,
        `moved` says whether the address changes, `usable` whether there are an address and a type
        afterwards. Interrupt 2 counts as a change from 9, which it then becomes. */
    method Configure(p: nat, newIrq: nat, moved: bool, usable: bool, refused: bool) returns (ok: bool)
      requires Valid() && p < rsTable.Length
      modifies rsTable, irqPorts, `lists
      ensures Valid() && ok == (newIrq <= 15 && !refused)
      ensures !ok ==> rsTable[..] == old(rsTable[..]) && lists == old(lists)
      ensures ok && (moved || newIrq != old(rsTable[p].irq)) ==>
        rsTable[p].irq == (if newIrq == 2 then 9 else newIrq) && rsTable[p].up == usable
      ensures ok && !moved && newIrq == old(rsTable[p].irq) ==>
        rsTable[p].irq == newIrq && rsTable[p].up == (old(rsTable[p].up) || usable)
      ensures forall r, e :: 0 <= r < IRQS && 0 <= r < |old(lists)| && e != p ==>
        (e in lists[r] <==> e in old(lists)[r])
      ensures ok ==> rsTable[p].usable == usable
      ensures forall e :: 0 <= e < rsTable.Length && e != p ==>
        rsTable[e].irq == old(rsTable[e].irq) && rsTable[e].usable == old(rsTable[e].usable)
        && rsTable[e].up == old(rsTable[e].up)
    {
      hide Chains;
      var changeIrq := newIrq != rsTable[p].irq;
      var irq := if newIrq == 2 then 9 else newIrq;
      if irq > 15 || refused {
        return false;
      }
      var changed := changeIrq || moved;
      if changed {
        Shutdown(p);
      } else {
        irq := rsTable[p].irq;
      }
      Renumber(rsTable[..], irqPorts[..], lists, p, irq, usable);
      ghost var t := rsTable[..];
      rsTable[p] := rsTable[p].(irq := irq, usable := usable);
      assert rsTable[..] == t[p := t[p].(irq := irq, usable := usable)];
      if !rsTable[p].usable {
        return true;
      }
      if !rsTable[p].up {
        IrqFits(rsTable[..], irqPorts[..], lists, p);
        ghost var before := lists;
        var _ := Startup(p, false, false);
        assert lists == before[irq := [p] + before[irq]];
      }
      return true;
    }

    /** Any run of opening, closing and reconfiguring ports. */
    method Run(script: seq<Step>)
      requires Valid()
      modifies rsTable, irqPorts, `lists
      ensures Valid()
      ensures forall p :: 0 <= p < rsTable.Length ==> rsTable[p].irq < IRQS
      ensures forall p :: 0 <= p < rsTable.Length && rsTable[p].up ==> irqPorts[rsTable[p].irq] != NULL
    {
      hide Chains;
      for i := 0 to |script|
        invariant Valid()
      {
        match script[i]
        case Open(p, getIrq, granted) => if p < rsTable.Length { var _ := Startup(p, getIrq, granted); }
        case Close(p) => if p < rsTable.Length { Shutdown(p); }
        case Configure(p, irq, moved, usable, refused) =>
          if p < rsTable.Length {
            var _ := Configure(p, irq, moved, usable, refused);
          }
      }
      HeadsSet(rsTable[..], irqPorts[..], lists);
    }

    /** startup (lines 721-849). */
    method Startup(p: nat, getIrq: bool, granted: bool) returns (ok: bool)
      requires Valid() && p < rsTable.Length
      modifies rsTable, irqPorts, `lists
      ensures Valid() && rsTable[p].irq == old(rsTable[p].irq)
      ensures var f := old(rsTable[p]);
        if f.up || !f.usable then ok && rsTable[..] == old(rsTable[..]) && lists == old(lists)
        else if getIrq && f.irq != 0 && old(irqPorts[f.irq]) == NULL && !granted then
          !ok && rsTable[..] == old(rsTable[..]) && lists == old(lists)
        else ok && rsTable[p].up && f.irq < IRQS && lists == old(lists)[f.irq := [p] + old(lists)[f.irq]]
      ensures OnlyUp(old(rsTable[..]), rsTable[..], p)
    {
      hide Chains, Linked;
      ghost var t, heads := rsTable[..], irqPorts[..];
      IrqFits(t, heads, lists, p);
      var irq := rsTable[p].irq;
      if rsTable[p].up {
        return true;
      }
      if !rsTable[p].usable {
        return true;
      }
      if getIrq && irq != 0 && irqPorts[irq] == NULL && !granted {
        return false;
      }
      JoinKeeps(t, heads, lists, p);
      rsTable[p] := rsTable[p].(prev := NULL);
      rsTable[p] := rsTable[p].(next := irqPorts[irq]);
      if rsTable[p].next != NULL {
        var next := rsTable[p].next;
        rsTable[next] := rsTable[next].(prev := p);
      }
      irqPorts[irq] := p;
      rsTable[p] := rsTable[p].(up := true);
      assert rsTable[..] == Joined(t, heads[irq], p);
      lists := lists[irq := [p] + lists[irq]];
      return true;
    }

    /** shutdown (lines 855-908). */
    method Shutdown(p: nat)
      requires Valid() && p < rsTable.Length
      modifies rsTable, irqPorts, `lists
      ensures Valid() && !rsTable[p].up && rsTable[p].irq == old(rsTable[p].irq)
      ensures rsTable[p].usable == old(rsTable[p].usable)
      ensures forall r, e :: 0 <= r < IRQS && 0 <= r < |old(lists)| ==>
        (e in lists[r] <==> e in old(lists)[r] && e != p)
      ensures OnlyUp(old(rsTable[..]), rsTable[..], p)
      ensures !old(rsTable[p].up) ==> rsTable[..] == old(rsTable[..]) && lists == old(lists)
      ensures old(rsTable[p].up) ==> TakenOut(old(lists), lists, rsTable[p].irq, p)
    {
      hide Chains, Linked;
      ghost var t, heads := rsTable[..], irqPorts[..];
      IrqFits(t, heads, lists, p);
      var irq := rsTable[p].irq;
      if !rsTable[p].up {
        NotListed(t, heads, lists, p);
        return;
      }
      ghost var i := PlaceOf(t, heads, lists, p);
      LeaveKeeps(t, heads, lists, p, i);
      LeaveMembers(t, heads, lists, p, i);
      if rsTable[p].next != NULL {
        var next := rsTable[p].next;
        rsTable[next] := rsTable[next].(prev := rsTable[p].prev);
      }
      if rsTable[p].prev != NULL {
        var prev := rsTable[p].prev;
        rsTable[prev] := rsTable[prev].(next := rsTable[p].next);
      } else {
        irqPorts[irq] := rsTable[p].next;
      }
      rsTable[p] := rsTable[p].(up := false);
      assert rsTable[..] == Left(t, p);
      lists := lists[irq := Without(lists[irq], i)];
    }
  }

  lemma {:induction false} Renumber(t: seq<Port>, heads: seq<int>, lists: seq<seq<int>>, p: nat, irq: nat, usable: bool)
    requires Chains(t, heads, lists) && p < |t| && (!t[p].up || irq == t[p].irq) && irq < IRQS
    ensures Chains(t[p := t[p].(irq := irq, usable := usable)], heads, lists)
  {
    var u := t[p := t[p].(irq := irq, usable := usable)];
    hide Linked, Right;
    forall q | 0 <= q < IRQS
      ensures Linked(u, heads[q], lists[q])
    {
      LinkedFrame(t, u, heads[q], lists[q]);
    }
    forall q, e | 0 <= q < IRQS
      ensures Right(u, lists[q], q, e)
    {
      assert Right(t, lists[q], q, e);
      RightSame(t, u, lists[q], q, e, p);
    }
  }

  lemma {:induction false} RightSame(t: seq<Port>, u: seq<Port>, s: seq<int>, q: nat, e: int, p: nat)
    requires p < |t| == |u| && u == t[p := u[p]] && u[p].up == t[p].up && Right(t, s, q, e)
    requires !t[p].up || u[p].irq == t[p].irq
    ensures Right(u, s, q, e)
  {
  }

  lemma {:induction false} HeadsSet(t: seq<Port>, heads: seq<int>, lists: seq<seq<int>>)
    requires Chains(t, heads, lists)
    ensures |heads| == IRQS && forall p :: 0 <= p < |t| ==> t[p].irq < IRQS && (t[p].up ==> heads[t[p].irq] != NULL)
  {
    hide AllLinked, Listed;
    forall p | 0 <= p < |t|
      ensures |heads| == IRQS && t[p].irq < IRQS && (t[p].up ==> heads[t[p].irq] != NULL)
    {
      IrqFits(t, heads, lists, p);
      if t[p].up {
        ListedIs(t, heads, lists, t[p].irq, p);
        OneLinked(t, heads, lists, t[p].irq);
        NotNull(t, heads[t[p].irq], lists[t[p].irq], p);
      }
    }
    Sizes(t, heads, lists);
  }

  lemma {:induction false} Sizes(t: seq<Port>, heads: seq<int>, lists: seq<seq<int>>)
    requires Chains(t, heads, lists)
    ensures |heads| == IRQS
  {
  }

  lemma {:induction false} NotNull(t: seq<Port>, head: int, s: seq<int>, p: int)
    requires Linked(t, head, s) && p in s
    ensures head != NULL
  {
  }

  lemma {:induction false} NoChains(t: seq<Port>, heads: seq<int>, lists: seq<seq<int>>)
    requires |heads| == IRQS && |lists| == IRQS && (forall q :: 0 <= q < IRQS ==> heads[q] == NULL && lists[q] == [])
    requires forall p :: 0 <= p < |t| ==> t[p].irq < IRQS && !t[p].up
    ensures Chains(t, heads, lists)
  {
  }

  lemma {:induction false} IrqFits(t: seq<Port>, heads: seq<int>, lists: seq<seq<int>>, p: nat)
    requires Chains(t, heads, lists) && p < |t|
    ensures t[p].irq < IRQS && |heads| == IRQS && |lists| == IRQS
  {
  }

  lemma {:induction false} NotListed(t: seq<Port>, heads: seq<int>, lists: seq<seq<int>>, p: nat)
    requires Chains(t, heads, lists) && p < |t| && !t[p].up
    ensures |lists| == IRQS && forall r :: 0 <= r < IRQS ==> p !in lists[r]
  {
    hide AllLinked, Right;
    forall r | 0 <= r < IRQS
      ensures p !in lists[r]
    {
      ListedIs(t, heads, lists, r, p);
    }
  }

  /** Where a port that is up stands in its list. */
  lemma {:induction false} PlaceOf(t: seq<Port>, heads: seq<int>, lists: seq<seq<int>>, p: nat) returns (i: nat)
    requires Chains(t, heads, lists) && p < |t| && t[p].up && t[p].irq < IRQS
    ensures i < |lists[t[p].irq]| && lists[t[p].irq][i] == p
  {
    ListedIs(t, heads, lists, t[p].irq, p);
    hide Linked, Chains;
    i :| 0 <= i < |lists[t[p].irq]| && lists[t[p].irq][i] == p;
  }

  lemma {:induction false} LeaveMembers(t: seq<Port>, heads: seq<int>, lists: seq<seq<int>>, p: nat, i: nat)
    requires Chains(t, heads, lists) && p < |t| && t[p].up && t[p].irq < IRQS
    requires i < |lists[t[p].irq]| && lists[t[p].irq][i] == p
    ensures var l := lists[t[p].irq := Without(lists[t[p].irq], i)];
      forall r, e :: 0 <= r < IRQS ==> (e in l[r] <==> e in lists[r] && e != p)
  {
    hide Linked, Without, Distinct, Right;
    var q := t[p].irq;
    OneLinked(t, heads, lists, q);
    ListDistinct(t, heads[q], lists[q]);
    WithoutMembers(lists[q], i);
    var l := lists[q := Without(lists[q], i)];
    forall r, e | 0 <= r < IRQS
      ensures e in l[r] <==> e in lists[r] && e != p
    {
      if r != q {
        ListedIs(t, heads, lists, r, p);
      }
    }
  }
}
