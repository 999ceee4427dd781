/** Lists threaded through memory, and the slots of a page: what lib/malloc.c's descriptor chains
    and in-object free lists are made of.
 */
module BucketLists {

  import opened Lists

  const PAGE_SIZE: nat := 4096

  /** `struct bucket_desc`; addresses are numbers and NULL is 0. */
  datatype Desc = Desc(page: nat, next: nat, freeptr: nat, refcnt: nat, size: nat)

  function Head(s: seq<nat>): nat { if |s| > 0 then s[0] else 0 }

  /** What follows position `i`. */
  function After(s: seq<nat>, i: nat): nat { if i + 1 < |s| then s[i + 1] else 0 }

  // ---- descriptor chains -------------------------------------------------------------------

  /** `s` are the descriptors on the list that starts at `head`. */
  ghost predicate Chain(desc: map<nat, Desc>, head: nat, s: seq<nat>) {
    && head == Head(s) && Distinct(s)
    && forall i :: 0 <= i < |s| ==> s[i] != 0 && s[i] in desc && desc[s[i]].next == After(s, i)
  }

  lemma {:induction false} ChainFrame(desc: map<nat, Desc>, desc': map<nat, Desc>, head: nat, s: seq<nat>)
    requires Chain(desc, head, s)
    requires forall d :: d in s ==> d in desc' && desc'[d].next == desc[d].next
    ensures Chain(desc', head, s)
  {
  }

  lemma {:induction false} ChainPush(desc: map<nat, Desc>, head: nat, s: seq<nat>, d: nat, f: Desc)
    requires Chain(desc, head, s) && d != 0 && d !in s && f.next == head
    ensures Chain(desc[d := f], d, [d] + s)
  {
    var t := [d] + s;
    forall i | 0 <= i < |t|
      ensures t[i] in desc[d := f] && desc[d := f][t[i]].next == After(t, i)
    {
      if i > 0 {
        assert t[i] == s[i - 1];
      }
    }
  }

  lemma {:induction false} ChainPop(desc: map<nat, Desc>, head: nat, s: seq<nat>)
    requires Chain(desc, head, s) && |s| > 0
    ensures Chain(desc, desc[head].next, s[1..])
  {
    var t := s[1..];
    forall i | 0 <= i < |t|
      ensures t[i] != 0 && t[i] in desc && desc[t[i]].next == After(t, i)
    {
      assert t[i] == s[i + 1];
    }
  }

  /** Unlinking `s[i]`: its predecessor, or the head, takes over its successor. */
  lemma {:induction false} ChainRemove(desc: map<nat, Desc>, desc': map<nat, Desc>, head: nat, s: seq<nat>, i: nat)
    requires Chain(desc, head, s) && i < |s|
    requires forall k :: 0 <= k < |s| && k != i ==> s[k] in desc'
    requires forall k :: 0 <= k < |s| && k != i && k + 1 != i ==> desc'[s[k]].next == desc[s[k]].next
    requires i > 0 ==> desc'[s[i - 1]].next == desc[s[i]].next
    ensures Chain(desc', if i == 0 then desc[s[i]].next else head, Without(s, i))
  {
    var t := Without(s, i);
    WithoutMembers(s, i);
    hide Distinct;
    forall j | 0 <= j < |t|
      ensures t[j] != 0 && t[j] in desc' && desc'[t[j]].next == After(t, j)
    {
      WithoutAt(s, i, j);
    }
  }

  // ---- in-object free lists ----------------------------------------------------------------

  /** `s` are the free objects on the list that starts at `head`, linked through their first
      words. */
  ghost predicate FreeList(mem: map<nat, nat>, head: nat, s: seq<nat>) {
    && head == Head(s) && Distinct(s)
    && forall i :: 0 <= i < |s| ==> s[i] != 0 && s[i] in mem && mem[s[i]] == After(s, i)
  }

  lemma {:induction false} FreeListFrame(mem: map<nat, nat>, mem': map<nat, nat>, head: nat, s: seq<nat>)
    requires FreeList(mem, head, s)
    requires forall o :: o in s ==> o in mem' && mem'[o] == mem[o]
    ensures FreeList(mem', head, s)
  {
  }

  lemma {:induction false} FreeListPush(mem: map<nat, nat>, head: nat, s: seq<nat>, o: nat)
    requires FreeList(mem, head, s) && o != 0 && o !in s
    ensures FreeList(mem[o := head], o, [o] + s)
  {
    var t := [o] + s;
    forall i | 0 <= i < |t|
      ensures t[i] in mem[o := head] && mem[o := head][t[i]] == After(t, i)
    {
      if i > 0 {
        assert t[i] == s[i - 1];
      }
    }
  }

  lemma {:induction false} FreeListPop(mem: map<nat, nat>, head: nat, s: seq<nat>)
    requires FreeList(mem, head, s) && |s| > 0
    ensures FreeList(mem, mem[head], s[1..])
  {
    var t := s[1..];
    forall i | 0 <= i < |t|
      ensures t[i] != 0 && t[i] in mem && mem[t[i]] == After(t, i)
    {
      assert t[i] == s[i + 1];
    }
  }

  // ---- the slots of a page -----------------------------------------------------------------

  /** `n` objects of `size` bytes, one after the other from `o`. */
  function Slots(o: nat, size: nat, n: nat): (s: seq<nat>)
    ensures |s| == n
    decreases n
  {
    if n == 0 then [] else [o] + Slots(o + size, size, n - 1)
  }

  /** Bytes taken by `n` objects. */
  function Span(size: nat, n: nat): nat {
    if n == 0 then 0 else size + Span(size, n - 1)
  }

  lemma {:induction false} SlotsApart(o: nat, size: nat, n: nat)
    ensures forall a :: a in Slots(o, size, n) ==> o <= a && a + size <= o + Span(size, n)
    ensures forall a, b :: a in Slots(o, size, n) && b in Slots(o, size, n) && a < b ==> a + size <= b
    ensures size > 0 ==> Distinct(Slots(o, size, n))
    decreases n
  {
    if n > 0 {
      SlotsApart(o + size, size, n - 1);
      var t := Slots(o + size, size, n - 1);
      var s := Slots(o, size, n);
      assert s == [o] + t;
      forall i, j | 0 <= i < j < |s| && size > 0
        ensures s[i] != s[j]
      {
        assert s[j] == t[j - 1] && s[j] in t;
        if i > 0 {
          assert s[i] == t[i - 1];
        }
      }
    }
  }

  function Elems(s: seq<nat>): set<nat> { set a | a in s }

  /** As many different slots as there are slots are all of them. */
  lemma {:induction false} Pigeonhole(s: seq<nat>, t: seq<nat>)
    requires Distinct(s) && Distinct(t) && |s| == |t| && forall a :: a in s ==> a in t
    ensures forall a :: a in t ==> a in s
  {
    DistinctSize(s);
    DistinctSize(t);
    SubsetSame(Elems(s), Elems(t));
    assert forall a :: a in t ==> a in Elems(t);
  }

  lemma {:induction false} SubsetSame(S: set<nat>, T: set<nat>)
    requires S <= T && |S| == |T|
    ensures S == T
  {
    if S != T {
      var x :| x in T && x !in S;
      SubsetSize(S, T - {x});
    }
  }

  lemma {:induction false} SubsetSize(S: set<nat>, T: set<nat>)
    requires S <= T
    ensures |S| <= |T|
    decreases |S|
  {
    if S != {} {
      var x :| x in S;
      SubsetSize(S - {x}, T - {x});
    }
  }

  lemma {:induction false} DistinctSize(s: seq<nat>)
    requires Distinct(s)
    ensures |Elems(s)| == |s|
  {
    if s != [] {
      var t, a := s[..|s| - 1], s[|s| - 1];
      DistinctSize(t);
      assert s == t + [a];
      assert Elems(s) == Elems(t) + {a};
      assert a !in Elems(t);
    }
  }
}
