/** kmalloc and kfree_s of lib/malloc.c (built without CONFIG_DEBUG_MALLOC), one method for each
    stretch that runs with interrupts off. Between two such stretches of a call any others may
    run. What a call writes to a page only it knows is done in the stretch that follows.
 */
module Malloc {

  import opened BucketLists
  import opened Lists
  import opened MallocState
  import opened MallocSteps
  import opened MallocPages
  import opened MallocKeeps
  import opened MallocSlots

  /** What a stretch of kmalloc comes to: an object, a null return, or a call to
      __get_free_page with interrupts on. */
  datatype Outcome = Object(o: nat) | Null | Suspended

  /** `size` as the comparison with the unsigned bucket size takes it. */
  function Unsigned(size: int): nat
    requires -0x8000_0000 <= size < 0x8000_0000
  {
    if size < 0 then size + 0x1_0000_0000 else size
  }

  lemma {:induction false} NoneFits(len: nat)
    requires len > 4096
    ensures forall b: nat :: !Fits(len, b)
  {
    forall b: nat
      ensures !Fits(len, b)
    {
      if b < BUCKETS {
        Sizes(b, b);
      }
    }
  }

  lemma {:induction false} PerPage(b: nat)
    requires b < BUCKETS
    ensures PAGE_SIZE / DIR[b] == PER_PAGE[b]
  {
    assert b == 0 || b == 1 || b == 2 || b == 3 || b == 4 || b == 5 || b == 6 || b == 7 || b == 8;
  }

  /** The first `k` words of `s` hold the next ones' places. */
  ghost predicate LinksTo(mem: map<nat, nat>, s: seq<nat>, k: nat) {
    k <= |s| && forall j :: 0 <= j < k ==> s[j] in mem && mem[s[j]] == After(s, j)
  }

  lemma {:induction false} NoLinks(mem: map<nat, nat>, s: seq<nat>)
    ensures LinksTo(mem, s, 0)
  {
  }

  lemma {:induction false} LinkOne(mem: map<nat, nat>, s: seq<nat>, k: nat, v: nat)
    requires LinksTo(mem, s, k) && k < |s| && Distinct(s) && v == After(s, k)
    ensures LinksTo(mem[s[k] := v], s, k + 1)
  {
  }

  lemma {:induction false} LinkedList(mem: map<nat, nat>, s: seq<nat>, page: nat)
    requires LinksTo(mem, s, |s|) && Distinct(s) && s != [] && s[0] == page
    requires forall a :: a in s ==> 0 < a
    ensures FreeList(mem, page, s)
  {
    assert forall i :: 0 <= i < |s| ==> s[i] in s;
  }

  /** The slots from `page` on, threaded by lines 241-260, are a free list. */
  lemma {:induction false} Threaded(mem: map<nat, nat>, page: nat, b: nat)
    requires b < BUCKETS && page != 0 && page % PAGE_SIZE == 0
    requires LinksTo(mem, SlotsOf(page, b), PER_PAGE[b])
    ensures FreeList(mem, page, SlotsOf(page, b))
  {
    hide SlotsOf, LinksTo, FreeList, PageOf, Distinct;
    SlotPage(page, b);
    SlotFollows(page, b, 0);
    LinkedList(mem, SlotsOf(page, b), page);
  }

  /** The first `k` descriptors of `s` are in place, each pointing to the next. */
  ghost predicate Linked(desc: map<nat, Desc>, desc': map<nat, Desc>, s: seq<nat>, k: nat) {
    && k < |s|
    && desc'.Keys == desc.Keys + Elems(s[..k])
    && (forall e :: e in desc ==> e in desc' && desc'[e] == desc[e])
    && (forall j :: 0 <= j < k ==> s[j] in desc' && desc'[s[j]].next == s[j + 1])
  }

  lemma {:induction false} LinkNone(desc: map<nat, Desc>, s: seq<nat>)
    requires |s| > 0
    ensures Linked(desc, desc, s, 0)
  {
    assert Elems(s[..0]) == {};
  }

  lemma {:induction false} LinkMore(desc: map<nat, Desc>, desc': map<nat, Desc>, s: seq<nat>, k: nat, f: Desc)
    requires Linked(desc, desc', s, k) && Distinct(s) && (forall d :: d in s ==> d !in desc)
    requires k + 1 < |s| && f.next == s[k + 1]
    ensures Linked(desc, desc'[s[k] := f], s, k + 1)
  {
    MoreElems(s, k);
    assert s[k] in s;
  }

  lemma {:induction false} LinkLast(desc: map<nat, Desc>, desc': map<nat, Desc>, s: seq<nat>, f: Desc)
    requires |s| > 0 && Linked(desc, desc', s, |s| - 1) && Distinct(s) && (forall d :: d in s ==> d !in desc)
    ensures var all := desc'[s[|s| - 1] := f];
      && all.Keys == desc.Keys + Elems(s)
      && (forall e :: e in desc ==> e in all && all[e] == desc[e])
      && LeadsTo(all, s, f.next)
  {
    MoreElems(s, |s| - 1);
    assert s[..|s|] == s;
    assert s[|s| - 1] in s;
  }

  lemma {:induction false} MoreElems(s: seq<nat>, k: nat)
    requires k < |s| && Distinct(s)
    ensures Elems(s[..k + 1]) == Elems(s[..k]) + {s[k]} && s[k] !in s[..k]
  {
    assert s[..k + 1] == s[..k] + [s[k]];
  }

  /** The 256 descriptors of `page` have come and the others are as they were. */
  ghost predicate MoreDescs(desc: map<nat, Desc>, desc': map<nat, Desc>, page: nat) {
    && (forall d :: d in desc' <==> d in desc || (PageOf(d) == page && d % 16 == 0))
    && (forall d :: d in desc ==> d in desc' && desc'[d] == desc[d])
    && page in desc'
  }

  lemma {:induction false} DescsOf(desc: map<nat, Desc>, desc': map<nat, Desc>, page: nat)
    requires page % PAGE_SIZE == 0 && desc'.Keys == desc.Keys + Elems(SlotsOf(page, 0))
    requires forall d :: d in desc ==> d in desc' && desc'[d] == desc[d]
    ensures MoreDescs(desc, desc', page)
  {
    hide SlotsOf, PageOf;
    SlotPage(page, 0);
    SlotFollows(page, 0, 0);
    assert page in SlotsOf(page, 0);
    forall d: nat
      ensures d in desc' <==> d in desc || (PageOf(d) == page && d % 16 == 0)
    {
      if PageOf(d) == page {
        SlotIs(page, 0, d);
      }
    }
  }

  lemma {:induction false} FirstLinked(desc: map<nat, Desc>, news: seq<nat>, head: nat)
    requires LeadsTo(desc, news, head) && |news| > 1
    ensures news[0] in desc && desc[news[0]].next == news[1]
  {
  }

  lemma {:induction false} SameOnly(p: nat, mem: map<nat, nat>, live: map<nat, nat>)
    ensures OnlyIn(p, mem, mem, live, live)
  {
  }

  lemma {:induction false} StoreOnly(p: nat, mem: map<nat, nat>, mem': map<nat, nat>, live: map<nat, nat>, a: nat,
                                     v: nat)
    requires OnlyIn(p, mem, mem', live, live) && PageOf(a) == p
    ensures OnlyIn(p, mem, mem'[a := v], live, live)
  {
    hide PageOf;
  }

  lemma {:induction false} DescsApart(page: nat, s: seq<nat>)
    requires page % PAGE_SIZE == 0 && s == SlotsOf(page, 0)
    ensures |s| == DESCS && Distinct(s)
  {
    SlotPage(page, 0);
    hide SlotsOf;
  }

  lemma {:induction false} DescFollows(page: nat, k: nat, s: seq<nat>)
    requires s == SlotsOf(page, 0) && k < DESCS
    ensures |s| == DESCS && s[0] == page && (k + 1 < DESCS ==> s[k + 1] == s[k] + DESC_SIZE)
  {
    SlotFollows(page, 0, k);
    hide SlotsOf;
  }

  /** No descriptor comes or goes, and each keeps its page and its object size. */
  ghost predicate SameDescs(desc: map<nat, Desc>, desc': map<nat, Desc>) {
    && desc'.Keys == desc.Keys
    && forall d :: d in desc ==> d in desc' && desc'[d].page == desc[d].page && desc'[d].size == desc[d].size
  }

  lemma {:induction false} NoChange(desc: map<nat, Desc>)
    ensures SameDescs(desc, desc)
  {
  }

  lemma {:induction false} StillThere(desc: map<nat, Desc>, desc': map<nat, Desc>, d: nat)
    requires SameDescs(desc, desc') && d in desc
    ensures d in desc' && desc'[d].page == desc[d].page && desc'[d].size == desc[d].size
  {
  }

  /** No descriptor is ever lost, nor a page of descriptors given back. */
  ghost predicate DescsStay(desc: map<nat, Desc>, pages: map<nat, Use>, desc': map<nat, Desc>, pages': map<nat, Use>) {
    && (forall d :: d in desc ==> d in desc')
    && (forall p :: p in pages && pages[p] == Descs ==> p in pages' && pages'[p] == Descs)
  }

  lemma {:induction false} SameTwice(desc: map<nat, Desc>, desc': map<nat, Desc>, d: nat, f: Desc, h: Desc)
    requires SameDescs(desc[d := f], desc') && h.page == f.page && h.size == f.size
    ensures SameDescs(desc[d := h], desc')
    ensures d in desc' && desc'[d].page == f.page && desc'[d].size == f.size
  {
    assert d in desc[d := f];
  }

  /** A step of one of the callers: a call of kmalloc starts; its page arrives or does not; it goes
      on with the page; kfree_s; a store to an object. */
  datatype Step =
    | Call(t: nat, len: nat)
    | Page(t: nat, page: nat)
    | NoPage(t: nat)
    | Fill(t: nat, junk: seq<Desc>)
    | Link(t: nat)
    | Free(obj: nat, size: int)
    | Store(o: nat, a: nat, v: nat)

  class Kernel {
    /** First words of objects, by address. */
    var mem: map<nat, nat>
    var desc: map<nat, Desc>
    /** `bucket_dir[].chain` and `free_bucket_desc`. */
    var chain: seq<nat>
    var freeDesc: nat
    /** The calls of kmalloc that have interrupts on at the moment. */
    var calls: map<nat, Phase>
    /** The pages obtained and not given back, and the objects callers hold with the lengths they
        asked for: the page allocator's and the callers' own records. */
    var pages: map<nat, Use>
    var live: map<nat, nat>
    ghost var g: Ledger

    ghost predicate Almost(but: nat)
      reads this
    {
      Whole(mem, desc, chain, freeDesc, calls, pages, live, g, but)
    }

    ghost predicate Inv()
      reads this
    {
      Almost(0)
    }

    constructor ()
      ensures Inv() && calls == map[] && pages == map[] && live == map[]
    {
      mem, desc, calls, pages, live := map[], map[], map[], map[], map[];
      chain, freeDesc := [0, 0, 0, 0, 0, 0, 0, 0, 0], 0;
      g := Ledger([[], [], [], [], [], [], [], [], []], [], map[], map[]);
    }

    /** Lines 190-194: the smallest bucket that fits, or none. */
    static method FindBucket(len: nat) returns (b: nat)
      ensures b <= BUCKETS && (b == BUCKETS <==> len > 4096)
      ensures b < BUCKETS ==> Fits(len, b)
    {
      b := 0;
      while DIR[b] < len
        invariant b <= BUCKETS && (b > 0 ==> DIR[b - 1] < len)
        invariant b == BUCKETS ==> len > PAGE_SIZE
        decreases BUCKETS - b
      {
        if DIR[b] == 0 {
          return;
        }
        b := b + 1;
      }
    }

    /** Lines 201-203: the first descriptor of the chain with a free object, or 0. */
    method FirstFree(b: nat) returns (d: nat)
      requires Inv() && b < BUCKETS
      ensures |g.lists| == BUCKETS
      ensures d != 0 ==> d in g.lists[b] && d in desc && desc[d].freeptr != 0
      ensures d == 0 ==> forall e :: e in g.lists[b] ==> e in desc && desc[e].freeptr == 0
    {
      hide Placed, Owned, Filled, Busy, Lively;
      ghost var s, i: nat := g.lists[b], 0;
      assert Chain(desc, chain[b], s);
      d := chain[b];
      while d != 0
        invariant i <= |s| && d == if i < |s| then s[i] else 0
        invariant forall k :: 0 <= k < i ==> s[k] in desc && desc[s[k]].freeptr == 0
        decreases |s| - i
      {
        if desc[d].freeptr != 0 {
          return;
        }
        d, i := desc[d].next, i + 1;
      }
    }

    /** Lines 269-277. */
    method Take(d: nat, len: nat) returns (o: nat)
      requires Almost(d) && d in g.objs && d in g.place && g.place[d].OnChain? && g.place[d].b < BUCKETS
      requires d in desc && desc[d].freeptr != 0 && len <= DIR[g.place[d].b]
      modifies `desc, `live, `g
      ensures Inv() && o !in old(live) && live == old(live)[o := len]
      ensures o == old(desc[d].freeptr) && SameDescs(old(desc), desc)
    {
      hide Whole, Listed, Placed, Owned, Filled, Busy, Lively;
      TakeKeeps(mem, desc, chain, freeDesc, calls, pages, live, g, d, len);
      o := desc[d].freeptr;
      ghost var desc0 := desc;
      desc := desc[d := desc[d].(freeptr := mem[o])];
      desc := desc[d := desc[d].(refcnt := desc[d].refcnt + 1)];
      live := live[o := len];
      g := TakenFrom(g, d);
      assert desc == desc0[d := Taken(mem, desc0[d])];
    }

    /** kmalloc up to its first wait (lines 190-223, 269-328). */
    method Start(t: nat, len: nat) returns (r: Outcome)
      requires Inv() && t !in calls
      modifies this
      ensures Inv()
      ensures r.Null? <==> len > 4096
      ensures forall b: nat :: Fits(len, b) ==>
        && (r.Object? <==> exists a :: Vacant(old(desc), old(pages), old(live), DIR[b], a))
        && (r.Object? ==> Vacant(old(desc), old(pages), old(live), DIR[b], r.o))
        && (r.Suspended? ==> t in calls && calls[t] == if old(freeDesc) == 0 then NeedDescs(len, b)
                                                       else NeedPage(len, b, old(freeDesc)))
      ensures r.Suspended? ==> t in calls && calls == old(calls)[t := calls[t]]
      ensures !r.Suspended? ==> calls == old(calls) && freeDesc == old(freeDesc)
      ensures live == if r.Object? then old(live)[r.o := len] else old(live)
      ensures !r.Object? ==> desc == old(desc)
      ensures pages == old(pages) && mem == old(mem) && SameDescs(old(desc), desc)
    {
      hide Whole, Listed, Placed, Owned, Filled, Busy, Lively, Vacant, Fits;
      var b := FindBucket(len);
      if b == BUCKETS {
        NoneFits(len);
        return Null;
      }
      forall c: nat | Fits(len, c)
        ensures c == b
      {
        FitsOnce(len, b, c);
      }
      var d := FirstFree(b);
      FoundIff(mem, desc, chain, freeDesc, calls, pages, live, g, b, d);
      if d != 0 {
        OnChainFacts(mem, desc, chain, freeDesc, calls, pages, live, g, b, d);
        var o := Take(d, len);
        return Object(o);
      }
      if freeDesc == 0 {
        WaitKeeps(mem, desc, chain, freeDesc, calls, pages, live, g, t, len, b);
        calls := calls[t := NeedDescs(len, b)];
        return Suspended;
      }
      TakeDesc(t, len, b);
      r := Suspended;
    }

    /** Lines 221-223. */
    method TakeDesc(t: nat, len: nat, b: nat)
      requires Inv() && freeDesc != 0 && Fits(len, b) && (t in calls ==> calls[t].NeedDescs?)
      modifies `freeDesc, `calls, `g
      ensures Inv() && calls == old(calls)[t := NeedPage(len, b, old(freeDesc))]
      ensures old(freeDesc) in desc && freeDesc == desc[old(freeDesc)].next
    {
      hide Whole, Listed, Placed, Owned, Filled, Busy, Lively;
      PopKeeps(mem, desc, chain, freeDesc, calls, pages, live, g, t, len, b);
      var d := freeDesc;
      freeDesc := desc[d].next;
      calls := calls[t := NeedPage(len, b, d)];
      g := Popped(g, t);
    }

    /** __get_free_page returns `page`, which nobody has. */
    method PageArrives(t: nat, page: nat)
      requires Inv() && t in calls && (calls[t].NeedDescs? || calls[t].NeedPage?)
      requires page !in pages && page != 0 && page % PAGE_SIZE == 0
      modifies `calls, `pages
      ensures Inv() && calls == old(calls)[t := Arrived(old(calls[t]), page)] && pages == old(pages)[page := Held(t)]
    {
      hide Whole, Listed, Placed, Owned, Filled, Busy, Lively;
      ArriveKeeps(mem, desc, chain, freeDesc, calls, pages, live, g, t, page);
      calls, pages := calls[t := Arrived(calls[t], page)], pages[page := Held(t)];
    }

    /** __get_free_page returns 0: kmalloc returns NULL, putting back the descriptor it may have
        taken (lines 216-217, 229-233). */
    method PageRefused(t: nat)
      requires Inv() && t in calls && (calls[t].NeedDescs? || calls[t].NeedPage?)
      modifies `desc, `freeDesc, `calls, `g
      ensures Inv() && calls == old(calls) - {t}
      ensures old(calls[t]).NeedDescs? ==> desc == old(desc) && freeDesc == old(freeDesc)
      ensures old(calls[t]).NeedPage? ==>
        && freeDesc == old(calls[t].d) && freeDesc in old(desc)
        && desc == old(desc)[freeDesc := old(desc)[freeDesc].(next := old(freeDesc))]
    {
      hide Whole, Listed, Placed, Owned, Filled, Busy, Lively;
      if calls[t].NeedDescs? {
        LeaveKeeps(mem, desc, chain, freeDesc, calls, pages, live, g, t);
      } else {
        var d := calls[t].d;
        PushKeeps(mem, desc, chain, freeDesc, calls, pages, live, g, t, d);
        desc := desc[d := desc[d].(next := freeDesc)];
        freeDesc := d;
        g := Pushed(g, d);
      }
      calls := calls - {t};
    }

    /** Lines 144-158: the descriptors of a page, linked together and to `head`. What else is in the
        page is junk. */
    static method InitDescs(desc: map<nat, Desc>, page: nat, head: nat, junk: seq<Desc>) returns (desc': map<nat, Desc>)
      requires page % PAGE_SIZE == 0 && |junk| == DESCS
      requires forall d :: d in SlotsOf(page, 0) ==> d !in desc
      ensures desc'.Keys == desc.Keys + Elems(SlotsOf(page, 0))
      ensures forall d :: d in desc ==> d in desc' && desc'[d] == desc[d]
      ensures LeadsTo(desc', SlotsOf(page, 0), head)
    {
      hide Slots, SlotsOf, Span, Linked, Elems, LeadsTo, PageOf, Distinct;
      ghost var s: seq<nat> := SlotsOf(page, 0);
      DescsApart(page, s);
      DescFollows(page, 0, s);
      desc' := desc;
      assert Linked(desc, desc', s, 0) by {
        LinkNone(desc, s);
      }
      var d, i, k := page, DESCS, 0;
      i := i - 1;
      while i > 0
        invariant 0 <= i && 0 <= k == DESCS - 1 - i && d == s[k]
        invariant Linked(desc, desc', s, k)
      {
        DescFollows(page, k, s);
        LinkMore(desc, desc', s, k, junk[k].(next := d + DESC_SIZE));
        desc' := desc'[d := junk[k].(next := d + DESC_SIZE)];
        d, i, k := d + DESC_SIZE, i - 1, k + 1;
      }
      LinkLast(desc, desc', s, junk[k].(next := head));
      desc' := desc'[d := junk[k].(next := head)];
    }

    /** The descriptors of the page that has come go on the free list. */
    method AddDescs(t: nat, junk: seq<Desc>)
      requires Inv() && t in calls && calls[t].HasDescs? && |junk| == DESCS
      modifies `desc, `freeDesc, `calls, `pages, `g
      ensures Inv() && pages == old(pages)[old(calls[t].page) := Descs] && freeDesc == old(calls[t].page)
      ensures freeDesc != 0 && Fits(old(calls[t].len), old(calls[t].b))
      ensures calls == old(calls)[t := NeedDescs(old(calls[t].len), old(calls[t].b))]
      ensures MoreDescs(old(desc), desc, freeDesc) && desc[freeDesc].next == freeDesc + 16
    {
      hide Whole, Listed, Placed, Owned, Filled, Busy, Lively, SlotsOf, LeadsTo, Spliced, Elems, PageOf, Distinct, Fits;
      var len, b, page := calls[t].len, calls[t].b, calls[t].page;
      ghost var news := SlotsOf(page, 0);
      NewDescs(mem, desc, chain, freeDesc, calls, pages, live, g, t);
      var desc' := InitDescs(desc, page, freeDesc, junk);
      DescFollows(page, 0, news);
      DescsOf(desc, desc', page);
      assert desc'[news[0]].next == news[1] by {
        FirstLinked(desc', news, freeDesc);
      }
      SpareLinked(mem, desc, desc', chain, freeDesc, calls, pages, live, g, news);
      SpliceKeeps(mem, desc, desc', chain, freeDesc, calls, pages, live, g, t, len, b, page, news, page);
      desc, freeDesc := desc', page;
      calls, pages := calls[t := NeedDescs(len, b)], pages[page := Descs];
      g := Spliced(g, news);
    }

    /** Lines 218-223: interrupts go off at the end of init_bucket_desc. */
    method Splice(t: nat, junk: seq<Desc>)
      requires Inv() && t in calls && calls[t].HasDescs? && |junk| == DESCS
      modifies `desc, `freeDesc, `calls, `pages, `g
      ensures Inv() && pages == old(pages)[old(calls[t].page) := Descs]
      ensures calls == old(calls)[t := NeedPage(old(calls[t].len), old(calls[t].b), old(calls[t].page))]
      ensures MoreDescs(old(desc), desc, old(calls[t].page)) && freeDesc == old(calls[t].page) + 16
    {
      hide Inv, Fits, MoreDescs;
      var len, b := calls[t].len, calls[t].b;
      AddDescs(t, junk);
      TakeDesc(t, len, b);
    }

    /** Lines 240-260: every object of the page points to the next. */
    static method ThreadPage(mem: map<nat, nat>, page: nat, b: nat,
                             ghost live: map<nat, nat>) returns (mem': map<nat, nat>)
      requires b < BUCKETS && page != 0 && page % PAGE_SIZE == 0
      ensures OnlyIn(page, mem, mem', live, live) && FreeList(mem', page, SlotsOf(page, b))
    {
      ghost var s := SlotsOf(page, b);
      SlotPage(page, b);
      PerPage(b);
      hide Slots, SlotsOf, Span, OnlyIn, FreeList, PageOf, LinksTo;
      NoLinks(mem, s);
      SlotFollows(page, b, 0);
      mem' := mem;
      assert OnlyIn(page, mem, mem', live, live) by {
        SameOnly(page, mem, live);
      }
      var p, i := page, PAGE_SIZE / DIR[b];
      ghost var k: nat := 0;
      while i > 0
        invariant 0 <= i && k == PER_PAGE[b] - i && (i > 0 ==> p == s[k])
        invariant OnlyIn(page, mem, mem', live, live)
        invariant LinksTo(mem', s, k)
      {
        SlotFollows(page, b, k);
        assert p in s;
        LinkOne(mem', s, k, if i == 1 then 0 else p + DIR[b]);
        StoreOnly(page, mem, mem', live, p, if i == 1 then 0 else p + DIR[b]);
        mem' := mem'[p := if i == 1 then 0 else p + DIR[b]];
        p, i, k := p + DIR[b], i - 1, k + 1;
      }
      Threaded(mem', page, b);
    }

    /** Lines 236-267: the page goes on its chain with all its objects free. */
    method Adopt(t: nat) returns (d: nat)
      requires Inv() && t in calls && calls[t].HasPage?
      modifies `mem, `desc, `chain, `calls, `pages, `g
      ensures d == old(calls[t].d) && Almost(d) && d in g.objs && d in g.place && g.place[d] == OnChain(old(calls[t].b))
      ensures calls == old(calls) - {t} && pages == old(pages)[old(calls[t].page) := Bucket(d)]
      ensures old(calls[t].b) < BUCKETS && old(calls[t].len) <= DIR[old(calls[t].b)] && old(calls[t].page) != 0
      ensures desc == old(desc)[d := Desc(old(calls[t].page), old(chain)[old(calls[t].b)], old(calls[t].page), 0,
                                          DIR[old(calls[t].b)])]
    {
      hide Whole, Listed, Placed, Owned, Filled, Busy, Lively, SlotsOf, OnlyIn, FreeList, Fits, PageOf;
      ghost var len, page := calls[t].len, calls[t].page;
      var b, p := calls[t].b, calls[t].page;
      d := calls[t].d;
      HeldFacts(mem, desc, chain, freeDesc, calls, pages, live, g, t);
      var mem' := ThreadPage(mem, p, b, live);
      AdoptKeeps(mem, mem', desc, chain, freeDesc, calls, pages, live, g, t, len, b, d, page);
      var next := chain[b];
      mem, desc, chain := mem', desc[d := Desc(p, next, p, 0, DIR[b])], chain[b := d];
      calls, pages := calls - {t}, pages[p := Bucket(d)];
      g := Adopted(g, b, d, SlotsOf(page, b));
    }

    /** Lines 236-277: the page goes on its chain and its first object to the caller. */
    method Publish(t: nat) returns (o: nat)
      requires Inv() && t in calls && calls[t].HasPage?
      modifies `mem, `desc, `chain, `calls, `pages, `live, `g
      ensures Inv() && calls == old(calls) - {t} && pages == old(pages)[old(calls[t].page) := Bucket(old(calls[t].d))]
      ensures o == old(calls[t].page) && o !in old(live) && live == old(live)[o := old(calls[t].len)]
      ensures old(calls[t].b) < BUCKETS && old(calls[t].d) in old(desc) && o in old(pages) && old(pages)[o] == Held(t)
      ensures SameDescs(old(desc)[old(calls[t].d) := Desc(o, 0, 0, 0, DIR[old(calls[t].b)])], desc)
      ensures RestVacant(desc, pages, live, DIR[old(calls[t].b)], o)
    {
      hide Whole, SameDescs, RestVacant, PageOf;
      assert Whole(mem, desc, chain, freeDesc, calls, pages, live, g, 0);
      hide Inv, Almost;
      var len := calls[t].len;
      ghost var b, page, was := calls[t].b, calls[t].page, desc;
      HeldIdle(mem, desc, chain, freeDesc, calls, pages, live, g, t);
      var d := Adopt(t);
      ghost var f := desc[d];
      o := Take(d, len);
      SameTwice(was, desc, d, f, Desc(page, 0, 0, 0, DIR[b]));
      OthersVacant(desc, pages, old(live), len, page, d, b);
    }

    /** A caller writes a word inside an object it holds. */
    method Write(o: nat, a: nat, v: nat)
      requires Inv() && o in live && o <= a < o + live[o]
      modifies `mem
      ensures Inv() && mem == old(mem)[a := v]
    {
      hide Whole, Listed, Placed, Owned, Filled, Busy, Lively;
      WriteKeeps(mem, desc, chain, freeDesc, calls, pages, live, g, o, a, v);
      mem := mem[a := v];
    }

    /** Lines 437-441: the descriptor of `page` on chain `b` and the one before it, or 0. */
    method OnThisChain(page: nat, b: nat) returns (d: nat, prev: nat, ghost i: nat)
      requires Inv() && b < BUCKETS
      ensures |g.lists| == BUCKETS
      ensures d != 0 ==> i < |g.lists[b]| && g.lists[b][i] == d && d in desc && desc[d].page == page
      ensures d != 0 ==> prev == if i == 0 then 0 else g.lists[b][i - 1]
      ensures d == 0 ==> forall e :: e in g.lists[b] ==> e in desc && desc[e].page != page
    {
      hide Placed, Owned, Filled, Busy, Lively;
      ghost var s := g.lists[b];
      assert Chain(desc, chain[b], s);
      i := 0;
      d, prev := chain[b], 0;
      while d != 0
        invariant i <= |s| && d == (if i < |s| then s[i] else 0) && prev == if i == 0 then 0 else s[i - 1]
        invariant forall k :: 0 <= k < i ==> s[k] in desc && desc[s[k]].page != page
        decreases |s| - i
      {
        if desc[d].page == page {
          return;
        }
        prev := d;
        d, i := desc[d].next, i + 1;
      }
    }

    /** Lines 423-443: the chains of buckets of at least `size` bytes are searched for the page. */
    method FindDesc(page: nat, size: nat) returns (b: nat, d: nat, prev: nat, ghost i: nat)
      requires Inv()
      ensures |g.lists| == BUCKETS
      ensures d != 0 ==>
        b < BUCKETS && size <= DIR[b] && i < |g.lists[b]| && g.lists[b][i] == d && d in desc && desc[d].page == page
      ensures d != 0 ==> prev == if i == 0 then 0 else g.lists[b][i - 1]
      ensures d == 0 ==> forall c, e :: 0 <= c < BUCKETS && size <= DIR[c] && e in g.lists[c] ==>
        e in desc && desc[e].page != page
    {
      hide Whole, Listed, Placed, Owned, Filled, Busy, Lively;
      ListCount(mem, desc, chain, freeDesc, calls, pages, live, g);
      b, d, prev, i := 0, 0, 0, 0;
      while DIR[b] != 0
        invariant b <= BUCKETS && d == 0
        invariant forall c, e :: 0 <= c < b && size <= DIR[c] && e in g.lists[c] ==> e in desc && desc[e].page != page
        decreases BUCKETS - b
      {
        if DIR[b] >= size {
          d, prev, i := OnThisChain(page, b);
          if d != 0 {
            return;
          }
        }
        b := b + 1;
      }
    }

    /** Lines 480-500: `d`'s page has no object left, so it goes back to the page allocator. */
    method Retire(b: nat, d: nat, before: nat, ghost i: nat)
      requires Almost(d) && b < BUCKETS && |g.lists| == BUCKETS && i < |g.lists[b]| && g.lists[b][i] == d
      requires before == if i == 0 then 0 else g.lists[b][i - 1]
      requires d in desc && forall o :: o in live ==> PageOf(o) != desc[d].page
      modifies `desc, `chain, `freeDesc, `pages, `g
      ensures Inv() && pages == old(pages) - {old(desc[d].page)}
      ensures freeDesc == d && d in desc && desc[d].next == old(freeDesc) && SameDescs(old(desc), desc)
    {
      hide Whole, Listed, Placed, Owned, Filled, Busy, Lively, PageOf, Retired;
      RetireKeeps(mem, desc, chain, freeDesc, calls, pages, live, g, d, b, i);
      LinksHere(mem, desc, chain, freeDesc, calls, pages, live, g, d, b, i);
      ghost var desc0 := desc;
      var prev := before;
      if (prev != 0 && desc[prev].next != d) || (prev == 0 && chain[b] != d) {
        // Interrupts have been off since the search, so `prev` is always accurate.
        assert false;
      }
      if prev != 0 {
        desc := desc[prev := desc[prev].(next := desc[d].next)];
      } else {
        chain := chain[b := desc[d].next];
      }
      desc := desc[d := desc[d].(next := freeDesc)];
      freeDesc := d;
      pages := pages - {desc[d].page};
      assert desc == Bypassed(desc0, g.lists[b], i)[d := desc0[d].(next := old(freeDesc))];
      g := Retired(g, b, i);
    }

    /** The size of the objects on the page of object `o`. */
    ghost function SlotSize(o: nat): (size: nat)
      requires Inv() && o in live
      reads this
      ensures live[o] <= size
    {
      hide Whole, PageOf;
      RoomOf(mem, desc, chain, freeDesc, calls, pages, live, g, o);
      desc[pages[PageOf(o)].d].size
    }

    /** Lines 475-503: object `obj` goes on the free list of its page, and the page is given up when it was the
        last one in use. */
    method GiveBack(obj: nat, b: nat, d: nat, prev: nat, ghost i: nat)
      requires Inv() && |g.lists| == BUCKETS && b < BUCKETS && i < |g.lists[b]| && g.lists[b][i] == d
      requires prev == if i == 0 then 0 else g.lists[b][i - 1]
      requires obj != 0 && obj in live && PageOf(obj) in pages && pages[PageOf(obj)] == Bucket(d)
      requires d in g.objs && d in g.place && g.place[d] == OnChain(b) && d in desc && desc[d].page == PageOf(obj)
      modifies this
      ensures Inv() && calls == old(calls) && live == old(live) - {obj} && SameDescs(old(desc), desc)
      ensures pages == if forall o :: o in live ==> PageOf(o) != PageOf(obj) then old(pages) - {PageOf(obj)}
                       else old(pages)
      ensures pages == old(pages) ==> freeDesc == old(freeDesc)
      ensures pages != old(pages) ==> freeDesc == d && d in desc && desc[d].next == old(freeDesc)
    {
      hide Whole, PageOf, SlotsOf;
      GiveKeeps(mem, desc, chain, freeDesc, calls, pages, live, g, obj, d);
      ghost var desc0 := desc;
      mem := mem[obj := desc[d].freeptr];
      desc := desc[d := desc[d].(freeptr := obj)];
      desc := desc[d := desc[d].(refcnt := desc[d].refcnt - 1)];
      assert desc == desc0[d := Given(desc0[d], obj)];
      live := live - {obj};
      g := GivenTo(g, d, obj);
      IdlePage(mem, desc, chain, freeDesc, calls, pages, live, g, d);
      if desc[d].refcnt == 0 {
        Retire(b, d, prev, i);
      }
    }

    /** kfree_s (lines 382-503): an object is taken back exactly when the size given is not above its
        bucket's, and its page is given up exactly when no other object on it is held. */
    method Kfree(obj: nat, size: int) returns (found: bool)
      requires Inv() && -0x8000_0000 <= size < 0x8000_0000
      requires obj == 0 || obj in live || (PageOf(obj) in pages ==> !pages[PageOf(obj)].Bucket?)
      modifies this
      ensures Inv() && calls == old(calls)
      ensures found <==> obj in old(live) && 0 <= size <= old(SlotSize(obj))
      ensures live == if found then old(live) - {obj} else old(live)
      ensures pages == if found && (forall o :: o in live ==> PageOf(o) != PageOf(obj))
                       then old(pages) - {PageOf(obj)} else old(pages)
      ensures !found ==> mem == old(mem) && desc == old(desc) && chain == old(chain) && freeDesc == old(freeDesc)
      ensures SameDescs(old(desc), desc)
      ensures found && PageOf(obj) in pages ==>
        freeDesc == old(freeDesc) && Vacant(desc, pages, live, old(SlotSize(obj)), obj)
      ensures found && PageOf(obj) !in pages ==>
        && PageOf(obj) in old(pages) && old(pages)[PageOf(obj)] == Bucket(freeDesc)
        && freeDesc in desc && desc[freeDesc].next == old(freeDesc)
    {
      hide Whole, PageOf, SlotsOf, SameDescs;
      if obj == 0 {
        NoNullObject(mem, desc, chain, freeDesc, calls, pages, live, g);
        NoChange(desc);
        return false;
      }
      var page := obj - obj % PAGE_SIZE;
      assert page == PageOf(obj) by { SamePage(obj); }
      var b, d, prev;
      ghost var i;
      b, d, prev, i := FindDesc(page, Unsigned(size));
      if obj in live {
        RoomOf(mem, desc, chain, freeDesc, calls, pages, live, g, obj);
        VacantAgain(mem, desc, chain, freeDesc, calls, pages, live, g, obj);
      }
      if d == 0 {
        if obj in live {
          Missed(mem, desc, chain, freeDesc, calls, pages, live, g, obj, Unsigned(size));
        }
        NoChange(desc);
        return false;
      }
      Hit(mem, desc, chain, freeDesc, calls, pages, live, g, obj, b, d, i);
      ghost var was := desc;
      GiveBack(obj, b, d, prev, i);
      StillThere(was, desc, d);
      found := true;
    }

    /** Whether step `a` can happen now. */
    predicate Possible(a: Step)
      reads this
    {
      match a
      case Call(t, len) => t !in calls
      case Page(t, page) => t in calls && (calls[t].NeedDescs? || calls[t].NeedPage?)
                            && page !in pages && page != 0 && page % PAGE_SIZE == 0
      case NoPage(t) => t in calls && (calls[t].NeedDescs? || calls[t].NeedPage?)
      case Fill(t, junk) => t in calls && calls[t].HasDescs? && |junk| == DESCS
      case Link(t) => t in calls && calls[t].HasPage?
      case Free(obj, size) =>
        && (obj == 0 || obj in live || (PageOf(obj) in pages ==> !pages[PageOf(obj)].Bucket?))
        && -0x8000_0000 <= size < 0x8000_0000
      case Store(o, a, v) => o in live && o <= a < o + live[o]
    }

    /** Any calls of kmalloc and kfree_s, interleaved in any way between interrupts-off sections,
        with callers writing to what they hold. */
    method Run(script: seq<Step>)
      requires Inv()
      modifies this
      ensures Inv()
      ensures forall o, q :: o in live && q in live && o < q ==> o + live[o] <= q
      ensures live == map[] && calls == map[] ==> forall p :: p in pages ==> pages[p] == Descs
      ensures live == map[] && calls == map[] ==> Chain(desc, freeDesc, g.spare) && desc.Keys == Elems(g.spare)
      ensures DescsStay(old(desc), old(pages), desc, pages)
    {
      hide Whole, Listed, Placed, Owned, Filled, Busy, Lively, PageOf, SlotsOf, Fits, Vacant, RestVacant, Chain;
      for i := 0 to |script|
        invariant Inv() && DescsStay(old(desc), old(pages), desc, pages)
      {
        var a := script[i];
        if Possible(a) {
          match a
          case Call(t, len) => var _ := Start(t, len);
          case Page(t, page) => PageArrives(t, page);
          case NoPage(t) => PageRefused(t);
          case Fill(t, junk) => Splice(t, junk);
          case Link(t) => var _ := Publish(t);
          case Free(obj, size) => var _ := Kfree(obj, size);
          case Store(o, w, v) => Write(o, w, v);
        }
      }
      LiveApart(mem, desc, chain, freeDesc, calls, pages, live, g);
      AtRest(mem, desc, chain, freeDesc, calls, pages, live, g);
    }
  }
}
