/** Why each interrupts-off section of lib/malloc.c keeps the allocator's invariant. */
module MallocSteps {

  import opened BucketLists
  import opened Lists
  import opened MallocState

  // ---- what a section leaves alone ---------------------------------------------------------

  lemma {:induction false} ListedFrame(desc: map<nat, Desc>, desc': map<nat, Desc>, chain: seq<nat>, head: nat,
                                       g: Ledger, g': Ledger)
    requires Listed(desc, chain, head, g) && g'.lists == g.lists && g'.spare == g.spare
    requires forall d :: d in desc ==> d in desc' && desc'[d].next == desc[d].next
    ensures Listed(desc', chain, head, g')
  {
    hide Chain;
    forall b | 0 <= b < BUCKETS
      ensures Chain(desc', chain[b], g'.lists[b])
    {
      ChainKept(desc, desc', chain[b], g.lists[b]);
    }
    ChainKept(desc, desc', head, g.spare);
  }

  lemma {:induction false} ChainKept(desc: map<nat, Desc>, desc': map<nat, Desc>, head: nat, s: seq<nat>)
    requires Chain(desc, head, s)
    requires forall d :: d in desc ==> d in desc' && desc'[d].next == desc[d].next
    ensures Chain(desc', head, s)
  {
    forall d | d in s
      ensures d in desc' && desc'[d].next == desc[d].next
    {
      var i :| 0 <= i < |s| && s[i] == d;
    }
    ChainFrame(desc, desc', head, s);
  }

  /** Who holds what, and which list what is on, does not depend on the free objects. */
  lemma {:induction false} ListsSame(calls: map<nat, Phase>, g: Ledger, g': Ledger)
    requires OnChains(g) && OnSpare(g) && g' == g.(objs := g'.objs)
    ensures OnChains(g') && OnSpare(g')
  {
  }

  lemma {:induction false} CallsSame(calls: map<nat, Phase>, g: Ledger, g': Ledger)
    requires WithCalls(calls, g) && g' == g.(objs := g'.objs)
    ensures WithCalls(calls, g')
  {
    hide HoldsDesc, Fits;
  }

  lemma {:induction false} UseSame(g: Ledger, g': Ledger)
    requires InUse(g) && g' == g.(objs := g'.objs) && g'.objs.Keys == g.objs.Keys
    ensures InUse(g')
  {
    assert forall d :: d in g'.objs <==> d in g'.objs.Keys;
    assert forall d :: d in g.objs <==> d in g.objs.Keys;
  }

  lemma {:induction false} PlacedFrame(desc: map<nat, Desc>, desc': map<nat, Desc>, calls: map<nat, Phase>, g: Ledger,
                                       g': Ledger)
    requires Placed(desc, calls, g) && g' == g.(objs := g'.objs)
    requires desc'.Keys == desc.Keys && g'.objs.Keys == g.objs.Keys
    ensures Placed(desc', calls, g')
  {
    ListsSame(calls, g, g');
    CallsSame(calls, g, g');
    UseSame(g, g');
    hide OnChains, OnSpare, WithCalls, InUse;
  }

  lemma {:induction false} OwnedFrame(desc: map<nat, Desc>, desc': map<nat, Desc>, calls: map<nat, Phase>,
                                      pages: map<nat, Use>, g: Ledger, g': Ledger)
    requires Owned(desc, calls, pages, g)
    requires desc'.Keys == desc.Keys && g'.objs.Keys == g.objs.Keys
    requires forall d :: d in desc ==> d in desc' && desc'[d].page == desc[d].page
    ensures Owned(desc', calls, pages, g')
  {
    assert forall d :: d in g'.objs <==> d in g'.objs.Keys;
    assert forall d :: d in g.objs <==> d in g.objs.Keys;
    assert forall d :: d in desc' <==> d in desc'.Keys;
    assert forall d :: d in desc <==> d in desc.Keys;
  }

  /** Pages of different descriptors are different. */
  lemma {:induction false} PagesApart(desc: map<nat, Desc>, calls: map<nat, Phase>, pages: map<nat, Use>, g: Ledger,
                                      d: nat, d': nat)
    requires Owned(desc, calls, pages, g) && d in g.objs && d' in g.objs && d != d'
    ensures d in desc && d' in desc && desc[d].page != desc[d'].page
  {
  }

  /** Two memories, and two sets of objects in use, that differ inside page `p` only. */
  ghost predicate OnlyIn(p: nat, mem: map<nat, nat>, mem': map<nat, nat>, live: map<nat, nat>,
                         live': map<nat, nat>)
  {
    forall a: nat :: PageOf(a) != p ==>
      (a in live <==> a in live') && (a in mem && a !in live ==> a in mem' && mem'[a] == mem[a])
  }

  lemma {:induction false} FilledLocal(mem: map<nat, nat>, mem': map<nat, nat>, desc: map<nat, Desc>,
                                       desc': map<nat, Desc>, live: map<nat, nat>, live': map<nat, nat>,
                                       g: Ledger, g': Ledger, d: nat, p: nat)
    requires Filled(mem, desc, live, g) && OnlyIn(p, mem, mem', live, live')
    requires forall e :: e in g'.objs && e != d ==>
      && e in g.objs && e in desc && e in desc' && e in g.place && e in g'.place
      && desc'[e] == desc[e].(next := desc'[e].next) && g'.objs[e] == g.objs[e] && g'.place[e] == g.place[e]
      && desc[e].page != p && desc[e].page % PAGE_SIZE == 0
    requires d in g'.objs ==>
      && d in desc' && d in g'.place && g'.place[d].OnChain? && g'.place[d].b < BUCKETS
      && BucketOk(mem', desc'[d], g'.place[d].b, g'.objs[d], live')
    ensures Filled(mem', desc', live', g')
  {
    hide BucketOk, OnlyIn;
    forall e | e in g'.objs && e != d
      ensures e in desc' && e in g'.place && g'.place[e].OnChain? && g'.place[e].b < BUCKETS
      ensures BucketOk(mem', desc'[e], g'.place[e].b, g'.objs[e], live')
    {
      var b, f := g.place[e].b, desc[e];
      BucketElsewhereIn(p, mem, mem', f, b, g.objs[e], live, live');
      BucketNext(mem', f, desc'[e], b, g.objs[e], live');
    }
  }

  lemma {:induction false} BucketNext(mem: map<nat, nat>, f: Desc, f': Desc, b: nat, free: seq<nat>,
                                      live: map<nat, nat>)
    requires b < BUCKETS && BucketOk(mem, f, b, free, live) && f' == f.(next := f'.next)
    ensures BucketOk(mem, f', b, free, live)
  {
  }

  lemma {:induction false} BucketElsewhereIn(p: nat, mem: map<nat, nat>, mem': map<nat, nat>, f: Desc, b: nat,
                                             free: seq<nat>, live: map<nat, nat>, live': map<nat, nat>)
    requires b < BUCKETS && BucketOk(mem, f, b, free, live)
    requires OnlyIn(p, mem, mem', live, live') && f.page != p && f.page % PAGE_SIZE == 0
    ensures BucketOk(mem', f, b, free, live')
  {
    hide BucketOk, SlotsOf;
    SlotPage(f.page, b);
    BucketElsewhere(mem, mem', f, b, free, live, live');
  }

  // ---- handing out an object (lines 269-277) -----------------------------------------------

  /** The ledger after descriptor `d` hands out its first free object. */
  function TakenFrom(g: Ledger, d: nat): Ledger
    requires d in g.objs && |g.objs[d]| > 0
  {
    g.(objs := g.objs[d := g.objs[d][1..]])
  }

  lemma {:induction false} FilledTake(mem: map<nat, nat>, desc: map<nat, Desc>, calls: map<nat, Phase>,
                                      pages: map<nat, Use>, live: map<nat, nat>, g: Ledger, d: nat, len: nat)
    requires Filled(mem, desc, live, g) && Owned(desc, calls, pages, g)
    requires d in g.objs && desc[d].freeptr != 0
    ensures var o := desc[d].freeptr;
      && |g.objs[d]| > 0 && o in mem && o !in live
      && PageOf(o) == desc[d].page && o in SlotsOf(desc[d].page, g.place[d].b)
      && Filled(mem, desc[d := Taken(mem, desc[d])], live[o := len], TakenFrom(g, d))
  {
    hide BucketOk, SlotsOf, Owned, FreeList;
    var f, b := desc[d], g.place[d].b;
    PageAligned(desc, calls, pages, g, d);
    BucketTake(mem, f, b, g.objs[d], live, len);
    SlotPage(f.page, b);
    var o := f.freeptr;
    forall e | e in g.objs && e != d
      ensures desc[e].page != f.page && desc[e].page % PAGE_SIZE == 0
    {
      PagesApart(desc, calls, pages, g, d, e);
      PageAligned(desc, calls, pages, g, e);
    }
    FilledLocal(mem, mem, desc, desc[d := Taken(mem, f)], live, live[o := len], g, TakenFrom(g, d), d, f.page);
  }

  lemma {:induction false} PageAligned(desc: map<nat, Desc>, calls: map<nat, Phase>, pages: map<nat, Use>, g: Ledger,
                                       d: nat)
    requires Owned(desc, calls, pages, g) && d in g.objs
    ensures d in desc && desc[d].page != 0 && desc[d].page % PAGE_SIZE == 0
  {
  }

  lemma {:induction false} LivelyTake(desc: map<nat, Desc>, calls: map<nat, Phase>, pages: map<nat, Use>,
                                      live: map<nat, nat>, g: Ledger, d: nat, o: nat, len: nat)
    requires Lively(pages, live, g) && Placed(desc, calls, g) && Owned(desc, calls, pages, g)
    requires d in g.objs && |g.objs[d]| > 0 && PageOf(o) == desc[d].page && o in SlotsOf(desc[d].page, g.place[d].b)
    requires len <= DIR[g.place[d].b]
    ensures Lively(pages, live[o := len], TakenFrom(g, d))
  {
    hide SlotsOf;
  }

  lemma {:induction false} BusyTake(mem: map<nat, nat>, desc: map<nat, Desc>, g: Ledger, d: nat)
    requires Busy(desc, g, d) && d in g.objs && |g.objs[d]| > 0 && d in desc && desc[d].freeptr in mem
    ensures Busy(desc[d := Taken(mem, desc[d])], TakenFrom(g, d), 0)
  {
  }

  /** Handing out `desc[d].freeptr` keeps everything, and makes `d`'s page one in use. */
  lemma {:induction false} TakeKeeps(mem: map<nat, nat>, desc: map<nat, Desc>, chain: seq<nat>, head: nat,
                                     calls: map<nat, Phase>, pages: map<nat, Use>, live: map<nat, nat>, g: Ledger,
                                     d: nat, len: nat)
    requires Whole(mem, desc, chain, head, calls, pages, live, g, d)
    requires d in g.objs && d in g.place && g.place[d].OnChain? && g.place[d].b < BUCKETS && len <= DIR[g.place[d].b]
    requires d in desc && desc[d].freeptr != 0
    ensures |g.objs[d]| > 0 && desc[d].freeptr in mem && desc[d].freeptr !in live
    ensures Whole(mem, desc[d := Taken(mem, desc[d])], chain, head, calls, pages, live[desc[d].freeptr := len],
      TakenFrom(g, d), 0)
  {
    hide Listed, Placed, Owned, Filled, Lively, Busy, SlotsOf;
    FilledTake(mem, desc, calls, pages, live, g, d, len);
    LivelyTake(desc, calls, pages, live, g, d, desc[d].freeptr, len);
    BusyTake(mem, desc, g, d);
    var desc', g' := desc[d := Taken(mem, desc[d])], TakenFrom(g, d);
    SameKeys(desc, g, d, desc'[d], g'.objs[d]);
    ListedFrame(desc, desc', chain, head, g, g');
    PlacedFrame(desc, desc', calls, g, g');
    OwnedFrame(desc, desc', calls, pages, g, g');
  }

  lemma {:induction false} SameKeys(desc: map<nat, Desc>, g: Ledger, d: nat, f: Desc, s: seq<nat>)
    requires d in desc && d in g.objs
    ensures desc[d := f].Keys == desc.Keys && g.objs[d := s].Keys == g.objs.Keys
  {
  }

  // ---- taking an object back (lines 475-479) -----------------------------------------------

  function GivenTo(g: Ledger, d: nat, o: nat): Ledger
    requires d in g.objs
  {
    g.(objs := g.objs[d := [o] + g.objs[d]])
  }

  lemma {:induction false} StoredIn(mem: map<nat, nat>, live: map<nat, nat>, o: nat, v: nat, p: nat)
    requires PageOf(o) == p
    ensures OnlyIn(p, mem, mem[o := v], live, live - {o})
  {
    hide PageOf;
  }

  lemma {:induction false} FilledGive(mem: map<nat, nat>, desc: map<nat, Desc>, calls: map<nat, Phase>,
                                      pages: map<nat, Use>, live: map<nat, nat>, g: Ledger, d: nat, o: nat)
    requires Filled(mem, desc, live, g) && Owned(desc, calls, pages, g) && Busy(desc, g, 0) && d != 0
    requires d in g.objs && o in live && o in SlotsOf(desc[d].page, g.place[d].b)
    ensures desc[d].refcnt > 0
    ensures Filled(mem[o := desc[d].freeptr], desc[d := Given(desc[d], o)], live - {o}, GivenTo(g, d, o))
  {
    hide BucketOk, SlotsOf, Owned, PageOf, OnlyIn, FreeList;
    var f, b := desc[d], g.place[d].b;
    PageAligned(desc, calls, pages, g, d);
    SlotPage(f.page, b);
    BucketGive(mem, f, b, g.objs[d], live, o);
    forall e | e in g.objs && e != d
      ensures desc[e].page != f.page && desc[e].page % PAGE_SIZE == 0
    {
      PagesApart(desc, calls, pages, g, d, e);
      PageAligned(desc, calls, pages, g, e);
    }
    StoredIn(mem, live, o, f.freeptr, f.page);
    FilledLocal(mem, mem[o := f.freeptr], desc, desc[d := Given(f, o)], live, live - {o}, g, GivenTo(g, d, o), d,
      f.page);
  }

  /** The object leaves the set of live ones; its page's bucket stays. */
  lemma {:induction false} LivelyGive(pages: map<nat, Use>, live: map<nat, nat>, g: Ledger, d: nat, o: nat)
    requires Lively(pages, live, g) && d in g.objs
    ensures Lively(pages, live - {o}, GivenTo(g, d, o))
  {
    hide SlotsOf;
  }

  // ---- retiring an idle page (lines 480-500) -----------------------------------------------

  /** The descriptors once `s[i]` is bypassed. */
  function Bypassed(desc: map<nat, Desc>, s: seq<nat>, i: nat): map<nat, Desc>
    requires i < |s| && (i > 0 ==> s[i - 1] in desc && s[i] in desc)
  {
    if i == 0 then desc else desc[s[i - 1] := desc[s[i - 1]].(next := desc[s[i]].next)]
  }

  function Retired(g: Ledger, b: nat, i: nat): Ledger
    requires b < |g.lists| && i < |g.lists[b]|
  {
    var d := g.lists[b][i];
    Ledger(g.lists[b := Without(g.lists[b], i)], [d] + g.spare, g.objs - {d}, g.place[d := OnFree])
  }

  /** What a descriptor's place says about the lists. */
  lemma {:induction false} OnOneList(desc: map<nat, Desc>, calls: map<nat, Phase>, g: Ledger, b: nat, d: nat)
    requires Placed(desc, calls, g) && b < BUCKETS && d in g.lists[b]
    ensures d in desc && d !in g.spare && forall c :: 0 <= c < BUCKETS && c != b ==> d !in g.lists[c]
  {
    assert d in g.place.Keys;
  }

  lemma {:induction false} ListedRetire(desc: map<nat, Desc>, chain: seq<nat>, head: nat, calls: map<nat, Phase>,
                                        g: Ledger, b: nat, i: nat)
    requires Listed(desc, chain, head, g) && Placed(desc, calls, g)
    requires b < BUCKETS && i < |g.lists[b]|
    ensures var s, d := g.lists[b], g.lists[b][i];
      && d in desc && (i > 0 ==> s[i - 1] in desc)
      && Listed(Bypassed(desc, s, i)[d := desc[d].(next := head)],
                if i == 0 then chain[b := desc[d].next] else chain, d, Retired(g, b, i))
  {
    var s, d := g.lists[b], g.lists[b][i];
    assert Chain(desc, chain[b], s);
    OnOneList(desc, calls, g, b, d);
    if i > 0 {
      OnOneList(desc, calls, g, b, s[i - 1]);
    }
    var desc' := Bypassed(desc, s, i)[d := desc[d].(next := head)];
    var chain' := if i == 0 then chain[b := desc[d].next] else chain;
    hide Chain;
    forall c | 0 <= c < BUCKETS
      ensures Chain(desc', chain'[c], Retired(g, b, i).lists[c])
    {
      if c == b {
        RemoveHere(desc, chain[b], s, i, head);
      } else {
        ChainElsewhere(desc, chain[c], g.lists[c], s, i, desc[d].(next := head));
      }
    }
    ChainElsewhere(desc, head, g.spare, s, i, desc[d].(next := head));
    ChainDomain(desc, chain[b], s, i);
    ChainPush(desc', head, g.spare, d, desc'[d]);
    assert desc'[d := desc'[d]] == desc';
  }

  lemma {:induction false} ChainDomain(desc: map<nat, Desc>, head: nat, s: seq<nat>, i: nat)
    requires Chain(desc, head, s) && i < |s|
    ensures s[i] != 0 && s[i] in desc && desc[s[i]].next == After(s, i)
  {
  }

  lemma {:induction false} RemoveHere(desc: map<nat, Desc>, head: nat, s: seq<nat>, i: nat, top: nat)
    requires Chain(desc, head, s) && i < |s| && s[i] in desc && (i > 0 ==> s[i - 1] in desc)
    ensures Chain(Bypassed(desc, s, i)[s[i] := desc[s[i]].(next := top)],
                  if i == 0 then desc[s[i]].next else head, Without(s, i))
  {
    ChainRemove(desc, Bypassed(desc, s, i)[s[i] := desc[s[i]].(next := top)], head, s, i);
  }

  lemma {:induction false} ChainElsewhere(desc: map<nat, Desc>, head: nat, t: seq<nat>, s: seq<nat>, i: nat, f: Desc)
    requires Chain(desc, head, t) && i < |s| && s[i] in desc && s[i] !in t
    requires i > 0 ==> s[i - 1] in desc && s[i - 1] !in t
    ensures Chain(Bypassed(desc, s, i)[s[i] := f], head, t)
  {
    ChainFrame(desc, Bypassed(desc, s, i)[s[i] := f], head, t);
  }

  /** Element `e` and chain `c`, before and after `d` leaves its chain. */
  lemma {:induction false} ChainRetire(g: Ledger, b: nat, s: seq<nat>, d: nat, c: nat, e: nat)
    requires OnChains(g) && b < BUCKETS && c < BUCKETS && d in g.lists[b]
    requires forall x :: x in s <==> x in g.lists[b] && x != d
    ensures var lists, place := g.lists[b := s], g.place[d := OnFree];
      e in lists[c] <==> e in place && place[e] == OnChain(c)
  {
    assert d in g.place && g.place[d] == OnChain(b);
    assert e in g.lists[c] <==> e in g.place && g.place[e] == OnChain(c);
    if c == b {
      assert g.lists[b := s][c] == s;
    } else {
      assert g.lists[b := s][c] == g.lists[c];
    }
  }

  lemma {:induction false} ChainsRetire(g: Ledger, b: nat, i: nat)
    requires OnChains(g) && b < BUCKETS && i < |g.lists[b]| && Distinct(g.lists[b])
    ensures OnChains(Retired(g, b, i))
  {
    var d, s := g.lists[b][i], Without(g.lists[b], i);
    WithoutMembers(g.lists[b], i);
    hide Without, Distinct;
    assert d in g.lists[b];
    var g' := Retired(g, b, i);
    assert g'.lists == g.lists[b := s] && g'.place == g.place[d := OnFree];
    forall c, e | 0 <= c < BUCKETS
      ensures e in g'.lists[c] <==> e in g'.place && g'.place[e] == OnChain(c)
    {
      ChainRetire(g, b, s, d, c, e);
    }
  }

  /** Moving a chained descriptor to the free list concerns no call. */
  lemma {:induction false} CallsRetire(calls: map<nat, Phase>, g: Ledger, g': Ledger, d: nat)
    requires WithCalls(calls, g) && d in g.place && g.place[d].OnChain? && g'.place == g.place[d := OnFree]
    ensures WithCalls(calls, g')
  {
    hide Fits, HoldsDesc;
    forall t, e
      ensures e in g'.place && g'.place[e] == InFlight(t) <==> e in g.place && g.place[e] == InFlight(t)
    {
    }
  }

  lemma {:induction false} UseRetire(g: Ledger, g': Ledger, d: nat)
    requires InUse(g) && OnSpare(g) && d in g.objs
    requires g'.place == g.place[d := OnFree] && g'.objs == g.objs - {d} && g'.spare == [d] + g.spare
    ensures InUse(g') && OnSpare(g')
  {
  }

  lemma {:induction false} PlacedRetire(desc: map<nat, Desc>, desc': map<nat, Desc>, calls: map<nat, Phase>, g: Ledger,
                                        b: nat, i: nat)
    requires Placed(desc, calls, g) && desc'.Keys == desc.Keys
    requires b < BUCKETS && i < |g.lists[b]| && Distinct(g.lists[b])
    ensures Placed(desc', calls, Retired(g, b, i))
  {
    ChainsRetire(g, b, i);
    var d, g' := g.lists[b][i], Retired(g, b, i);
    assert d in g.lists[b] && d in g.place && g.place[d] == OnChain(b);
    assert d in g.place.Keys && g'.place.Keys == g.place.Keys;
    CallsRetire(calls, g, g', d);
    UseRetire(g, g', d);
  }

  lemma {:induction false} HeldStay(calls: map<nat, Phase>, pages: map<nat, Use>, p: nat)
    requires HeldPages(calls, pages) && p in pages && !pages[p].Held?
    ensures HeldPages(calls, pages - {p})
  {
    hide HoldsPage;
  }

  lemma {:induction false} OwnedRetire(desc: map<nat, Desc>, desc': map<nat, Desc>, calls: map<nat, Phase>,
                                       pages: map<nat, Use>, g: Ledger, b: nat, i: nat)
    requires Owned(desc, calls, pages, g) && desc'.Keys == desc.Keys
    requires forall d :: d in desc ==> d in desc' && desc'[d].page == desc[d].page
    requires b < |g.lists| && i < |g.lists[b]| && g.lists[b][i] in g.objs
    ensures g.lists[b][i] in desc
    ensures Owned(desc', calls, pages - {desc[g.lists[b][i]].page}, Retired(g, b, i))
  {
    hide Without, PageOf, HoldsPage, HeldPages;
    var d, g' := g.lists[b][i], Retired(g, b, i);
    var p := desc[d].page;
    assert pages[p] == Bucket(d);
    HeldStay(calls, pages, p);
    forall e | e in desc'
      ensures e != 0 && PageOf(e) in pages - {p} && (pages - {p})[PageOf(e)] == Descs
    {
      assert e in desc.Keys;
      assert PageOf(e) in pages && pages[PageOf(e)] == Descs;
    }
    assert forall e :: e in g'.objs <==> e in g.objs && e != d;
  }

  lemma {:induction false} LivelyRetire(desc: map<nat, Desc>, pages: map<nat, Use>, live: map<nat, nat>, g: Ledger,
                                        b: nat, i: nat, p: nat)
    requires Lively(pages, live, g) && b < |g.lists| && i < |g.lists[b]|
    requires p in pages && pages[p] == Bucket(g.lists[b][i]) && p % PAGE_SIZE == 0
    requires forall q :: q in pages && pages[q] == pages[p] ==> q == p
    requires forall a :: a in live ==> PageOf(a) != p
    ensures Lively(pages - {p}, live, Retired(g, b, i))
  {
    hide SlotsOf, Without;
  }

  lemma {:induction false} FilledRetire(mem: map<nat, nat>, desc: map<nat, Desc>, desc': map<nat, Desc>,
                                        calls: map<nat, Phase>, pages: map<nat, Use>, live: map<nat, nat>, g: Ledger,
                                        b: nat, i: nat)
    requires Filled(mem, desc, live, g) && Owned(desc, calls, pages, g)
    requires b < |g.lists| && i < |g.lists[b]| && g.lists[b][i] in g.objs
    requires forall d :: d in desc ==> d in desc' && desc'[d] == desc[d].(next := desc'[d].next)
    ensures Filled(mem, desc', live, Retired(g, b, i))
  {
    var d, g' := g.lists[b][i], Retired(g, b, i);
    hide BucketOk, Owned, Without;
    forall e | e in g'.objs && e != d
      ensures e in desc && desc[e].page != desc[d].page && desc[e].page % PAGE_SIZE == 0
    {
      PagesApart(desc, calls, pages, g, d, e);
      PageAligned(desc, calls, pages, g, e);
    }
    FilledLocal(mem, mem, desc, desc', live, live, g, g', d, desc[d].page);
  }
}
