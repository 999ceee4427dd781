/** Why the sections of lib/malloc.c that move descriptors and pages in and out keep the
    allocator's invariant.
 */
module MallocPages {

  import opened BucketLists
  import opened Lists
  import opened MallocState
  import opened MallocSteps

  // ---- a page arrives from, or is refused by, __get_free_page -------------------------------

  lemma {:induction false} OwnedArrive(desc: map<nat, Desc>, calls: map<nat, Phase>, pages: map<nat, Use>, g: Ledger,
                                       t: nat, ph: Phase, p: nat)
    requires Owned(desc, calls, pages, g) && p !in pages && p != 0 && p % PAGE_SIZE == 0
    requires t in calls && (calls[t].NeedDescs? || calls[t].NeedPage?)
    requires forall q :: HoldsPage(ph, q) <==> q == p
    ensures Owned(desc, calls[t := ph], pages[p := Held(t)], g)
  {
  }

  lemma {:induction false} PlacedPhase(desc: map<nat, Desc>, calls: map<nat, Phase>, g: Ledger, t: nat, ph: Phase)
    requires Placed(desc, calls, g) && Fits(ph.len, ph.b)
    requires forall d :: HoldsDesc(ph, d) <==> t in calls && HoldsDesc(calls[t], d)
    ensures Placed(desc, calls[t := ph], g)
  {
    hide Fits, OnChains, OnSpare, InUse;
  }

  lemma {:induction false} LivelyMore(pages: map<nat, Use>, pages': map<nat, Use>, live: map<nat, nat>, g: Ledger)
    requires Lively(pages, live, g)
    requires forall p :: p in pages && pages[p].Bucket? ==> p in pages' && pages'[p] == pages[p]
    ensures Lively(pages', live, g)
  {
    hide SlotsOf;
  }

  // ---- the free descriptor list (lines 221-222, 229-232) -----------------------------------

  function Popped(g: Ledger, t: nat): Ledger
    requires |g.spare| > 0
  {
    g.(spare := g.spare[1..], place := g.place[g.spare[0] := InFlight(t)])
  }

  lemma {:induction false} ListedPop(desc: map<nat, Desc>, chain: seq<nat>, head: nat, g: Ledger, t: nat)
    requires Listed(desc, chain, head, g) && head != 0
    ensures |g.spare| > 0 && head == g.spare[0] && head in desc
    ensures Listed(desc, chain, desc[head].next, Popped(g, t))
  {
    ChainPop(desc, head, g.spare);
  }

  lemma {:induction false} ChainsPop(g: Ledger, t: nat)
    requires OnChains(g) && OnSpare(g) && InUse(g) && |g.spare| > 0 && Distinct(g.spare)
    ensures OnChains(Popped(g, t)) && OnSpare(Popped(g, t)) && InUse(Popped(g, t))
  {
    var d := g.spare[0];
    assert d in g.spare;
    forall e
      ensures e in g.spare[1..] <==> e in g.spare && e != d
    {
      FirstGone(g.spare, e);
    }
    hide Distinct;
  }

  lemma {:induction false} CallsPop(calls: map<nat, Phase>, g: Ledger, t: nat, ph: Phase)
    requires WithCalls(calls, g) && OnSpare(g) && |g.spare| > 0 && Fits(ph.len, ph.b)
    requires forall d :: t in calls ==> !HoldsDesc(calls[t], d)
    requires forall d :: HoldsDesc(ph, d) <==> d == g.spare[0]
    ensures WithCalls(calls[t := ph], Popped(g, t))
  {
    hide Fits;
    assert g.spare[0] in g.spare;
  }

  lemma {:induction false} PlacedPop(desc: map<nat, Desc>, calls: map<nat, Phase>, g: Ledger, t: nat, ph: Phase)
    requires Placed(desc, calls, g) && |g.spare| > 0 && Distinct(g.spare) && Fits(ph.len, ph.b)
    requires forall d :: t in calls ==> !HoldsDesc(calls[t], d)
    requires forall d :: HoldsDesc(ph, d) <==> d == g.spare[0]
    ensures Placed(desc, calls[t := ph], Popped(g, t))
  {
    ChainsPop(g, t);
    CallsPop(calls, g, t, ph);
    assert g.spare[0] in g.spare;
    assert g.spare[0] in g.place.Keys;
    assert Popped(g, t).place.Keys == g.place.Keys;
    hide OnChains, OnSpare, InUse, WithCalls, Fits, Distinct;
  }

  /** A call that holds no page, and held none, changes no page's owner. */
  lemma {:induction false} OwnedPhase(desc: map<nat, Desc>, calls: map<nat, Phase>, pages: map<nat, Use>, g: Ledger,
                                      g': Ledger, t: nat, ph: Phase)
    requires Owned(desc, calls, pages, g) && g'.objs == g.objs
    requires forall p :: HoldsPage(ph, p) <==> t in calls && HoldsPage(calls[t], p)
    ensures Owned(desc, calls[t := ph], pages, g')
  {
  }

  function Pushed(g: Ledger, d: nat): Ledger {
    g.(spare := [d] + g.spare, place := g.place[d := OnFree])
  }

  lemma {:induction false} OffLists(desc: map<nat, Desc>, calls: map<nat, Phase>, g: Ledger, d: nat, t: nat)
    requires Placed(desc, calls, g) && d in g.place && g.place[d] == InFlight(t)
    ensures d in desc && d !in g.spare && forall b :: 0 <= b < BUCKETS ==> d !in g.lists[b]
  {
    assert d in g.place.Keys;
    hide WithCalls, InUse;
  }

  lemma {:induction false} ChainPast(desc: map<nat, Desc>, head: nat, s: seq<nat>, d: nat, f: Desc)
    requires Chain(desc, head, s) && d !in s
    ensures Chain(desc[d := f], head, s)
  {
    ChainMembers(desc, head, s);
    ChainFrame(desc, desc[d := f], head, s);
  }

  lemma {:induction false} ListedPush(desc: map<nat, Desc>, chain: seq<nat>, head: nat, calls: map<nat, Phase>,
                                      g: Ledger, d: nat, t: nat)
    requires Listed(desc, chain, head, g) && Placed(desc, calls, g) && d != 0
    requires d in g.place && g.place[d] == InFlight(t)
    ensures d in desc && Listed(desc[d := desc[d].(next := head)], chain, d, Pushed(g, d))
  {
    OffLists(desc, calls, g, d, t);
    var f := desc[d].(next := head);
    hide Chain, Placed;
    forall b | 0 <= b < BUCKETS
      ensures Chain(desc[d := f], chain[b], Pushed(g, d).lists[b])
    {
      ChainPast(desc, chain[b], g.lists[b], d, f);
    }
    ChainPush(desc, head, g.spare, d, f);
  }

  lemma {:induction false} ChainMembers(desc: map<nat, Desc>, head: nat, s: seq<nat>)
    requires Chain(desc, head, s)
    ensures forall d :: d in s ==> d in desc
  {
  }

  lemma {:induction false} CallsDrop(calls: map<nat, Phase>, g: Ledger, g': Ledger, d: nat, t: nat)
    requires WithCalls(calls, g) && t in calls && HoldsDesc(calls[t], d)
    requires d in g'.place && !g'.place[d].InFlight? && g'.place == g.place[d := g'.place[d]]
    ensures WithCalls(calls - {t}, g')
  {
    hide Fits;
    assert d in g.place && g.place[d] == InFlight(t);
  }

  lemma {:induction false} HoldsPlace(calls: map<nat, Phase>, g: Ledger, d: nat, t: nat)
    requires WithCalls(calls, g) && t in calls && HoldsDesc(calls[t], d)
    ensures d in g.place && g.place[d] == InFlight(t)
  {
    hide Fits;
  }

  lemma {:induction false} ChainsPush(g: Ledger, d: nat, t: nat)
    requires OnChains(g) && OnSpare(g) && InUse(g) && d in g.place && g.place[d] == InFlight(t)
    ensures OnChains(Pushed(g, d)) && OnSpare(Pushed(g, d)) && InUse(Pushed(g, d))
  {
  }

  lemma {:induction false} PlacedPush(desc: map<nat, Desc>, desc': map<nat, Desc>, calls: map<nat, Phase>, g: Ledger,
                                      d: nat, t: nat)
    requires Placed(desc, calls, g) && desc'.Keys == desc.Keys && t in calls && HoldsDesc(calls[t], d)
    ensures Placed(desc', calls - {t}, Pushed(g, d))
  {
    hide WithCalls, OnChains, OnSpare, InUse, HoldsDesc;
    HoldsPlace(calls, g, d, t);
    assert d in g.place.Keys && Pushed(g, d).place.Keys == g.place.Keys;
    CallsDrop(calls, g, Pushed(g, d), d, t);
    ChainsPush(g, d, t);
  }

  /** A call that holds no page leaves. */
  lemma {:induction false} OwnedLeave(desc: map<nat, Desc>, calls: map<nat, Phase>, pages: map<nat, Use>, g: Ledger,
                                      g': Ledger, t: nat)
    requires Owned(desc, calls, pages, g) && g'.objs == g.objs && t in calls
    requires calls[t].NeedDescs? || calls[t].NeedPage?
    ensures Owned(desc, calls - {t}, pages, g')
  {
  }

  // ---- a page of new descriptors (lines 144-159) -------------------------------------------

  const DESC_SIZE: nat := 16
  const DESCS: nat := 256

  /** `news` are linked one to the next, and the last one to `head`. */
  ghost predicate LeadsTo(desc: map<nat, Desc>, news: seq<nat>, head: nat) {
    forall k :: 0 <= k < |news| ==>
      news[k] in desc && desc[news[k]].next == if k + 1 < |news| then news[k + 1] else head
  }

  /** New descriptors, each pointing to the next and the last to the old head. */
  lemma {:induction false} SpliceChain(desc: map<nat, Desc>, head: nat, rest: seq<nat>, news: seq<nat>)
    requires Chain(desc, head, rest) && |news| > 0 && Distinct(news) && forall d :: d in news ==> d !in rest && d != 0
    requires LeadsTo(desc, news, head)
    ensures Chain(desc, news[0], news + rest)
  {
    var s := news + rest;
    forall i, j | 0 <= i < j < |s|
      ensures s[i] != s[j]
    {
      if i < |news| && j >= |news| {
        assert s[i] in news && s[j] in rest;
      }
    }
    forall i | 0 <= i < |s|
      ensures s[i] != 0 && s[i] in desc && desc[s[i]].next == After(s, i)
    {
      if i < |news| {
        assert s[i] in news && s[i] == news[i];
        assert desc[news[i]].next == if i + 1 < |news| then news[i + 1] else head;
        if i + 1 < |news| {
          assert s[i + 1] == news[i + 1];
        } else if |rest| > 0 {
          assert s[i + 1] == rest[0];
        }
      } else {
        var k := i - |news|;
        assert s[i] == rest[k] && desc[rest[k]].next == After(rest, k);
        assert After(s, i) == After(rest, k);
      }
    }
  }

  function Spliced(g: Ledger, news: seq<nat>): Ledger {
    g.(spare := news + g.spare,
       place := map d | d in g.place.Keys + Elems(news) :: if d in news then OnFree else g.place[d])
  }

  lemma {:induction false} ListedSplice(desc: map<nat, Desc>, desc': map<nat, Desc>, chain: seq<nat>, head: nat,
                                        calls: map<nat, Phase>, g: Ledger, news: seq<nat>, top: nat)
    requires Listed(desc, chain, head, g) && Placed(desc, calls, g)
    requires forall d :: d in desc ==> d !in news && d in desc' && desc'[d] == desc[d]
    requires Chain(desc', top, news + g.spare)
    ensures Listed(desc', chain, top, Spliced(g, news))
  {
    hide Chain, Placed;
    forall b | 0 <= b < BUCKETS
      ensures Chain(desc', chain[b], g.lists[b])
    {
      ChainKept(desc, desc', chain[b], g.lists[b]);
    }
  }

  lemma {:induction false} PlacedSplice(desc: map<nat, Desc>, desc': map<nat, Desc>, calls: map<nat, Phase>, g: Ledger,
                                        news: seq<nat>)
    requires Placed(desc, calls, g) && desc'.Keys == desc.Keys + Elems(news)
    requires forall d :: d in desc ==> d !in news
    ensures Placed(desc', calls, Spliced(g, news))
  {
    var g' := Spliced(g, news);
    forall d | d in news
      ensures d !in g.place
    {
      assert d !in desc.Keys;
    }
    PlaceSplice(g, news);
    assert g'.place.Keys == desc'.Keys;
    hide HoldsDesc, Fits, Spliced;
    SpliceChains(g, g', news);
    SpliceCalls(calls, g, g', news);
  }

  lemma {:induction false} PlaceSplice(g: Ledger, news: seq<nat>)
    ensures Spliced(g, news).place.Keys == g.place.Keys + Elems(news)
    ensures forall d :: d in news ==> d in Spliced(g, news).place && Spliced(g, news).place[d] == OnFree
    ensures forall d :: d !in news ==> (d in Spliced(g, news).place <==> d in g.place)
    ensures forall d :: d !in news && d in g.place ==> Spliced(g, news).place[d] == g.place[d]
  {
  }

  lemma {:induction false} SpliceChains(g: Ledger, g': Ledger, news: seq<nat>)
    requires OnChains(g) && OnSpare(g) && InUse(g) && g'.lists == g.lists && g'.objs == g.objs
    requires g'.spare == news + g.spare
    requires forall d :: d in news ==> d !in g.place && d in g'.place && g'.place[d] == OnFree
    requires forall d :: d !in news ==> (d in g'.place <==> d in g.place)
    requires forall d :: d !in news && d in g.place ==> g'.place[d] == g.place[d]
    ensures OnChains(g') && OnSpare(g') && InUse(g')
  {
  }

  lemma {:induction false} SpliceCalls(calls: map<nat, Phase>, g: Ledger, g': Ledger, news: seq<nat>)
    requires WithCalls(calls, g)
    requires forall d :: d in news ==> d !in g.place && d in g'.place && g'.place[d] == OnFree
    requires forall d :: d !in news ==> (d in g'.place <==> d in g.place)
    requires forall d :: d !in news && d in g.place ==> g'.place[d] == g.place[d]
    ensures WithCalls(calls, g')
  {
    hide HoldsDesc, Fits;
  }

  /** A page that a call holds becomes something else, and the call goes on without it. */
  lemma {:induction false} HeldMoves(calls: map<nat, Phase>, calls': map<nat, Phase>, pages: map<nat, Use>, t: nat,
                                     p: nat, u: Use)
    requires HeldPages(calls, pages) && t in calls && HoldsPage(calls[t], p) && !u.Held?
    requires forall k :: k in calls' && k != t ==> k in calls && calls'[k] == calls[k]
    requires forall k :: k in calls && k != t ==> k in calls'
    requires t in calls' ==> forall q :: !HoldsPage(calls'[t], q)
    ensures p in pages && pages[p] == Held(t) && HeldPages(calls', pages[p := u])
  {
    assert p in pages && pages[p] == Held(t);
    assert forall q :: HoldsPage(calls[t], q) ==> q == p;
    hide HoldsPage;
  }

  lemma {:induction false} BucketsMore(desc: map<nat, Desc>, desc': map<nat, Desc>, pages: map<nat, Use>, g: Ledger,
                                       g': Ledger, p: nat, t: nat)
    requires BucketPages(desc, pages, g) && g'.objs == g.objs && p in pages && pages[p] == Held(t)
    requires forall d :: d in desc ==> d in desc' && desc'[d] == desc[d]
    ensures BucketPages(desc', pages[p := Descs], g')
  {
  }

  lemma {:induction false} DescsMore(desc: map<nat, Desc>, desc': map<nat, Desc>, pages: map<nat, Use>, news: seq<nat>,
                                     p: nat, t: nat)
    requires DescPages(desc, pages) && p in pages && pages[p] == Held(t)
    requires desc'.Keys == desc.Keys + Elems(news) && forall d :: d in news ==> d != 0 && PageOf(d) == p
    ensures DescPages(desc', pages[p := Descs])
  {
    hide PageOf;
    forall d | d in desc'
      ensures d != 0 && PageOf(d) in pages[p := Descs] && pages[p := Descs][PageOf(d)] == Descs
    {
      assert d in desc'.Keys;
      if d !in desc.Keys {
        assert d in Elems(news);
      }
    }
  }

  lemma {:induction false} OwnedSplice(desc: map<nat, Desc>, desc': map<nat, Desc>, calls: map<nat, Phase>,
                                       pages: map<nat, Use>, g: Ledger, g': Ledger, news: seq<nat>, t: nat, p: nat,
                                       ph: Phase)
    requires Owned(desc, calls, pages, g) && g'.objs == g.objs
    requires t in calls && HoldsPage(calls[t], p) && forall q :: !HoldsPage(ph, q)
    requires desc'.Keys == desc.Keys + Elems(news)
    requires forall d :: d in desc ==> d in desc' && desc'[d] == desc[d]
    requires forall d :: d in news ==> d != 0 && PageOf(d) == p
    ensures Owned(desc', calls[t := ph], pages[p := Descs], g')
  {
    hide DescPages, BucketPages, HeldPages, HoldsPage, PageOf, Elems;
    HeldMoves(calls, calls[t := ph], pages, t, p, Descs);
    DescsMore(desc, desc', pages, news, p, t);
    BucketsMore(desc, desc', pages, g, g', p, t);
  }

  lemma {:induction false} FilledMore(mem: map<nat, nat>, desc: map<nat, Desc>, desc': map<nat, Desc>,
                                      live: map<nat, nat>, g: Ledger, g': Ledger)
    requires Filled(mem, desc, live, g) && g'.objs == g.objs
    requires forall d :: d in g.objs ==> d in g'.place && g'.place[d] == g.place[d]
    requires forall d :: d in g.objs && d in desc ==> d in desc' && desc'[d] == desc[d]
    ensures Filled(mem, desc', live, g')
  {
    hide BucketOk;
  }

  lemma {:induction false} LivelyMove(pages: map<nat, Use>, live: map<nat, nat>, g: Ledger, g': Ledger)
    requires Lively(pages, live, g)
    requires forall d :: d in g.place && g.place[d].OnChain? ==> d in g'.place && g'.place[d] == g.place[d]
    ensures Lively(pages, live, g')
  {
    hide SlotsOf;
  }

  // ---- a new bucket page goes on its chain (lines 236-267) ---------------------------------

  function Adopted(g: Ledger, b: nat, d: nat, slots: seq<nat>): Ledger
    requires b < |g.lists|
  {
    g.(lists := g.lists[b := [d] + g.lists[b]], objs := g.objs[d := slots], place := g.place[d := OnChain(b)])
  }

  lemma {:induction false} ListedAdopt(desc: map<nat, Desc>, chain: seq<nat>, head: nat, calls: map<nat, Phase>,
                                       g: Ledger, d: nat, t: nat, b: nat, f: Desc, slots: seq<nat>)
    requires Listed(desc, chain, head, g) && Placed(desc, calls, g) && d != 0 && b < BUCKETS
    requires d in g.place && g.place[d] == InFlight(t) && f.next == chain[b]
    ensures Listed(desc[d := f], chain[b := d], head, Adopted(g, b, d, slots))
  {
    OffLists(desc, calls, g, d, t);
    hide Chain, Placed;
    forall c | 0 <= c < BUCKETS
      ensures Chain(desc[d := f], chain[b := d][c], Adopted(g, b, d, slots).lists[c])
    {
      if c == b {
        ChainPush(desc, chain[b], g.lists[b], d, f);
      } else {
        ChainPast(desc, chain[c], g.lists[c], d, f);
      }
    }
    ChainPast(desc, head, g.spare, d, f);
  }

  lemma {:induction false} ChainsAdopt(g: Ledger, b: nat, d: nat, t: nat, slots: seq<nat>)
    requires OnChains(g) && OnSpare(g) && InUse(g) && b < BUCKETS
    requires d in g.place && g.place[d] == InFlight(t)
    ensures OnChains(Adopted(g, b, d, slots)) && OnSpare(Adopted(g, b, d, slots)) && InUse(Adopted(g, b, d, slots))
  {
    var g' := Adopted(g, b, d, slots);
    forall c, e | 0 <= c < BUCKETS
      ensures e in g'.lists[c] <==> e in g'.place && g'.place[e] == OnChain(c)
    {
      if c == b {
        assert g'.lists[c] == [d] + g.lists[c];
      } else {
        assert g'.lists[c] == g.lists[c];
      }
    }
  }

  lemma {:induction false} PlacedAdopt(desc: map<nat, Desc>, desc': map<nat, Desc>, calls: map<nat, Phase>, g: Ledger,
                                       b: nat, d: nat, t: nat, slots: seq<nat>)
    requires Placed(desc, calls, g) && desc'.Keys == desc.Keys && b < BUCKETS
    requires t in calls && HoldsDesc(calls[t], d)
    ensures Placed(desc', calls - {t}, Adopted(g, b, d, slots))
  {
    var g' := Adopted(g, b, d, slots);
    assert d in g.place && g.place[d] == InFlight(t);
    assert d in g.place.Keys && g'.place.Keys == g.place.Keys;
    ChainsAdopt(g, b, d, t, slots);
    CallsDrop(calls, g, g', d, t);
  }

  lemma {:induction false} BucketsAdopt(desc: map<nat, Desc>, pages: map<nat, Use>, g: Ledger, b: nat, d: nat, t: nat,
                                        f: Desc, slots: seq<nat>)
    requires BucketPages(desc, pages, g) && b < |g.lists| && d in desc && d !in g.objs
    requires f.page in pages && pages[f.page] == Held(t)
    ensures BucketPages(desc[d := f], pages[f.page := Bucket(d)], Adopted(g, b, d, slots))
  {
  }

  lemma {:induction false} DescsAdopt(desc: map<nat, Desc>, pages: map<nat, Use>, d: nat, t: nat, f: Desc)
    requires DescPages(desc, pages) && d in desc && f.page in pages && pages[f.page] == Held(t)
    ensures DescPages(desc[d := f], pages[f.page := Bucket(d)])
  {
    hide PageOf;
  }

  lemma {:induction false} OwnedAdopt(desc: map<nat, Desc>, calls: map<nat, Phase>, pages: map<nat, Use>, g: Ledger,
                                      b: nat, d: nat, t: nat, f: Desc, slots: seq<nat>)
    requires Owned(desc, calls, pages, g) && b < |g.lists| && d in desc && d !in g.objs
    requires t in calls && HoldsPage(calls[t], f.page)
    ensures Owned(desc[d := f], calls - {t}, pages[f.page := Bucket(d)], Adopted(g, b, d, slots))
  {
    hide DescPages, BucketPages, HeldPages, HoldsPage, PageOf;
    HeldMoves(calls, calls - {t}, pages, t, f.page, Bucket(d));
    DescsAdopt(desc, pages, d, t, f);
    BucketsAdopt(desc, pages, g, b, d, t, f, slots);
  }

  lemma {:induction false} FilledAdopt(mem: map<nat, nat>, mem': map<nat, nat>, desc: map<nat, Desc>,
                                       calls: map<nat, Phase>, pages: map<nat, Use>, live: map<nat, nat>, g: Ledger,
                                       b: nat, d: nat, t: nat, f: Desc)
    requires Filled(mem, desc, live, g) && Owned(desc, calls, pages, g) && Lively(pages, live, g)
    requires b < BUCKETS && b < |g.lists| && d !in g.objs && t in calls && HoldsPage(calls[t], f.page)
    requires f == Desc(f.page, f.next, f.page, 0, DIR[b])
    requires OnlyIn(f.page, mem, mem', live, live) && FreeList(mem', f.page, SlotsOf(f.page, b))
    ensures Filled(mem', desc[d := f], live, Adopted(g, b, d, SlotsOf(f.page, b)))
  {
    var g' := Adopted(g, b, d, SlotsOf(f.page, b));
    HeldPage(desc, calls, pages, g, t, f.page);
    NothingLive(pages, live, g, f.page, b);
    NewBucket(mem', f, b, live);
    hide BucketOk, OnlyIn, Owned, Lively, SlotsOf, FreeList;
    forall e | e in g'.objs && e != d
      ensures e in desc && desc[e].page != f.page && desc[e].page % PAGE_SIZE == 0
    {
      PageAligned(desc, calls, pages, g, e);
      PageOwner(desc, calls, pages, g, e);
    }
    FilledLocal(mem, mem', desc, desc[d := f], live, live, g, g', d, f.page);
  }

  lemma {:induction false} NewBucket(mem: map<nat, nat>, f: Desc, b: nat, live: map<nat, nat>)
    requires b < BUCKETS && f.refcnt == 0 && f.size == DIR[b] && f.freeptr == f.page
    requires FreeList(mem, f.page, SlotsOf(f.page, b)) && forall a :: a in SlotsOf(f.page, b) ==> a !in live
    ensures BucketOk(mem, f, b, SlotsOf(f.page, b), live)
  {
    hide FreeList;
  }

  lemma {:induction false} HeldPage(desc: map<nat, Desc>, calls: map<nat, Phase>, pages: map<nat, Use>, g: Ledger,
                                    t: nat, p: nat)
    requires Owned(desc, calls, pages, g) && t in calls && HoldsPage(calls[t], p)
    ensures p in pages && pages[p] == Held(t) && p != 0 && p % PAGE_SIZE == 0
  {
  }

  lemma {:induction false} PageOwner(desc: map<nat, Desc>, calls: map<nat, Phase>, pages: map<nat, Use>, g: Ledger,
                                     d: nat)
    requires Owned(desc, calls, pages, g) && d in g.objs
    ensures d in desc && desc[d].page in pages && pages[desc[d].page] == Bucket(d)
  {
  }

  lemma {:induction false} NothingLive(pages: map<nat, Use>, live: map<nat, nat>, g: Ledger, p: nat, b: nat)
    requires Lively(pages, live, g) && p in pages && !pages[p].Bucket? && p % PAGE_SIZE == 0 && b < BUCKETS
    ensures forall a :: a in SlotsOf(p, b) ==> a !in live
  {
    SlotPage(p, b);
    hide SlotsOf;
  }

  lemma {:induction false} LivelyAdopt(pages: map<nat, Use>, live: map<nat, nat>, g: Ledger, b: nat, d: nat, t: nat,
                                       p: nat, slots: seq<nat>)
    requires Lively(pages, live, g) && InUse(g) && b < |g.lists| && d !in g.objs
    requires p in pages && pages[p] == Held(t)
    ensures Lively(pages[p := Bucket(d)], live, Adopted(g, b, d, slots))
  {
    hide SlotsOf;
  }

  // ---- a caller writes to its object -------------------------------------------------------

  lemma {:induction false} FilledWrite(mem: map<nat, nat>, desc: map<nat, Desc>, calls: map<nat, Phase>,
                                       pages: map<nat, Use>, live: map<nat, nat>, g: Ledger, o: nat, a: nat, v: nat)
    requires Filled(mem, desc, live, g) && Owned(desc, calls, pages, g) && Lively(pages, live, g)
    requires o in live && o <= a < o + live[o]
    ensures Filled(mem[a := v], desc, live, g)
  {
    assert LiveOk(pages, g, o, live[o]);
    var p := PageOf(o);
    var d := pages[p].d;
    var f, b := desc[d], g.place[d].b;
    SlotPage(p, b);
    InPage(p, a);
    BucketWrite(mem, f, b, g.objs[d], live, o, a, v);
    hide BucketOk, SlotsOf, Owned, Lively, LiveOk;
    forall e | e in g.objs && e != d
      ensures desc[e].page != p && desc[e].page % PAGE_SIZE == 0
    {
      PagesApart(desc, calls, pages, g, d, e);
      PageAligned(desc, calls, pages, g, e);
    }
    FilledLocal(mem, mem[a := v], desc, desc, live, live, g, g, d, p);
  }

  lemma {:induction false} BucketWrite(mem: map<nat, nat>, f: Desc, b: nat, free: seq<nat>, live: map<nat, nat>, o: nat,
                                       a: nat, v: nat)
    requires b < BUCKETS && BucketOk(mem, f, b, free, live) && f.page % PAGE_SIZE == 0
    requires o in live && o in SlotsOf(f.page, b) && o <= a < o + DIR[b]
    ensures BucketOk(mem[a := v], f, b, free, live)
  {
    SlotPage(f.page, b);
    hide SlotsOf, BucketOk;
    BucketElsewhere(mem, mem[a := v], f, b, free, live, live);
  }
}
