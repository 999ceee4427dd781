/** Each interrupts-off section of lib/malloc.c, as a change of the whole state that keeps the
    allocator's invariant.
 */
module MallocKeeps {

  import opened BucketLists
  import opened Lists
  import opened MallocState
  import opened MallocSteps
  import opened MallocPages

  // ---- __get_free_page is called, fails, or returns ----------------------------------------

  /** Line 215: a call finds no free descriptor and goes for a page of them. */
  lemma {:induction false} WaitKeeps(mem: map<nat, nat>, desc: map<nat, Desc>, chain: seq<nat>, head: nat,
                                     calls: map<nat, Phase>, pages: map<nat, Use>, live: map<nat, nat>, g: Ledger,
                                     t: nat, len: nat, b: nat)
    requires Whole(mem, desc, chain, head, calls, pages, live, g, 0) && t !in calls && Fits(len, b)
    ensures Whole(mem, desc, chain, head, calls[t := NeedDescs(len, b)], pages, live, g, 0)
  {
    hide Listed, Placed, Owned, Filled, Busy, Lively, Fits;
    PlacedPhase(desc, calls, g, t, NeedDescs(len, b));
    OwnedPhase(desc, calls, pages, g, g, t, NeedDescs(len, b));
  }

  /** Line 217: no page for descriptors. */
  lemma {:induction false} LeaveKeeps(mem: map<nat, nat>, desc: map<nat, Desc>, chain: seq<nat>, head: nat,
                                      calls: map<nat, Phase>, pages: map<nat, Use>, live: map<nat, nat>, g: Ledger,
                                      t: nat)
    requires Whole(mem, desc, chain, head, calls, pages, live, g, 0) && t in calls && calls[t].NeedDescs?
    ensures Whole(mem, desc, chain, head, calls - {t}, pages, live, g, 0)
  {
    hide Listed, Owned, Filled, Busy, Lively, Fits;
    PlacedLeave(desc, calls, g, t);
    OwnedLeave(desc, calls, pages, g, g, t);
  }

  lemma {:induction false} PlacedLeave(desc: map<nat, Desc>, calls: map<nat, Phase>, g: Ledger, t: nat)
    requires Placed(desc, calls, g) && t in calls && calls[t].NeedDescs?
    ensures Placed(desc, calls - {t}, g)
  {
    hide OnChains, OnSpare, InUse, Fits;
  }

  /** The phase after a page has arrived. */
  function Arrived(ph: Phase, p: nat): Phase
    requires ph.NeedDescs? || ph.NeedPage?
  {
    if ph.NeedDescs? then HasDescs(ph.len, ph.b, p) else HasPage(ph.len, ph.b, ph.d, p)
  }

  lemma {:induction false} ArriveKeeps(mem: map<nat, nat>, desc: map<nat, Desc>, chain: seq<nat>, head: nat,
                                       calls: map<nat, Phase>, pages: map<nat, Use>, live: map<nat, nat>, g: Ledger,
                                       t: nat, p: nat)
    requires Whole(mem, desc, chain, head, calls, pages, live, g, 0)
    requires t in calls && (calls[t].NeedDescs? || calls[t].NeedPage?)
    requires p !in pages && p != 0 && p % PAGE_SIZE == 0
    ensures Whole(mem, desc, chain, head, calls[t := Arrived(calls[t], p)], pages[p := Held(t)], live, g, 0)
  {
    var ph := Arrived(calls[t], p);
    PhaseFits(desc, calls, g, t);
    hide Listed, Placed, Owned, Filled, Busy, Lively, Fits;
    PlacedPhase(desc, calls, g, t, ph);
    OwnedArrive(desc, calls, pages, g, t, ph, p);
    LivelyMore(pages, pages[p := Held(t)], live, g);
  }

  lemma {:induction false} PhaseFits(desc: map<nat, Desc>, calls: map<nat, Phase>, g: Ledger, t: nat)
    requires Placed(desc, calls, g) && t in calls
    ensures Fits(calls[t].len, calls[t].b)
  {
  }

  // ---- descriptors -------------------------------------------------------------------------

  /** Lines 221-223. */
  lemma {:induction false} PopKeeps(mem: map<nat, nat>, desc: map<nat, Desc>, chain: seq<nat>, head: nat,
                                    calls: map<nat, Phase>, pages: map<nat, Use>, live: map<nat, nat>, g: Ledger,
                                    t: nat, len: nat, b: nat)
    requires Whole(mem, desc, chain, head, calls, pages, live, g, 0) && head != 0 && Fits(len, b)
    requires t in calls ==> calls[t].NeedDescs?
    ensures |g.spare| > 0 && head in desc
    ensures Whole(mem, desc, chain, desc[head].next, calls[t := NeedPage(len, b, head)], pages, live, Popped(g, t), 0)
  {
    SpareDistinct(desc, chain, head, g);
    ListedPop(desc, chain, head, g, t);
    PopPlaces(desc, calls, g, t);
    hide Listed, Placed, Owned, Filled, Busy, Lively, Fits, Distinct;
    PlacedPop(desc, calls, g, t, NeedPage(len, b, head));
    OwnedPhase(desc, calls, pages, g, Popped(g, t), t, NeedPage(len, b, head));
    FilledMore(mem, desc, desc, live, g, Popped(g, t));
    LivelyMove(pages, live, g, Popped(g, t));
    BusySame(desc, desc, g, Popped(g, t));
  }

  lemma {:induction false} SpareDistinct(desc: map<nat, Desc>, chain: seq<nat>, head: nat, g: Ledger)
    requires Listed(desc, chain, head, g)
    ensures Distinct(g.spare) && (head != 0 ==> |g.spare| > 0 && g.spare[0] == head)
  {
  }

  lemma {:induction false} PopPlaces(desc: map<nat, Desc>, calls: map<nat, Phase>, g: Ledger, t: nat)
    requires Placed(desc, calls, g) && |g.spare| > 0
    ensures forall d :: d in g.place && g.place[d].OnChain? ==>
      d in Popped(g, t).place && Popped(g, t).place[d] == g.place[d]
    ensures forall d :: d in g.objs ==> d in Popped(g, t).place && Popped(g, t).place[d] == g.place[d]
  {
    assert g.spare[0] in g.spare;
    hide OnChains, WithCalls;
  }

  lemma {:induction false} BusySame(desc: map<nat, Desc>, desc': map<nat, Desc>, g: Ledger, g': Ledger)
    requires Busy(desc, g, 0) && g'.objs == g.objs
    requires forall d :: d in g.objs && d in desc ==> d in desc' && desc'[d].refcnt == desc[d].refcnt
    ensures Busy(desc', g', 0)
  {
  }

  /** Lines 229-232: no page, so the descriptor goes back. */
  lemma {:induction false} PushKeeps(mem: map<nat, nat>, desc: map<nat, Desc>, chain: seq<nat>, head: nat,
                                     calls: map<nat, Phase>, pages: map<nat, Use>, live: map<nat, nat>, g: Ledger,
                                     t: nat, d: nat)
    requires Whole(mem, desc, chain, head, calls, pages, live, g, 0) && t in calls && calls[t].NeedPage?
    requires calls[t].d == d
    ensures d in desc
    ensures Whole(mem, desc[d := desc[d].(next := head)], chain, d, calls - {t}, pages, live, Pushed(g, d), 0)
  {
    hide Listed, Placed, Owned, Filled, Busy, Lively, Fits;
    FlightPlace(desc, calls, pages, g, t, d);
    ListedPush(desc, chain, head, calls, g, d, t);
    ObjsPlaced(desc, calls, g);
    var desc' := desc[d := desc[d].(next := head)];
    PlacedPush(desc, desc', calls, g, d, t);
    OwnedLeave(desc, calls, pages, g, Pushed(g, d), t);
    OwnedFrame(desc, desc', calls - {t}, pages, Pushed(g, d), Pushed(g, d));
    FilledMore(mem, desc, desc', live, g, Pushed(g, d));
    LivelyMove(pages, live, g, Pushed(g, d));
    BusySame(desc, desc', g, Pushed(g, d));
  }

  lemma {:induction false} ObjsPlaced(desc: map<nat, Desc>, calls: map<nat, Phase>, g: Ledger)
    requires Placed(desc, calls, g)
    ensures forall d :: d in g.objs ==> d in g.place
  {
    hide OnChains, OnSpare, WithCalls;
  }

  /** A descriptor in flight is on no chain and has no page. */
  lemma {:induction false} FlightPlace(desc: map<nat, Desc>, calls: map<nat, Phase>, pages: map<nat, Use>, g: Ledger,
                                       t: nat, d: nat)
    requires Placed(desc, calls, g) && Owned(desc, calls, pages, g) && t in calls && HoldsDesc(calls[t], d)
    ensures d in desc && d != 0 && d in g.place && g.place[d] == InFlight(t) && d !in g.objs
  {
    assert d in g.place && g.place[d] == InFlight(t);
    assert d in g.place.Keys;
    hide OnChains, OnSpare, PageOf;
  }

  /** Lines 149-158: a page of descriptors goes on the free list. */
  lemma {:induction false} SpliceKeeps(mem: map<nat, nat>, desc: map<nat, Desc>, desc': map<nat, Desc>,
                                       chain: seq<nat>, head: nat, calls: map<nat, Phase>, pages: map<nat, Use>,
                                       live: map<nat, nat>, g: Ledger, t: nat, len: nat, b: nat, p: nat,
                                       news: seq<nat>, top: nat)
    requires Whole(mem, desc, chain, head, calls, pages, live, g, 0)
    requires t in calls && calls[t] == HasDescs(len, b, p)
    requires desc'.Keys == desc.Keys + Elems(news)
    requires forall d :: d in desc ==> d !in news && d in desc' && desc'[d] == desc[d]
    requires forall d :: d in news ==> d != 0 && PageOf(d) == p
    requires Chain(desc', top, news + g.spare)
    ensures Whole(mem, desc', chain, top, calls[t := NeedDescs(len, b)], pages[p := Descs], live, Spliced(g, news), 0)
  {
    var ph, g' := NeedDescs(len, b), Spliced(g, news);
    PhaseFits(desc, calls, g, t);
    SplicePlaces(desc, calls, g, news);
    HeldPage(desc, calls, pages, g, t, p);
    ListedSplice(desc, desc', chain, head, calls, g, news, top);
    PlacedSplice(desc, desc', calls, g, news);
    hide Listed, Placed, Owned, Filled, Busy, Lively, Fits, Chain, PageOf, Elems, Spliced;
    PlacedPhase(desc', calls, g', t, ph);
    OwnedSplice(desc, desc', calls, pages, g, g', news, t, p, ph);
    FilledMore(mem, desc, desc', live, g, g');
    LivelyMove(pages, live, g, g');
    LivelyMore(pages, pages[p := Descs], live, g');
    BusySame(desc, desc', g, g');
  }

  lemma {:induction false} SplicePlaces(desc: map<nat, Desc>, calls: map<nat, Phase>, g: Ledger, news: seq<nat>)
    requires Placed(desc, calls, g) && forall d :: d in desc ==> d !in news
    ensures Spliced(g, news).objs == g.objs
    ensures forall d :: d in g.place && g.place[d].OnChain? ==>
      d in Spliced(g, news).place && Spliced(g, news).place[d] == g.place[d]
    ensures forall d :: d in g.objs ==> d in Spliced(g, news).place && Spliced(g, news).place[d] == g.place[d]
  {
    assert forall d :: d in g.place <==> d in g.place.Keys;
    hide OnChains, OnSpare, WithCalls;
  }

  /** The page in a call's hands holds no descriptor yet. */
  lemma {:induction false} NewDescs(mem: map<nat, nat>, desc: map<nat, Desc>, chain: seq<nat>, head: nat,
                                    calls: map<nat, Phase>, pages: map<nat, Use>, live: map<nat, nat>, g: Ledger,
                                    t: nat)
    requires Whole(mem, desc, chain, head, calls, pages, live, g, 0) && t in calls && calls[t].HasDescs?
    ensures calls[t].page != 0 && calls[t].page % PAGE_SIZE == 0 && Fits(calls[t].len, calls[t].b)
    ensures var s := SlotsOf(calls[t].page, 0);
      && |s| == DESCS && s[0] == calls[t].page && Distinct(s)
      && forall d :: d in s ==> d != 0 && PageOf(d) == calls[t].page && d !in desc
  {
    hide Listed, Placed, Filled, Busy, Lively, SlotsOf, Fits;
    SlotFollows(calls[t].page, 0, 0);
    var p := calls[t].page;
    PhaseFits(desc, calls, g, t);
    HeldPage(desc, calls, pages, g, t, p);
    SlotPage(p, 0);
    hide PageOf;
    forall d | d in SlotsOf(p, 0)
      ensures d !in desc
    {
      DescPage(desc, calls, pages, g, d);
    }
  }

  lemma {:induction false} DescPage(desc: map<nat, Desc>, calls: map<nat, Phase>, pages: map<nat, Use>, g: Ledger,
                                    d: nat)
    requires Owned(desc, calls, pages, g)
    ensures d in desc ==> PageOf(d) in pages && pages[PageOf(d)] == Descs
  {
    hide PageOf;
  }

  /** The new descriptors in front of the free list. */
  lemma {:induction false} SpareLinked(mem: map<nat, nat>, desc: map<nat, Desc>, desc': map<nat, Desc>,
                                       chain: seq<nat>, head: nat, calls: map<nat, Phase>, pages: map<nat, Use>,
                                       live: map<nat, nat>, g: Ledger, news: seq<nat>)
    requires Whole(mem, desc, chain, head, calls, pages, live, g, 0)
    requires |news| > 0 && Distinct(news) && forall d :: d in news ==> d != 0 && d !in desc
    requires forall d :: d in desc ==> d in desc' && desc'[d] == desc[d]
    requires LeadsTo(desc', news, head)
    ensures Chain(desc', news[0], news + g.spare)
  {
    hide Placed, Owned, Filled, Busy, Lively, Distinct;
    hide Chain;
    ChainKept(desc, desc', head, g.spare);
    ChainMembers(desc, head, g.spare);
    SpliceChain(desc', head, g.spare, news);
  }

  // ---- bucket pages ------------------------------------------------------------------------

  /** Lines 236-267: the new page goes on its chain, with every object free. */
  lemma {:induction false} AdoptKeeps(mem: map<nat, nat>, mem': map<nat, nat>, desc: map<nat, Desc>, chain: seq<nat>,
                                      head: nat, calls: map<nat, Phase>, pages: map<nat, Use>, live: map<nat, nat>,
                                      g: Ledger, t: nat, len: nat, b: nat, d: nat, p: nat)
    requires Whole(mem, desc, chain, head, calls, pages, live, g, 0)
    requires t in calls && calls[t] == HasPage(len, b, d, p) && b < BUCKETS
    requires OnlyIn(p, mem, mem', live, live) && FreeList(mem', p, SlotsOf(p, b))
    ensures |chain| == BUCKETS && |g.lists| == BUCKETS && d in desc
    ensures Whole(mem', desc[d := Desc(p, chain[b], p, 0, DIR[b])], chain[b := d], head, calls - {t},
                  pages[p := Bucket(d)], live, Adopted(g, b, d, SlotsOf(p, b)), d)
  {
    var f, slots := Desc(p, chain[b], p, 0, DIR[b]), SlotsOf(p, b);
    FlightPlace(desc, calls, pages, g, t, d);
    ListedAdopt(desc, chain, head, calls, g, d, t, b, f, slots);
    PlacedAdopt(desc, desc[d := f], calls, g, b, d, t, slots);
    HeldPage(desc, calls, pages, g, t, p);
    LivelyAdopt(pages, live, g, b, d, t, p, slots);
    NoNull(desc, calls, pages, g);
    BusyAdopt(desc, g, b, d, f, slots);
    OwnedAdopt(desc, calls, pages, g, b, d, t, f, slots);
    hide Listed, Placed, Owned, Filled, Busy, Lively, Fits, SlotsOf;
    FilledAdopt(mem, mem', desc, calls, pages, live, g, b, d, t, f);
  }

  lemma {:induction false} HeldFacts(mem: map<nat, nat>, desc: map<nat, Desc>, chain: seq<nat>, head: nat,
                                     calls: map<nat, Phase>, pages: map<nat, Use>, live: map<nat, nat>, g: Ledger,
                                     t: nat)
    requires Whole(mem, desc, chain, head, calls, pages, live, g, 0) && t in calls && calls[t].HasPage?
    ensures calls[t].page != 0 && calls[t].page % PAGE_SIZE == 0
    ensures calls[t].b < BUCKETS && calls[t].len <= DIR[calls[t].b]
  {
    hide Listed, Placed, Owned, Filled, Busy, Lively;
    PhaseFits(desc, calls, g, t);
    HeldPage(desc, calls, pages, g, t, calls[t].page);
  }

  lemma {:induction false} BusyAdopt(desc: map<nat, Desc>, g: Ledger, b: nat, d: nat, f: Desc, slots: seq<nat>)
    requires Busy(desc, g, 0) && b < |g.lists| && 0 !in g.objs
    ensures Busy(desc[d := f], Adopted(g, b, d, slots), d)
  {
  }

  lemma {:induction false} NoNull(desc: map<nat, Desc>, calls: map<nat, Phase>, pages: map<nat, Use>, g: Ledger)
    requires Owned(desc, calls, pages, g)
    ensures 0 !in g.objs
  {
  }

  /** What finding `d` on chain `b` tells. */
  lemma {:induction false} OnChainFacts(mem: map<nat, nat>, desc: map<nat, Desc>, chain: seq<nat>, head: nat,
                                        calls: map<nat, Phase>, pages: map<nat, Use>, live: map<nat, nat>, g: Ledger,
                                        b: nat, d: nat)
    requires Whole(mem, desc, chain, head, calls, pages, live, g, 0) && b < BUCKETS && |g.lists| == BUCKETS
    requires d in g.lists[b]
    ensures d in g.objs && d in g.place && g.place[d] == OnChain(b)
    ensures Whole(mem, desc, chain, head, calls, pages, live, g, d)
  {
    hide Listed, Placed, Owned, Filled, Lively;
    NoNull(desc, calls, pages, g);
    var i :| 0 <= i < |g.lists[b]| && g.lists[b][i] == d;
    OnList(desc, calls, g, b, i);
  }

  /** What owning object `o` tells a call of kfree_s. */
  lemma {:induction false} LiveDesc(mem: map<nat, nat>, desc: map<nat, Desc>, chain: seq<nat>, head: nat,
                                    calls: map<nat, Phase>, pages: map<nat, Use>, live: map<nat, nat>, g: Ledger,
                                    o: nat)
    requires Whole(mem, desc, chain, head, calls, pages, live, g, 0) && o in live
    ensures PageOf(o) in pages && pages[PageOf(o)].Bucket?
    ensures var d := pages[PageOf(o)].d;
      && d in g.objs && d in desc && desc[d].page == PageOf(o) && d != 0
      && d in g.place && g.place[d].OnChain? && g.place[d].b < BUCKETS
      && o in SlotsOf(PageOf(o), g.place[d].b) && live[o] <= DIR[g.place[d].b]
  {
    hide Listed, Filled, Busy, SlotsOf;
    assert LiveOk(pages, g, o, live[o]);
  }

  /** Lines 475-479. */
  lemma {:induction false} GiveKeeps(mem: map<nat, nat>, desc: map<nat, Desc>, chain: seq<nat>, head: nat,
                                     calls: map<nat, Phase>, pages: map<nat, Use>, live: map<nat, nat>, g: Ledger,
                                     o: nat, d: nat)
    requires Whole(mem, desc, chain, head, calls, pages, live, g, 0) && o in live
    requires PageOf(o) in pages && pages[PageOf(o)] == Bucket(d)
    ensures d in g.objs && d in desc && desc[d].refcnt > 0
    ensures Whole(mem[o := desc[d].freeptr], desc[d := Given(desc[d], o)], chain, head, calls, pages, live - {o},
      GivenTo(g, d, o), d)
  {
    hide Listed, Placed, Owned, Filled, Busy, Lively, SlotsOf, Given, GivenTo;
    LiveDesc(mem, desc, chain, head, calls, pages, live, g, o);
    FilledGive(mem, desc, calls, pages, live, g, d, o);
    LivelyGive(pages, live, g, d, o);
    NoNull(desc, calls, pages, g);
    GiveSame(desc, g, d, o);
    var desc', g' := desc[d := Given(desc[d], o)], GivenTo(g, d, o);
    ListedFrame(desc, desc', chain, head, g, g');
    PlacedFrame(desc, desc', calls, g, g');
    OwnedFrame(desc, desc', calls, pages, g, g');
  }

  lemma {:induction false} GiveSame(desc: map<nat, Desc>, g: Ledger, d: nat, o: nat)
    requires Busy(desc, g, 0) && 0 !in g.objs && d in g.objs && d in desc && desc[d].refcnt > 0
    ensures Busy(desc[d := Given(desc[d], o)], GivenTo(g, d, o), d)
    ensures desc[d := Given(desc[d], o)].Keys == desc.Keys && GivenTo(g, d, o).objs.Keys == g.objs.Keys
    ensures Given(desc[d], o).next == desc[d].next && Given(desc[d], o).page == desc[d].page
    ensures GivenTo(g, d, o) == g.(objs := GivenTo(g, d, o).objs)
  {
  }

  /** The count of a page reaches zero with the last of its objects. */
  lemma {:induction false} FilledAt(mem: map<nat, nat>, desc: map<nat, Desc>, live: map<nat, nat>, g: Ledger, d: nat)
    requires Filled(mem, desc, live, g) && d in g.objs
    ensures d in desc && d in g.place && g.place[d].OnChain? && g.place[d].b < BUCKETS
    ensures BucketOk(mem, desc[d], g.place[d].b, g.objs[d], live)
  {
    hide BucketOk;
  }

  lemma {:induction false} LiveSlots(pages: map<nat, Use>, live: map<nat, nat>, g: Ledger, p: nat, d: nat, b: nat)
    requires Lively(pages, live, g) && p in pages && pages[p] == Bucket(d) && d in g.place && g.place[d] == OnChain(b)
    requires b < BUCKETS
    ensures forall o :: o in live && PageOf(o) == p ==> o in SlotsOf(p, b)
  {
    hide SlotsOf, PageOf;
  }

  lemma {:induction false} BusyToo(desc: map<nat, Desc>, g: Ledger, d: nat)
    requires Busy(desc, g, d) && d in desc
    ensures desc[d].refcnt > 0 ==> Busy(desc, g, 0)
  {
  }

  lemma {:induction false} IdlePage(mem: map<nat, nat>, desc: map<nat, Desc>, chain: seq<nat>, head: nat,
                                    calls: map<nat, Phase>, pages: map<nat, Use>, live: map<nat, nat>, g: Ledger,
                                    d: nat)
    requires Whole(mem, desc, chain, head, calls, pages, live, g, d) && d in g.objs && d in desc
    ensures desc[d].refcnt == 0 <==> forall o :: o in live ==> PageOf(o) != desc[d].page
    ensures desc[d].refcnt > 0 ==> Whole(mem, desc, chain, head, calls, pages, live, g, 0)
  {
    hide Listed, Filled, Owned, Placed, BucketOk, SlotsOf, Lively, Busy, PageOf;
    PageAligned(desc, calls, pages, g, d);
    PageOwner(desc, calls, pages, g, d);
    FilledAt(mem, desc, live, g, d);
    var f, b := desc[d], g.place[d].b;
    BucketIdle(mem, f, b, g.objs[d], live);
    SlotPage(f.page, b);
    LiveSlots(pages, live, g, f.page, d, b);
    BusyToo(desc, g, d);
  }

  /** Lines 480-500: an idle page is unlinked and given back, its descriptor freed. */
  lemma {:induction false} RetireKeeps(mem: map<nat, nat>, desc: map<nat, Desc>, chain: seq<nat>, head: nat,
                                       calls: map<nat, Phase>, pages: map<nat, Use>, live: map<nat, nat>, g: Ledger,
                                       d: nat, b: nat, i: nat)
    requires Whole(mem, desc, chain, head, calls, pages, live, g, d)
    requires b < BUCKETS && |g.lists| == BUCKETS && i < |g.lists[b]| && g.lists[b][i] == d
    requires d in desc && forall o :: o in live ==> PageOf(o) != desc[d].page
    ensures |chain| == BUCKETS && (i > 0 ==> g.lists[b][i - 1] in desc)
    ensures Whole(mem, Bypassed(desc, g.lists[b], i)[d := desc[d].(next := head)],
                  if i == 0 then chain[b := desc[d].next] else chain, d, calls,
                  pages - {desc[d].page}, live, Retired(g, b, i), 0)
  {
    hide Listed, Placed, Owned, Filled, Busy, Lively, Retired, Bypassed;
    OnList(desc, calls, g, b, i);
    PageAligned(desc, calls, pages, g, d);
    PageOwner(desc, calls, pages, g, d);
    OneBucket(desc, calls, pages, g, d);
    ListedRetire(desc, chain, head, calls, g, b, i);
    LivelyRetire(desc, pages, live, g, b, i, desc[d].page);
    ListDistinct(desc, chain, head, g, b);
    var desc' := Bypassed(desc, g.lists[b], i)[d := desc[d].(next := head)];
    BypassedSame(desc, g.lists[b], i, desc[d].(next := head));
    BusyRetire(desc, desc', g, b, i);
    PlacedRetire(desc, desc', calls, g, b, i);
    OwnedRetire(desc, desc', calls, pages, g, b, i);
    FilledRetire(mem, desc, desc', calls, pages, live, g, b, i);
  }

  lemma {:induction false} BusyRetire(desc: map<nat, Desc>, desc': map<nat, Desc>, g: Ledger, b: nat, i: nat)
    requires b < |g.lists| && i < |g.lists[b]| && Busy(desc, g, g.lists[b][i])
    requires forall e :: e in desc ==> e in desc' && desc'[e].refcnt == desc[e].refcnt
    ensures Busy(desc', Retired(g, b, i), 0)
  {
    hide Without;
  }

  lemma {:induction false} BypassedSame(desc: map<nat, Desc>, s: seq<nat>, i: nat, f: Desc)
    requires i < |s| && s[i] in desc && (i > 0 ==> s[i - 1] in desc) && f == desc[s[i]].(next := f.next)
    ensures Bypassed(desc, s, i)[s[i] := f].Keys == desc.Keys
    ensures forall e :: e in desc ==>
      e in Bypassed(desc, s, i)[s[i] := f] && Bypassed(desc, s, i)[s[i] := f][e]
        == desc[e].(next := Bypassed(desc, s, i)[s[i] := f][e].next)
  {
  }

  lemma {:induction false} OnList(desc: map<nat, Desc>, calls: map<nat, Phase>, g: Ledger, b: nat, i: nat)
    requires Placed(desc, calls, g) && b < BUCKETS && |g.lists| == BUCKETS && i < |g.lists[b]|
    ensures g.lists[b][i] in g.objs && g.lists[b][i] in g.place && g.place[g.lists[b][i]] == OnChain(b)
  {
    assert g.lists[b][i] in g.lists[b];
    hide WithCalls, OnSpare;
  }

  lemma {:induction false} OneBucket(desc: map<nat, Desc>, calls: map<nat, Phase>, pages: map<nat, Use>, g: Ledger,
                                     d: nat)
    requires Owned(desc, calls, pages, g) && d in g.objs
    ensures d in desc && forall q :: q in pages && pages[q] == Bucket(d) ==> q == desc[d].page
  {
  }

  lemma {:induction false} ListDistinct(desc: map<nat, Desc>, chain: seq<nat>, head: nat, g: Ledger, b: nat)
    requires Listed(desc, chain, head, g) && b < BUCKETS
    ensures |chain| == BUCKETS && Distinct(g.lists[b]) && chain[b] == Head(g.lists[b])
  {
  }

  /** Callers may write anything to what they hold. */
  lemma {:induction false} WriteKeeps(mem: map<nat, nat>, desc: map<nat, Desc>, chain: seq<nat>, head: nat,
                                      calls: map<nat, Phase>, pages: map<nat, Use>, live: map<nat, nat>, g: Ledger,
                                      o: nat, a: nat, v: nat)
    requires Whole(mem, desc, chain, head, calls, pages, live, g, 0)
    requires o in live && o <= a < o + live[o]
    ensures Whole(mem[a := v], desc, chain, head, calls, pages, live, g, 0)
  {
    FilledWrite(mem, desc, calls, pages, live, g, o, a, v);
  }

  // ---- what the search of kfree_s tells ----------------------------------------------------

  lemma {:induction false} ListCount(mem: map<nat, nat>, desc: map<nat, Desc>, chain: seq<nat>, head: nat,
                                     calls: map<nat, Phase>, pages: map<nat, Use>, live: map<nat, nat>, g: Ledger)
    requires Whole(mem, desc, chain, head, calls, pages, live, g, 0)
    ensures |g.lists| == BUCKETS
  {
    hide Placed, Owned, Filled, Busy, Lively;
  }

  lemma {:induction false} NoNullObject(mem: map<nat, nat>, desc: map<nat, Desc>, chain: seq<nat>, head: nat,
                                        calls: map<nat, Phase>, pages: map<nat, Use>, live: map<nat, nat>, g: Ledger)
    requires Whole(mem, desc, chain, head, calls, pages, live, g, 0)
    ensures 0 !in live
  {
    hide Listed, Placed, Filled, Busy, Lively, SlotsOf;
    forall o | o in live
      ensures o != 0
    {
      LiveDesc(mem, desc, chain, head, calls, pages, live, g, o);
    }
  }

  lemma {:induction false} SamePage(o: nat)
    ensures PageOf(o) == o - o % PAGE_SIZE
  {
  }

  /** `prev` and the chain head agree with the list. */
  lemma {:induction false} LinksHere(mem: map<nat, nat>, desc: map<nat, Desc>, chain: seq<nat>, head: nat,
                                     calls: map<nat, Phase>, pages: map<nat, Use>, live: map<nat, nat>, g: Ledger,
                                     d: nat, b: nat, i: nat)
    requires Whole(mem, desc, chain, head, calls, pages, live, g, d)
    requires b < BUCKETS && |g.lists| == BUCKETS && i < |g.lists[b]| && g.lists[b][i] == d
    ensures i > 0 ==>
      g.lists[b][i - 1] != 0 && g.lists[b][i - 1] != d && g.lists[b][i - 1] in desc && desc[g.lists[b][i - 1]].next == d
    ensures |chain| == BUCKETS && (i == 0 ==> chain[b] == d)
  {
    hide Placed, Owned, Filled, Busy, Lively;
    assert Chain(desc, chain[b], g.lists[b]);
  }

  /** The descriptor found is the object's own. */
  lemma {:induction false} Hit(mem: map<nat, nat>, desc: map<nat, Desc>, chain: seq<nat>, head: nat,
                               calls: map<nat, Phase>, pages: map<nat, Use>, live: map<nat, nat>, g: Ledger, o: nat,
                               b: nat, d: nat, i: nat)
    requires Whole(mem, desc, chain, head, calls, pages, live, g, 0)
    requires b < BUCKETS && |g.lists| == BUCKETS && i < |g.lists[b]| && g.lists[b][i] == d && d in desc
    requires desc[d].page == PageOf(o)
    requires o !in live ==> PageOf(o) in pages ==> !pages[PageOf(o)].Bucket?
    ensures o in live && PageOf(o) in pages && pages[PageOf(o)] == Bucket(d)
    ensures d in g.objs && d in g.place && g.place[d] == OnChain(b) && live[o] <= DIR[b]
  {
    hide Listed, Placed, Owned, Filled, Busy, Lively, PageOf, SlotsOf;
    OnList(desc, calls, g, b, i);
    PageOwner(desc, calls, pages, g, d);
    LiveDesc(mem, desc, chain, head, calls, pages, live, g, o);
  }

  /** An object is missed only when the size given is above its bucket's. */
  lemma {:induction false} Missed(mem: map<nat, nat>, desc: map<nat, Desc>, chain: seq<nat>, head: nat,
                                  calls: map<nat, Phase>, pages: map<nat, Use>, live: map<nat, nat>, g: Ledger,
                                  o: nat, size: nat)
    requires Whole(mem, desc, chain, head, calls, pages, live, g, 0) && |g.lists| == BUCKETS && o in live
    requires forall c, e :: 0 <= c < BUCKETS && size <= DIR[c] && e in g.lists[c] ==>
      e in desc && desc[e].page != PageOf(o)
    ensures PageOf(o) in pages && pages[PageOf(o)].Bucket? && pages[PageOf(o)].d in g.place
    ensures g.place[pages[PageOf(o)].d].OnChain?
    ensures g.place[pages[PageOf(o)].d].b < BUCKETS && live[o] <= DIR[g.place[pages[PageOf(o)].d].b] < size
  {
    LiveDesc(mem, desc, chain, head, calls, pages, live, g, o);
    var d := pages[PageOf(o)].d;
    hide Listed, Owned, Filled, Busy, Lively, PageOf, SlotsOf;
    assert d in g.lists[g.place[d].b];
  }

  // ---- what the invariant means for callers ------------------------------------------------

  /** Objects in use never overlap. */
  lemma {:induction false} LiveApart(mem: map<nat, nat>, desc: map<nat, Desc>, chain: seq<nat>, head: nat,
                                     calls: map<nat, Phase>, pages: map<nat, Use>, live: map<nat, nat>, g: Ledger)
    requires Whole(mem, desc, chain, head, calls, pages, live, g, 0)
    ensures forall o, q :: o in live && q in live && o < q ==> o + live[o] <= q
  {
    hide Whole, PageOf, SlotsOf;
    forall o, q | o in live && q in live && o < q
      ensures o + live[o] <= q
    {
      LiveDesc(mem, desc, chain, head, calls, pages, live, g, o);
      LiveDesc(mem, desc, chain, head, calls, pages, live, g, q);
      LivePages(mem, desc, chain, head, calls, pages, live, g, o);
      LivePages(mem, desc, chain, head, calls, pages, live, g, q);
      SlotsDisjoint(PageOf(o), g.place[pages[PageOf(o)].d].b, o, PageOf(q), g.place[pages[PageOf(q)].d].b, q);
    }
  }

  lemma {:induction false} LivePages(mem: map<nat, nat>, desc: map<nat, Desc>, chain: seq<nat>, head: nat,
                                     calls: map<nat, Phase>, pages: map<nat, Use>, live: map<nat, nat>, g: Ledger,
                                     o: nat)
    requires Whole(mem, desc, chain, head, calls, pages, live, g, 0) && o in live
    ensures PageOf(o) % PAGE_SIZE == 0 && PageOf(o) in pages
  {
    LiveDesc(mem, desc, chain, head, calls, pages, live, g, o);
    hide Listed, Placed, Filled, Busy, Lively, SlotsOf, PageOf;
  }

  lemma {:induction false} AlignedApart(p: nat, q: nat)
    requires p % PAGE_SIZE == 0 && q % PAGE_SIZE == 0
    ensures p < q ==> p + PAGE_SIZE <= q
    ensures q < p ==> q + PAGE_SIZE <= p
  {
  }

  lemma {:induction false} SlotInside(p: nat, b: nat, a: nat)
    requires b < BUCKETS && p % PAGE_SIZE == 0 && a in SlotsOf(p, b)
    ensures a % 16 == 0 && p <= a && a + DIR[b] <= p + PAGE_SIZE
  {
    SlotPage(p, b);
    Sixteen(p, b);
    SlotsAligned(p, DIR[b], PER_PAGE[b]);
    hide Slots, Distinct, PageOf;
  }

  lemma {:induction false} Sixteen(p: nat, b: nat)
    requires b < BUCKETS && p % PAGE_SIZE == 0
    ensures p % 16 == 0 && DIR[b] % 16 == 0
  {
    assert b == 0 || b == 1 || b == 2 || b == 3 || b == 4 || b == 5 || b == 6 || b == 7 || b == 8;
  }

  /** Different slots, of one page or of two, have no byte in common. */
  lemma {:induction false} SlotsDisjoint(p: nat, b: nat, a: nat, q: nat, c: nat, o: nat)
    requires b < BUCKETS && c < BUCKETS && p % PAGE_SIZE == 0 && q % PAGE_SIZE == 0 && (p == q ==> b == c)
    requires a in SlotsOf(p, b) && o in SlotsOf(q, c) && a != o
    ensures a + DIR[b] <= o || o + DIR[c] <= a
  {
    SlotPage(p, b);
    SlotPage(q, c);
    hide SlotsOf, PageOf;
    AlignedApart(p, q);
  }

  lemma {:induction false} FreeSlot(mem: map<nat, nat>, desc: map<nat, Desc>, live: map<nat, nat>, g: Ledger, d: nat,
                                    a: nat)
    requires Filled(mem, desc, live, g) && d in g.objs && a in g.objs[d]
    ensures d in desc && d in g.place && g.place[d].OnChain? && g.place[d].b < BUCKETS
    ensures a in SlotsOf(desc[d].page, g.place[d].b) && a !in live
    ensures desc[d].refcnt + |g.objs[d]| == PER_PAGE[g.place[d].b]
  {
    hide SlotsOf, FreeList;
  }

  /** The free objects of every page are linked through words no caller holds, on 16-byte
      boundaries inside the page, and with those held make up the page. */
  lemma {:induction false} FreeApart(mem: map<nat, nat>, desc: map<nat, Desc>, chain: seq<nat>, head: nat,
                                     calls: map<nat, Phase>, pages: map<nat, Use>, live: map<nat, nat>, g: Ledger,
                                     d: nat, a: nat)
    requires Whole(mem, desc, chain, head, calls, pages, live, g, 0) && d in g.objs && a in g.objs[d]
    ensures d in desc && d in g.place && g.place[d].OnChain? && g.place[d].b < BUCKETS
    ensures a % 16 == 0 && desc[d].page <= a && a + DIR[g.place[d].b] <= desc[d].page + PAGE_SIZE
    ensures desc[d].refcnt + |g.objs[d]| == PER_PAGE[g.place[d].b]
    ensures forall o :: o in live ==> !(o <= a < o + live[o])
  {
    FreeSlot(mem, desc, live, g, d, a);
    PageAligned(desc, calls, pages, g, d);
    PageOwner(desc, calls, pages, g, d);
    var b, p := g.place[d].b, desc[d].page;
    SlotInside(p, b, a);
    hide Whole, Listed, Placed, Owned, Filled, Busy, Lively, SlotsOf, PageOf, Slots;
    forall o | o in live
      ensures !(o <= a < o + live[o])
    {
      LiveDesc(mem, desc, chain, head, calls, pages, live, g, o);
      LivePages(mem, desc, chain, head, calls, pages, live, g, o);
      SlotsDisjoint(p, b, a, PageOf(o), g.place[pages[PageOf(o)].d].b, o);
    }
  }

  /** Page `p` is the one descriptor `d` describes, or will when the call that holds both puts it on its
      chain. */
  ghost predicate OwnsPage(desc: map<nat, Desc>, calls: map<nat, Phase>, g: Ledger, d: nat, p: nat) {
    || (d in g.objs && d in desc && desc[d].page == p)
    || exists t :: t in calls && calls[t].HasPage? && calls[t].d == d && calls[t].page == p
  }

  /** No page belongs to two descriptors, nor to one and to a call that holds another or none. */
  lemma {:induction false} PageOnce(desc: map<nat, Desc>, calls: map<nat, Phase>, pages: map<nat, Use>, g: Ledger,
                                    d: nat, e: nat, p: nat)
    requires Owned(desc, calls, pages, g) && d != e && OwnsPage(desc, calls, g, d, p)
    ensures !OwnsPage(desc, calls, g, e, p) && p in pages && pages[p] != Descs
    ensures forall t :: t in calls && calls[t].HasDescs? ==> calls[t].page != p
  {
    if d !in g.objs || d !in desc || desc[d].page != p {
      var t :| t in calls && calls[t].HasPage? && calls[t].d == d && calls[t].page == p;
      assert HoldsPage(calls[t], p);
    }
    forall t | t in calls && (calls[t].HasDescs? || calls[t].HasPage?) && calls[t].page == p
      ensures pages[p] == Held(t)
    {
      assert HoldsPage(calls[t], p);
    }
  }

  lemma {:induction false} PlaceIs(desc: map<nat, Desc>, calls: map<nat, Phase>, g: Ledger, d: nat)
    requires Placed(desc, calls, g) && d in desc
    ensures d in g.place && |g.lists| == BUCKETS && (g.place[d].OnChain? ==> g.place[d].b < BUCKETS)
    ensures forall b :: 0 <= b < BUCKETS ==> (d in g.lists[b] <==> g.place[d] == OnChain(b))
    ensures d in g.spare <==> g.place[d] == OnFree
    ensures forall t :: t in calls && HoldsDesc(calls[t], d) <==> g.place[d] == InFlight(t)
  {
    hide HoldsDesc, Fits;
    assert d in g.place.Keys;
  }

  lemma {:induction false} OnePlace(desc: map<nat, Desc>, calls: map<nat, Phase>, g: Ledger, d: nat)
    requires Placed(desc, calls, g) && d in desc
    ensures
      || (exists b :: 0 <= b < BUCKETS && b < |g.lists| && d in g.lists[b])
      || d in g.spare
      || exists t :: t in calls && HoldsDesc(calls[t], d)
    ensures forall b :: d in g.spare && 0 <= b < |g.lists| ==> d !in g.lists[b]
    ensures forall t :: d in g.spare && t in calls ==> !HoldsDesc(calls[t], d)
    ensures forall b, c :: 0 <= b < c < |g.lists| ==> !(d in g.lists[b] && d in g.lists[c])
    ensures forall t, u :: t in calls && u in calls && t != u ==> !(HoldsDesc(calls[t], d) && HoldsDesc(calls[u], d))
    ensures forall b, t :: 0 <= b < |g.lists| && t in calls ==> !(d in g.lists[b] && HoldsDesc(calls[t], d))
  {
    hide Placed, HoldsDesc;
    PlaceIs(desc, calls, g, d);
    match g.place[d]
    case OnChain(b) => assert d in g.lists[b];
    case OnFree =>
    case InFlight(t) => assert t in calls && HoldsDesc(calls[t], d);
  }

  /** No page belongs to two descriptors, and no descriptor is in two places. */
  lemma {:induction false} OneOwner(mem: map<nat, nat>, desc: map<nat, Desc>, chain: seq<nat>, head: nat,
                                    calls: map<nat, Phase>, pages: map<nat, Use>, live: map<nat, nat>, g: Ledger,
                                    d: nat, e: nat)
    requires Whole(mem, desc, chain, head, calls, pages, live, g, 0) && d in desc && e in desc && d != e
    ensures forall p :: OwnsPage(desc, calls, g, d, p) ==> !OwnsPage(desc, calls, g, e, p)
    ensures
      || (exists b :: 0 <= b < BUCKETS && b < |g.lists| && d in g.lists[b])
      || d in g.spare
      || exists t :: t in calls && HoldsDesc(calls[t], d)
    ensures forall b :: d in g.spare && 0 <= b < |g.lists| ==> d !in g.lists[b]
    ensures forall t :: d in g.spare && t in calls ==> !HoldsDesc(calls[t], d)
    ensures forall b, c :: 0 <= b < c < |g.lists| ==> !(d in g.lists[b] && d in g.lists[c])
    ensures forall t, u :: t in calls && u in calls && t != u ==> !(HoldsDesc(calls[t], d) && HoldsDesc(calls[u], d))
    ensures forall b, t :: 0 <= b < |g.lists| && t in calls ==> !(d in g.lists[b] && HoldsDesc(calls[t], d))
  {
    hide Listed, Filled, Busy, Lively, Placed, Owned, HoldsDesc, OwnsPage;
    forall p | OwnsPage(desc, calls, g, d, p)
      ensures !OwnsPage(desc, calls, g, e, p)
    {
      PageOnce(desc, calls, pages, g, d, e, p);
    }
    OnePlace(desc, calls, g, d);
  }

  /** When nobody holds an object or waits for one, every bucket page has gone back: only pages of
      descriptors are left. */
  lemma {:induction false} AtRest(mem: map<nat, nat>, desc: map<nat, Desc>, chain: seq<nat>, head: nat,
                                  calls: map<nat, Phase>, pages: map<nat, Use>, live: map<nat, nat>, g: Ledger)
    requires Whole(mem, desc, chain, head, calls, pages, live, g, 0)
    ensures live == map[] ==> g.objs.Keys == {} && forall b :: 0 <= b < |chain| ==> chain[b] == 0
    ensures live == map[] && calls == map[] ==> forall p :: p in pages ==> pages[p] == Descs
    ensures live == map[] && calls == map[] ==> Chain(desc, head, g.spare) && desc.Keys == Elems(g.spare)
  {
    hide Listed, Placed, Owned, Filled, Lively;
    if live == map[] {
      forall d | d in g.objs
        ensures false
      {
        NoNull(desc, calls, pages, g);
        NotIdle(mem, desc, calls, pages, live, g, d);
      }
      NoChains(desc, chain, head, calls, g);
      if calls == map[] {
        OnlyDescs(desc, calls, pages, g);
        AllSpare(desc, chain, head, calls, g);
      }
    }
  }

  lemma {:induction false} NotIdle(mem: map<nat, nat>, desc: map<nat, Desc>, calls: map<nat, Phase>,
                                   pages: map<nat, Use>, live: map<nat, nat>, g: Ledger, d: nat)
    requires Filled(mem, desc, live, g) && Owned(desc, calls, pages, g) && d in g.objs && live == map[]
    ensures d in desc && desc[d].refcnt == 0
  {
    PageAligned(desc, calls, pages, g, d);
    BucketIdle(mem, desc[d], g.place[d].b, g.objs[d], live);
    hide BucketOk, SlotsOf, Owned;
  }

  lemma {:induction false} NoChains(desc: map<nat, Desc>, chain: seq<nat>, head: nat, calls: map<nat, Phase>, g: Ledger)
    requires Listed(desc, chain, head, g) && Placed(desc, calls, g) && forall d :: d !in g.objs
    ensures forall b :: 0 <= b < |chain| ==> chain[b] == 0
  {
    hide Placed;
    forall b: nat | b < |chain|
      ensures chain[b] == 0
    {
      ListDistinct(desc, chain, head, g, b);
      if |g.lists[b]| > 0 {
        OnList(desc, calls, g, b, 0);
        assert false;
      }
    }
  }

  lemma {:induction false} Grounded(desc: map<nat, Desc>, calls: map<nat, Phase>, g: Ledger, d: nat)
    requires Placed(desc, calls, g) && calls == map[] && d in g.place && d !in g.objs
    ensures g.place[d] == OnFree
  {
    hide OnChains, OnSpare, HoldsDesc;
    assert forall t :: g.place[d] != InFlight(t);
  }

  lemma {:induction false} AllSpare(desc: map<nat, Desc>, chain: seq<nat>, head: nat, calls: map<nat, Phase>, g: Ledger)
    requires Listed(desc, chain, head, g) && Placed(desc, calls, g) && calls == map[] && forall d :: d !in g.objs
    ensures Chain(desc, head, g.spare) && desc.Keys == Elems(g.spare)
  {
    hide Placed, Distinct;
    forall d | d in desc
      ensures d in g.spare
    {
      PlaceIs(desc, calls, g, d);
      Grounded(desc, calls, g, d);
    }
  }

  lemma {:induction false} OnlyDescs(desc: map<nat, Desc>, calls: map<nat, Phase>, pages: map<nat, Use>, g: Ledger)
    requires Owned(desc, calls, pages, g) && calls == map[] && forall d :: d !in g.objs
    ensures forall p :: p in pages ==> pages[p] == Descs
  {
    forall p | p in pages
      ensures pages[p] == Descs
    {
      assert forall t :: pages[p] != Held(t);
    }
  }
}
