/** What lib/malloc.c keeps true between its interrupts-off sections, and why every section keeps
    it. A section is described here by the values it leaves; Malloc.dfy performs the sections.
 */
module MallocState {

  import opened BucketLists
  import opened Lists

  const BUCKETS: nat := 9

  /** `bucket_dir[].size`, with its end marker. */
  const DIR: seq<nat> := [16, 32, 64, 128, 256, 512, 1024, 2048, 4096, 0]

  /** Objects in a page of bucket `b`. */
  const PER_PAGE: seq<nat> := [256, 128, 64, 32, 16, 8, 4, 2, 1]

  /** `obj & PAGE_MASK`. */
  function PageOf(a: nat): nat { a - a % PAGE_SIZE }

  function SlotsOf(page: nat, b: nat): (s: seq<nat>)
    requires b < BUCKETS
    ensures |s| == PER_PAGE[b]
  {
    Slots(page, DIR[b], PER_PAGE[b])
  }

  /** Where a call to kmalloc is suspended with interrupts on: waiting for a page of descriptors,
      returned from there, waiting for a bucket page with descriptor `d` in hand, returned with
      that page. */
  datatype Phase =
    | NeedDescs(len: nat, b: nat)
    | HasDescs(len: nat, b: nat, page: nat)
    | NeedPage(len: nat, b: nat, d: nat)
    | HasPage(len: nat, b: nat, d: nat, page: nat)

  predicate Fits(len: nat, b: nat) {
    b < BUCKETS && len <= DIR[b] && (b > 0 ==> DIR[b - 1] < len)
  }

  predicate HoldsDesc(ph: Phase, d: nat) { (ph.NeedPage? || ph.HasPage?) && ph.d == d }

  predicate HoldsPage(ph: Phase, p: nat) { (ph.HasDescs? || ph.HasPage?) && ph.page == p }

  datatype Place = OnChain(b: nat) | OnFree | InFlight(t: nat)

  datatype Use = Descs | Bucket(d: nat) | Held(t: nat)

  /** The lists as sequences: each bucket chain, `free_bucket_desc`, and each page's free objects;
      and where each descriptor is. */
  datatype Ledger = Ledger(lists: seq<seq<nat>>, spare: seq<nat>, objs: map<nat, seq<nat>>, place: map<nat, Place>)

  // ---- the invariant -----------------------------------------------------------------------

  ghost predicate Listed(desc: map<nat, Desc>, chain: seq<nat>, head: nat, g: Ledger) {
    && |chain| == BUCKETS && |g.lists| == BUCKETS
    && (forall b :: 0 <= b < BUCKETS ==> Chain(desc, chain[b], g.lists[b]))
    && Chain(desc, head, g.spare)
  }

  ghost predicate OnChains(g: Ledger) {
    |g.lists| == BUCKETS
    && forall b, d :: 0 <= b < BUCKETS ==> (d in g.lists[b] <==> d in g.place && g.place[d] == OnChain(b))
  }

  ghost predicate OnSpare(g: Ledger) {
    forall d :: d in g.spare <==> d in g.place && g.place[d] == OnFree
  }

  ghost predicate WithCalls(calls: map<nat, Phase>, g: Ledger) {
    && (forall t, d :: d in g.place && g.place[d] == InFlight(t) <==> t in calls && HoldsDesc(calls[t], d))
    && (forall t :: t in calls ==> Fits(calls[t].len, calls[t].b))
  }

  /** Exactly the chained descriptors have a page of objects. */
  ghost predicate InUse(g: Ledger) {
    && (forall d :: d in g.objs <==> d in g.place && g.place[d].OnChain?)
    && (forall d :: d in g.objs ==> g.place[d].b < BUCKETS)
  }

  /** Every descriptor is on exactly one chain, on the free list, or with one call. */
  ghost predicate Placed(desc: map<nat, Desc>, calls: map<nat, Phase>, g: Ledger) {
    g.place.Keys == desc.Keys && OnChains(g) && OnSpare(g) && WithCalls(calls, g) && InUse(g)
  }

  ghost predicate DescPages(desc: map<nat, Desc>, pages: map<nat, Use>) {
    && (forall p :: p in pages ==> p != 0 && p % PAGE_SIZE == 0)
    && (forall d :: d in desc ==> d != 0 && PageOf(d) in pages && pages[PageOf(d)] == Descs)
  }

  ghost predicate BucketPages(desc: map<nat, Desc>, pages: map<nat, Use>, g: Ledger) {
    && (forall d :: d in g.objs ==> d in desc && desc[d].page in pages && pages[desc[d].page] == Bucket(d))
    && (forall p :: p in pages && pages[p].Bucket? ==>
      pages[p].d in g.objs && pages[p].d in desc && desc[pages[p].d].page == p)
  }

  ghost predicate HeldPages(calls: map<nat, Phase>, pages: map<nat, Use>) {
    forall p, t :: p in pages && pages[p] == Held(t) <==> t in calls && HoldsPage(calls[t], p)
  }

  /** Every page obtained is a descriptor page, one descriptor's bucket, or with one call. */
  ghost predicate Owned(desc: map<nat, Desc>, calls: map<nat, Phase>, pages: map<nat, Use>, g: Ledger) {
    DescPages(desc, pages) && BucketPages(desc, pages, g) && HeldPages(calls, pages)
  }

  /** The slots of one page: each is either free or with a caller, and the counts agree. */
  ghost predicate BucketOk(mem: map<nat, nat>, f: Desc, b: nat, free: seq<nat>, live: map<nat, nat>)
    requires b < BUCKETS
  {
    && f.size == DIR[b]
    && FreeList(mem, f.freeptr, free)
    && (forall a :: a in free ==> a in SlotsOf(f.page, b))
    && (forall a :: a in SlotsOf(f.page, b) ==> (a in free <==> a !in live))
    && f.refcnt + |free| == PER_PAGE[b]
  }

  ghost predicate Filled(mem: map<nat, nat>, desc: map<nat, Desc>, live: map<nat, nat>, g: Ledger) {
    forall d :: d in g.objs ==>
      d in desc && d in g.place && g.place[d].OnChain? && g.place[d].b < BUCKETS
      && BucketOk(mem, desc[d], g.place[d].b, g.objs[d], live)
  }

  /** Only in the middle of a section may a chained page, `but`'s, have no object in use. */
  ghost predicate Busy(desc: map<nat, Desc>, g: Ledger, but: nat) {
    forall d :: d in g.objs && d != but ==> d in desc && desc[d].refcnt > 0
  }

  ghost predicate LiveOk(pages: map<nat, Use>, g: Ledger, o: nat, len: nat) {
    && PageOf(o) in pages && pages[PageOf(o)].Bucket?
    && var d := pages[PageOf(o)].d;
       d in g.place && g.place[d].OnChain? && g.place[d].b < BUCKETS
       && o in SlotsOf(PageOf(o), g.place[d].b) && len <= DIR[g.place[d].b]
  }

  /** Every object with a caller is a slot, big enough, of a chained page. */
  ghost predicate Lively(pages: map<nat, Use>, live: map<nat, nat>, g: Ledger) {
    forall o :: o in live ==> LiveOk(pages, g, o, live[o])
  }

  /** The state of the allocator, outside any section; `but` is 0 except in the middle of one. */
  ghost predicate Whole(mem: map<nat, nat>, desc: map<nat, Desc>, chain: seq<nat>, head: nat, calls: map<nat, Phase>,
                        pages: map<nat, Use>, live: map<nat, nat>, g: Ledger, but: nat)
  {
    && Listed(desc, chain, head, g) && Placed(desc, calls, g) && Owned(desc, calls, pages, g)
    && Filled(mem, desc, live, g) && Busy(desc, g, but) && Lively(pages, live, g)
  }

  // ---- slots and pages ---------------------------------------------------------------------

  lemma {:induction false} SpanDouble(size: nat, n: nat)
    ensures Span(2 * size, n) == Span(size, 2 * n)
  {
    if n > 0 {
      SpanDouble(size, n - 1);
      assert Span(size, 2 * n) == size + Span(size, 2 * n - 1);
      assert Span(size, 2 * n - 1) == size + Span(size, 2 * n - 2);
    }
  }

  /** The slots fill the page exactly, for every bucket size. */
  lemma {:induction false} SpanPage(b: nat)
    requires b < BUCKETS
    ensures Span(DIR[b], PER_PAGE[b]) == PAGE_SIZE
    decreases BUCKETS - b
  {
    if b == BUCKETS - 1 {
      assert Span(4096, 0) == 0;
    } else {
      SpanPage(b + 1);
      SpanDouble(DIR[b], PER_PAGE[b + 1]);
    }
  }

  lemma {:induction false} SlotsAligned(o: nat, size: nat, n: nat)
    requires o % 16 == 0 && size % 16 == 0
    ensures forall a :: a in Slots(o, size, n) ==> a % 16 == 0
    decreases n
  {
    if n > 0 {
      SlotsAligned(o + size, size, n - 1);
    }
  }

  lemma {:induction false} SlotPage(page: nat, b: nat)
    requires b < BUCKETS && page % PAGE_SIZE == 0
    ensures forall a :: a in SlotsOf(page, b) ==> page <= a && a + DIR[b] <= page + PAGE_SIZE && PageOf(a) == page
    ensures forall a, c :: a in SlotsOf(page, b) && c in SlotsOf(page, b) && a < c ==> a + DIR[b] <= c
    ensures Distinct(SlotsOf(page, b))
  {
    hide Slots, Distinct, Span;
    SpanPage(b);
    SlotsApart(page, DIR[b], PER_PAGE[b]);
    forall a | a in SlotsOf(page, b)
      ensures PageOf(a) == page
    {
      InPage(page, a);
    }
  }

  lemma {:induction false} InPage(page: nat, a: nat)
    requires page % PAGE_SIZE == 0 && page <= a < page + PAGE_SIZE
    ensures PageOf(a) == page
  {
  }

  lemma {:induction false} SlotAt(o: nat, size: nat, n: nat, k: nat)
    requires k < n
    ensures Slots(o, size, n)[k] == o + Span(size, k)
    decreases n
  {
    if k > 0 {
      SlotAt(o + size, size, n - 1, k - 1);
    }
  }

  lemma {:induction false} SlotFollows(page: nat, b: nat, k: nat)
    requires b < BUCKETS && k < PER_PAGE[b]
    ensures SlotsOf(page, b)[0] == page
    ensures k + 1 < PER_PAGE[b] ==> SlotsOf(page, b)[k + 1] == SlotsOf(page, b)[k] + DIR[b]
  {
    hide Slots;
    SlotAt(page, DIR[b], PER_PAGE[b], 0);
    SlotAt(page, DIR[b], PER_PAGE[b], k);
    if k + 1 < PER_PAGE[b] {
      SlotAt(page, DIR[b], PER_PAGE[b], k + 1);
      assert Span(DIR[b], k + 1) == DIR[b] + Span(DIR[b], k);
    }
  }

  // ---- one bucket --------------------------------------------------------------------------

  lemma {:induction false} BucketElsewhere(mem: map<nat, nat>, mem': map<nat, nat>, f: Desc, b: nat,
                                           free: seq<nat>, live: map<nat, nat>, live': map<nat, nat>)
    requires b < BUCKETS && BucketOk(mem, f, b, free, live)
    requires forall a :: a in SlotsOf(f.page, b) && a in mem && a !in live ==> a in mem' && mem'[a] == mem[a]
    requires forall a :: a in SlotsOf(f.page, b) ==> (a in live <==> a in live')
    ensures BucketOk(mem', f, b, free, live')
  {
    hide SlotsOf;
    FreeListFrame(mem, mem', f.freeptr, free);
  }

  /** The descriptor after its first free object is handed out. */
  function Taken(mem: map<nat, nat>, f: Desc): Desc
    requires f.freeptr in mem
  {
    f.(freeptr := mem[f.freeptr], refcnt := f.refcnt + 1)
  }

  lemma {:induction false} BucketTake(mem: map<nat, nat>, f: Desc, b: nat, free: seq<nat>, live: map<nat, nat>,
                                      len: nat)
    requires b < BUCKETS && BucketOk(mem, f, b, free, live) && f.freeptr != 0
    ensures |free| > 0 && f.freeptr == free[0] && f.freeptr in mem && f.freeptr !in live
    ensures f.freeptr in SlotsOf(f.page, b)
    ensures BucketOk(mem, Taken(mem, f), b, free[1..], live[f.freeptr := len])
  {
    hide SlotsOf;
    FreeListPop(mem, f.freeptr, free);
    var o := free[0];
    assert o in free;
    forall a | a in SlotsOf(f.page, b)
      ensures a in free[1..] <==> a in free && a != o
    {
      FirstGone(free, a);
    }
  }

  lemma {:induction false} FirstGone(s: seq<nat>, a: nat)
    requires Distinct(s) && |s| > 0
    ensures a in s[1..] <==> a in s && a != s[0]
  {
    if a in s && a != s[0] {
      var i :| 0 <= i < |s| && s[i] == a;
      assert s[1..][i - 1] == a;
    }
  }

  /** The descriptor after object `o` is put back. */
  function Given(f: Desc, o: nat): Desc
    requires f.refcnt > 0
  {
    f.(freeptr := o, refcnt := f.refcnt - 1)
  }

  lemma {:induction false} BucketGive(mem: map<nat, nat>, f: Desc, b: nat, free: seq<nat>, live: map<nat, nat>, o: nat)
    requires b < BUCKETS && BucketOk(mem, f, b, free, live) && f.refcnt > 0
    requires o in SlotsOf(f.page, b) && o in live && o != 0
    ensures BucketOk(mem[o := f.freeptr], Given(f, o), b, [o] + free, live - {o})
  {
    hide SlotsOf;
    FreeListPush(mem, f.freeptr, free, o);
  }

  /** The count reaches zero exactly when no object of the page is with a caller. */
  lemma {:induction false} BucketIdle(mem: map<nat, nat>, f: Desc, b: nat, free: seq<nat>, live: map<nat, nat>)
    requires b < BUCKETS && f.page % PAGE_SIZE == 0 && BucketOk(mem, f, b, free, live)
    ensures f.refcnt == 0 <==> forall a :: a in SlotsOf(f.page, b) ==> a !in live
  {
    SlotPage(f.page, b);
    hide SlotsOf, Distinct;
    var slots := SlotsOf(f.page, b);
    if f.refcnt == 0 {
      Pigeonhole(free, slots);
    } else if forall a :: a in slots ==> a !in live {
      DistinctSize(free);
      DistinctSize(slots);
      SubsetSize(Elems(slots), Elems(free));
      assert false;
    }
  }
}
