/** When kmalloc can answer at once: the objects nobody uses, over the pages themselves. */
module MallocSlots {

  import opened Bits
  import opened BucketLists
  import opened Lists
  import opened MallocState
  import opened MallocSteps
  import opened MallocPages
  import opened MallocKeeps

  /** `a` is an object of `size` bytes that nobody holds: it lies, at a multiple of the size, in a page
      cut into objects of that size. */
  ghost predicate Vacant(desc: map<nat, Desc>, pages: map<nat, Use>, live: map<nat, nat>, size: nat, a: nat) {
    && size > 0 && a % size == 0 && a !in live
    && PageOf(a) in pages && pages[PageOf(a)].Bucket?
    && pages[PageOf(a)].d in desc && desc[pages[PageOf(a)].d].size == size
  }

  /** The buckets are for the powers of two from 16 up to a page. */
  lemma {:induction false} Sizes(b: nat, c: nat)
    requires b < BUCKETS && c < BUCKETS
    ensures DIR[0] == 16 && DIR[8] == 4096 && (b > 0 ==> DIR[b] == 2 * DIR[b - 1]) && DIR[b] * PER_PAGE[b] == 4096
    ensures DIR[b] == DIR[c] <==> b == c
    ensures 0 < DIR[b] <= PAGE_SIZE
  {
    assert b == 0 || b == 1 || b == 2 || b == 3 || b == 4 || b == 5 || b == 6 || b == 7 || b == 8;
    assert c == 0 || c == 1 || c == 2 || c == 3 || c == 4 || c == 5 || c == 6 || c == 7 || c == 8;
  }

  lemma {:induction false} SpanTimes(size: nat, n: nat)
    ensures Span(size, n) == n * size
  {
    if n > 0 {
      SpanTimes(size, n - 1);
    }
  }

  /** The slots of a page are the multiples of the object size in it. */
  lemma {:induction false} SlotIs(page: nat, b: nat, a: nat)
    requires b < BUCKETS && page % PAGE_SIZE == 0 && PageOf(a) == page
    ensures DIR[b] > 0 && (a in SlotsOf(page, b) <==> a % DIR[b] == 0)
  {
    hide Slots, Span;
    Sizes(b, b);
    var s := SlotsOf(page, b);
    if a in s {
      var k: nat :| k < |s| && s[k] == a;
      SlotAt(page, DIR[b], PER_PAGE[b], k);
      SpanTimes(DIR[b], k);
      MultipleIn(page, b, k, a);
    }
    if a % DIR[b] == 0 {
      var k := WhichMultiple(page, b, a);
      SlotAt(page, DIR[b], PER_PAGE[b], k);
      SpanTimes(DIR[b], k);
      assert s[k] == a;
    }
  }

  lemma {:induction false} MultipleIn(page: nat, b: nat, k: nat, a: nat)
    requires b < BUCKETS && page % PAGE_SIZE == 0 && a == page + k * DIR[b]
    ensures DIR[b] > 0 && a % DIR[b] == 0
  {
    var size, n, q := DIR[b], PER_PAGE[b], page / PAGE_SIZE;
    Sizes(b, b);
    assert a == size * (n * q + k) + 0;
    Euclid(a, size, n * q + k, 0);
  }

  lemma {:induction false} WhichMultiple(page: nat, b: nat, a: nat) returns (k: nat)
    requires b < BUCKETS && page % PAGE_SIZE == 0 && PageOf(a) == page && DIR[b] > 0 && a % DIR[b] == 0
    ensures k < PER_PAGE[b] && a == page + k * DIR[b]
  {
    var size, n, q := DIR[b], PER_PAGE[b], page / PAGE_SIZE;
    Sizes(b, b);
    assert page <= a < page + 4096 && page == 4096 * q;
    Quotient(a, size);
    assert a == size * (a / size);
    assert page == size * (n * q);
    MulOrder(size, n * q, a / size);
    k := a / size - n * q;
    assert a - page == size * k;
    MulOrder(size, n, k);
  }

  /** What a chained descriptor says of the objects of its page. */
  lemma {:induction false} BucketOf(mem: map<nat, nat>, desc: map<nat, Desc>, chain: seq<nat>, head: nat,
                                    calls: map<nat, Phase>, pages: map<nat, Use>, live: map<nat, nat>, g: Ledger,
                                    d: nat)
    requires Whole(mem, desc, chain, head, calls, pages, live, g, 0) && d in g.objs
    ensures d in desc && d in g.place && g.place[d].OnChain? && g.place[d].b < BUCKETS
    ensures desc[d].page % PAGE_SIZE == 0 && desc[d].page in pages && pages[desc[d].page] == Bucket(d)
    ensures BucketOk(mem, desc[d], g.place[d].b, g.objs[d], live) && desc[d].size == DIR[g.place[d].b]
  {
    hide Listed, Busy, Lively, PageOf, SlotsOf, FreeList;
    FilledAt(mem, desc, live, g, d);
    PageAligned(desc, calls, pages, g, d);
    PageOwner(desc, calls, pages, g, d);
  }

  /** The first free object of a page is vacant. */
  lemma {:induction false} VacantHere(mem: map<nat, nat>, desc: map<nat, Desc>, chain: seq<nat>, head: nat,
                                      calls: map<nat, Phase>, pages: map<nat, Use>, live: map<nat, nat>, g: Ledger,
                                      d: nat, b: nat)
    requires Whole(mem, desc, chain, head, calls, pages, live, g, 0) && d in g.objs && d in desc
    requires desc[d].freeptr != 0 && d in g.place && g.place[d] == OnChain(b)
    ensures b < BUCKETS && Vacant(desc, pages, live, DIR[b], desc[d].freeptr)
  {
    hide Whole, SlotsOf, PageOf;
    BucketOf(mem, desc, chain, head, calls, pages, live, g, d);
    BucketTake(mem, desc[d], b, g.objs[d], live, 0);
    SlotPage(desc[d].page, b);
    SlotIs(desc[d].page, b, desc[d].freeptr);
  }

  /** A vacant object is on the free list of a page on its bucket's chain. */
  lemma {:induction false} VacantListed(mem: map<nat, nat>, desc: map<nat, Desc>, chain: seq<nat>, head: nat,
                                        calls: map<nat, Phase>, pages: map<nat, Use>, live: map<nat, nat>, g: Ledger,
                                        b: nat, a: nat)
    requires Whole(mem, desc, chain, head, calls, pages, live, g, 0) && b < BUCKETS && |g.lists| == BUCKETS
    requires Vacant(desc, pages, live, DIR[b], a)
    ensures var d := pages[PageOf(a)].d;
      d in g.lists[b] && d in desc && desc[d].freeptr != 0
  {
    var d := pages[PageOf(a)].d;
    PageDesc(desc, calls, pages, g, PageOf(a));
    BucketOf(mem, desc, chain, head, calls, pages, live, g, d);
    Sizes(b, g.place[d].b);
    SlotIs(PageOf(a), b, a);
    hide Listed, Owned, Filled, Busy, Lively, PageOf, SlotsOf;
    assert a in g.objs[d];
  }

  /** Looking through the chain of bucket `b` for a free object finds one exactly when there is one. */
  lemma {:induction false} FoundIff(mem: map<nat, nat>, desc: map<nat, Desc>, chain: seq<nat>, head: nat,
                                    calls: map<nat, Phase>, pages: map<nat, Use>, live: map<nat, nat>, g: Ledger,
                                    b: nat, d: nat)
    requires Whole(mem, desc, chain, head, calls, pages, live, g, 0) && b < BUCKETS && |g.lists| == BUCKETS
    requires d != 0 ==> d in g.lists[b] && d in desc && desc[d].freeptr != 0
    requires d == 0 ==> forall e :: e in g.lists[b] ==> e in desc && desc[e].freeptr == 0
    ensures d != 0 ==> d in g.objs && d in g.place && g.place[d] == OnChain(b)
    ensures d != 0 ==> Vacant(desc, pages, live, DIR[b], desc[d].freeptr)
    ensures d != 0 <==> exists a :: Vacant(desc, pages, live, DIR[b], a)
  {
    hide Whole, Vacant, PageOf;
    if d != 0 {
      OnChainFacts(mem, desc, chain, head, calls, pages, live, g, b, d);
      VacantHere(mem, desc, chain, head, calls, pages, live, g, d, b);
    } else {
      forall a | Vacant(desc, pages, live, DIR[b], a)
        ensures false
      {
        VacantListed(mem, desc, chain, head, calls, pages, live, g, b, a);
      }
    }
  }

  /** One bucket is the smallest that is large enough. */
  lemma {:induction false} FitsOnce(len: nat, b: nat, c: nat)
    requires Fits(len, b) && Fits(len, c)
    ensures b == c
  {
    if b < c {
      Rising(b, c - 1);
    } else if c < b {
      Rising(c, b - 1);
    }
  }

  lemma {:induction false} Rising(b: nat, c: nat)
    requires b <= c < BUCKETS
    ensures DIR[b] <= DIR[c]
    decreases c
  {
    if b < c {
      Rising(b, c - 1);
      Sizes(c, c);
    }
  }

  lemma {:induction false} PageDesc(desc: map<nat, Desc>, calls: map<nat, Phase>, pages: map<nat, Use>, g: Ledger,
                                    p: nat)
    requires Owned(desc, calls, pages, g) && p in pages && pages[p].Bucket?
    ensures pages[p].d in g.objs && pages[p].d in desc && desc[pages[p].d].page == p
  {
  }

  /** A page that a call has in its hands holds no object in use. */
  lemma {:induction false} HeldIdle(mem: map<nat, nat>, desc: map<nat, Desc>, chain: seq<nat>, head: nat,
                                    calls: map<nat, Phase>, pages: map<nat, Use>, live: map<nat, nat>, g: Ledger,
                                    t: nat)
    requires Whole(mem, desc, chain, head, calls, pages, live, g, 0) && t in calls && calls[t].HasPage?
    ensures calls[t].page in pages && pages[calls[t].page] == Held(t) && calls[t].d in desc
    ensures forall a :: a in live ==> PageOf(a) != calls[t].page
  {
    hide Listed, Filled, Busy, Lively, PageOf, SlotsOf;
    HeldPage(desc, calls, pages, g, t, calls[t].page);
    assert HoldsDesc(calls[t], calls[t].d);
    forall a | a in live
      ensures PageOf(a) != calls[t].page
    {
      LiveDesc(mem, desc, chain, head, calls, pages, live, g, a);
    }
  }

  /** Every object of `page` but the first is vacant. */
  ghost predicate RestVacant(desc: map<nat, Desc>, pages: map<nat, Use>, live: map<nat, nat>, size: nat, page: nat) {
    size > 0
    && forall a: nat :: PageOf(a) == page && a % size == 0 && a != page ==> Vacant(desc, pages, live, size, a)
  }

  lemma {:induction false} OthersVacant(desc: map<nat, Desc>, pages: map<nat, Use>, live: map<nat, nat>, len: nat,
                                        page: nat, d: nat, b: nat)
    requires b < BUCKETS && page in pages && pages[page] == Bucket(d) && d in desc && desc[d].size == DIR[b]
    requires forall a :: a in live ==> PageOf(a) != page
    ensures RestVacant(desc, pages, live[page := len], DIR[b], page)
  {
    Sizes(b, b);
    hide PageOf;
  }

  /** The room an object in use has is its bucket's, and its page's descriptor tells it. */
  lemma {:induction false} RoomOf(mem: map<nat, nat>, desc: map<nat, Desc>, chain: seq<nat>, head: nat,
                                  calls: map<nat, Phase>, pages: map<nat, Use>, live: map<nat, nat>, g: Ledger, o: nat)
    requires Whole(mem, desc, chain, head, calls, pages, live, g, 0) && o in live
    ensures PageOf(o) in pages && pages[PageOf(o)].Bucket?
    ensures var d := pages[PageOf(o)].d;
      && d in desc && d in g.place && g.place[d].OnChain? && g.place[d].b < BUCKETS
      && desc[d].size == DIR[g.place[d].b] && live[o] <= desc[d].size <= PAGE_SIZE
  {
    Sizes(0, 0);
    forall b: nat | b < BUCKETS
      ensures DIR[b] <= PAGE_SIZE
    {
      Sizes(b, b);
    }
    LiveDesc(mem, desc, chain, head, calls, pages, live, g, o);
    BucketOf(mem, desc, chain, head, calls, pages, live, g, pages[PageOf(o)].d);
    hide *;
  }

  /** An object that is taken back and whose page stays is vacant. */
  lemma {:induction false} VacantAgain(mem: map<nat, nat>, desc: map<nat, Desc>, chain: seq<nat>, head: nat,
                                       calls: map<nat, Phase>, pages: map<nat, Use>, live: map<nat, nat>, g: Ledger,
                                       o: nat)
    requires Whole(mem, desc, chain, head, calls, pages, live, g, 0) && o in live
    ensures PageOf(o) in pages && pages[PageOf(o)].Bucket? && pages[PageOf(o)].d in desc
    ensures desc[pages[PageOf(o)].d].size > 0 && o % desc[pages[PageOf(o)].d].size == 0
  {
    LiveDesc(mem, desc, chain, head, calls, pages, live, g, o);
    var d := pages[PageOf(o)].d;
    BucketOf(mem, desc, chain, head, calls, pages, live, g, d);
    SlotIs(PageOf(o), g.place[d].b, o);
    hide *;
  }
}
