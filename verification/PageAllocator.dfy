/** The page half of the allocator, `mem_init`, and the allocator object (ext/uspi/env/lib/alloc.c). */
module PageAllocators {
  import opened Words
  import opened Allocators

  const PAGE_SIZE := 4096
  const MEM_HEAP_START := 0x500000

  /** `head` is the free list, `links` the next pointers stored in pages. `end`, `live` and `list` are the
      history: where the carved pages end, which are in use, what the free list holds. */
  datatype Pages = Pages(base: nat, next: nat, limit: nat, head: nat, links: map<nat, nat>, end: nat, live: set<nat>, list: seq<nat>)

  /** `palloc` */
  function Palloced(p: Pages): (Pages, nat)
    requires p.head != 0 ==> p.head in p.links && p.list != []
  {
    if p.head != 0 then
      (p.(head := p.links[p.head], live := p.live + {p.head}, list := p.list[1..]), p.head)
    else
      var n := U32(p.next + PAGE_SIZE);
      if n > p.limit then (p.(next := n), 0)
      else (p.(next := n, end := n, live := p.live + {p.next}), p.next)
  }

  /** `pfree` */
  function Pfreed(p: Pages, a: nat): Pages {
    p.(head := a, links := p.links[a := p.head], live := p.live - {a}, list := [a] + p.list)
  }

  ghost predicate Chained(links: map<nat, nat>, head: nat, list: seq<nat>)
    decreases |list|
  {
    if list == [] then head == 0 else head == list[0] && list[0] != 0 && list[0] in links && Chained(links, links[list[0]], list[1..])
  }

  ghost predicate IsPage(p: Pages, a: nat) {
    a % PAGE_SIZE == 0 && p.base <= a < p.end
  }

  /** The carved pages are exactly those in use and those on the free list, which has no cycle. */
  ghost predicate PagesOk(p: Pages) {
    && 0 < p.base && p.base % PAGE_SIZE == 0 && p.end % PAGE_SIZE == 0 && p.limit < 0x1_0000_0000
    && p.base <= p.end && (p.end == p.base || p.end <= p.limit) && (p.next == p.end || p.next > p.limit)
    && Chained(p.links, p.head, p.list) && NoDuplicates(p.list)
    && (forall a: nat :: IsPage(p, a) <==> a in p.live || a in p.list)
    && (forall a :: a in p.list ==> a !in p.live)
  }

  lemma {:induction false} ChainedFrame(links: map<nat, nat>, links': map<nat, nat>, head: nat, list: seq<nat>)
    requires Chained(links, head, list) && forall a :: a in list && a in links ==> a in links' && links'[a] == links[a]
    ensures Chained(links', head, list)
    decreases |list|
  {
    if list != [] {
      ChainedFrame(links, links', links[list[0]], list[1..]);
    }
  }

  /** Does the bump pointer stay clear of the 32 bit wrap-around, or does the call fail all the same? */
  predicate PageClear(p: Pages) {
    p.head != 0 || p.next + PAGE_SIZE < 0x1_0000_0000 || U32(p.next + PAGE_SIZE) > p.limit
  }

  lemma PopPage(p: Pages)
    requires PagesOk(p) && p.head != 0
    ensures p.head in p.links && p.list != [] && PagesOk(Palloced(p).0)
    ensures Palloced(p).1 !in p.live && Palloced(p).1 in Palloced(p).0.live
  {
    var p' := Palloced(p).0;
    assert p.list == [p.head] + p.list[1..];
    assert p.head in p.list;
    forall a: nat
      ensures IsPage(p', a) <==> a in p'.live || a in p'.list
    {
      assert IsPage(p', a) <==> IsPage(p, a);
    }
  }

  lemma CarvePage(p: Pages)
    requires PagesOk(p) && p.head == 0 && p.next + PAGE_SIZE < 0x1_0000_0000
    ensures PagesOk(Palloced(p).0)
    ensures Palloced(p).1 != 0 ==> Palloced(p).1 !in p.live && Palloced(p).1 in Palloced(p).0.live
  {
    var p' := Palloced(p).0;
    forall a: nat
      ensures IsPage(p', a) <==> a in p'.live || a in p'.list
    {
      assert IsPage(p, a) <==> a in p.live || a in p.list;
      if p'.end != p.end {
        assert IsPage(p', a) <==> IsPage(p, a) || a == p.next;
      }
    }
    assert IsPage(p, p.next) ==> p.next < p.end;
  }

  /** A call of `palloc` keeps the pages in order exactly when it is clear of the wrap-around. */
  lemma PallocKeepsExactly(p: Pages)
    requires PagesOk(p)
    ensures p.head != 0 ==> p.head in p.links && p.list != []
    ensures PagesOk(Palloced(p).0) <==> PageClear(p)
  {
    if p.head != 0 {
      PopPage(p);
    } else if p.next + PAGE_SIZE < 0x1_0000_0000 {
      CarvePage(p);
    } else {
      var p' := Palloced(p).0;
      if U32(p.next + PAGE_SIZE) > p.limit {
        forall a: nat
          ensures IsPage(p', a) <==> a in p'.live || a in p'.list
        {
          assert IsPage(p', a) <==> IsPage(p, a);
        }
      } else {
        assert p.next in p'.live && !IsPage(p', p.next);
      }
    }
  }

  /** The pages after `n` more calls of `palloc`. */
  ghost function Again(p: Pages, n: nat): Pages
    requires p.head == 0
    decreases n
  {
    if n == 0 then p else Again(Palloced(p).0, n - 1)
  }

  /** With nothing on the free list, calling `palloc` often enough, also after it began to fail, brings the bump
      pointer around: a page is handed out that lies behind the limit. */
  lemma {:induction false} PagesWrap(p: Pages) returns (n: nat)
    requires PagesOk(p) && p.head == 0 && p.next % PAGE_SIZE == 0 && p.next < 0x1_0000_0000
    ensures var q := Again(p, n);
            && PagesOk(q) && q.head == 0 && !PageClear(q) && !PagesOk(Palloced(q).0)
            && Palloced(q).1 == 0xFFFF_F000 && Palloced(q).1 + PAGE_SIZE > p.limit
    decreases 0x1_0000_0000 - p.next
  {
    if p.next + PAGE_SIZE < 0x1_0000_0000 {
      CarvePage(p);
      AlignedNext(p.next);
      var m := PagesWrap(Palloced(p).0);
      n := m + 1;
    } else {
      n := 0;
      LastPage(p.next);
      PallocKeepsExactly(p);
    }
  }

  lemma AlignedNext(a: nat)
    requires a % PAGE_SIZE == 0
    ensures (a + PAGE_SIZE) % PAGE_SIZE == 0
  {}

  lemma LastPage(a: nat)
    requires a % PAGE_SIZE == 0 && a < 0x1_0000_0000 <= a + PAGE_SIZE
    ensures a == 0xFFFF_F000
  {}

  lemma PfreeKeeps(p: Pages, a: nat)
    requires PagesOk(p) && a in p.live
    ensures PagesOk(Pfreed(p, a))
  {
    var p' := Pfreed(p, a);
    assert IsPage(p, a);
    ChainedFrame(p.links, p'.links, p.head, p.list);
    assert p'.list[1..] == p.list;
    forall x: nat
      ensures IsPage(p', x) <==> x in p'.live || x in p'.list
    {
      assert IsPage(p', x) <==> IsPage(p, x);
    }
  }

  /** A freed page is handed out next. */
  lemma FreedPageIsReused(p: Pages, a: nat)
    requires PagesOk(p) && a in p.live
    ensures a != 0 && Palloced(Pfreed(p, a)).1 == a && Palloced(Pfreed(p, a)).0.next == p.next
    ensures Palloced(Pfreed(p, a)).0.live == p.live && Palloced(Pfreed(p, a)).0.list == p.list
  {
    assert IsPage(p, a);
    assert ([a] + p.list)[1..] == p.list;
  }

  /** A call that is clear of the wrap-around fails exactly if no page is free and another would pass the limit; else it
      takes the page freed last, or the one behind those carved. */
  lemma PallocFailsExactly(p: Pages)
    requires PagesOk(p) && PageClear(p) && (p.head != 0 ==> p.head in p.links && p.list != [])
    ensures Palloced(p).1 == 0 <==> p.list == [] && p.next + PAGE_SIZE > p.limit
    ensures Palloced(p).1 != 0 ==> Palloced(p).1 == if p.list != [] then p.list[0] else p.end
  {
    if p.list != [] {
      assert p.list[0] in p.list;
    }
  }

  // ----- The allocator object ----------------------------------------------------------------------------

  /** Both regions are in order, and the pages lie behind the blocks. */
  ghost predicate InOrder(h: Heap, p: Pages) {
    Inv(h) && Classed(h) && PagesOk(p) && h.limit < p.base
  }

  /** What `Malloc` gives, of the size of the request's class. */
  ghost predicate Hands(h: Heap, size: nat, h': Heap, p: nat) {
    Gives(h, size, h', p) && (p != 0 ==> p >= HEADER_SIZE && p - HEADER_SIZE in h'.mem && SizedFor(size, h'.mem[p - HEADER_SIZE].size))
  }

  lemma MallocOk(h: Heap, p: Pages, size: nat)
    requires InOrder(h, p)
    ensures Shaped(h) && (Reuses(h, size) ==> h.heads[BucketFor(h.sizes, size)] in h.mem && h.lists[BucketFor(h.sizes, size)] != [])
    ensures InOrder(Malloced(h, size).0, p) <==> Clear(h, size)
    ensures Clear(h, size) ==> Hands(h, size, Malloced(h, size).0, Malloced(h, size).1)
  {
    MallocKeepsExactly(h, size);
    if Clear(h, size) {
      MallocGives(h, size);
      GivesClassSize(h, size);
    }
  }

  class Allocator {
    var nextBlock: nat
    var blockLimit: nat
    var nextPage: nat
    var pageLimit: nat
    var freeLists: seq<nat>
    var headers: map<nat, Header>
    var freePage: nat
    var pageLinks: map<nat, nat>
    ghost var heap: Heap      // the history of the blocks
    ghost var pages: Pages    // the history of the pages

    ghost function View(): Heap
      reads this
    {
      heap.(sizes := SIZES, next := nextBlock, limit := blockLimit, heads := freeLists, mem := headers)
    }

    ghost function PageView(): Pages
      reads this
    {
      pages.(next := nextPage, limit := pageLimit, head := freePage, links := pageLinks)
    }

    ghost predicate Valid()
      reads this
    {
      InOrder(View(), PageView())
    }

    /** `mem_init`: a quarter of the memory from `base` on is for blocks, pages begin at the next page
        boundary after that. */
    constructor (base: nat, size: nat)
      requires base + size < 0x1_0000_0000 && MEM_HEAP_START <= base + size && base % BLOCK_ALIGN == 0
      ensures Valid() && View().live == {} && PageView().live == {}
      ensures nextBlock == (if base < 0x50_0000 then 0x50_0000 else base) && 4 * (blockLimit - nextBlock) <= base + size - nextBlock < 4 * (blockLimit - nextBlock) + 4
      ensures nextPage % 4096 == 0 && blockLimit < nextPage <= blockLimit + 4096 && pageLimit == base + size
      ensures freeLists == [0, 0, 0, 0, 0, 0] && freePage == 0
    {
      var limit := base + size;
      var start := if base < MEM_HEAP_START then MEM_HEAP_START else base;
      var quarter := (limit - start) / 4;
      nextBlock, blockLimit := start, start + quarter;
      var firstPage := start + quarter + PAGE_SIZE - (start + quarter + PAGE_SIZE) % PAGE_SIZE;
      nextPage, pageLimit := firstPage, limit;
      freeLists, headers := [0, 0, 0, 0, 0, 0], map[];
      freePage, pageLinks := 0, map[];
      heap := Init(start, start + quarter);
      pages := Pages(firstPage, firstPage, limit, 0, map[], firstPage, {}, []);
      new;
      InitInv(start, start + quarter);
    }

    /** The allocator stays valid exactly if the call is clear of the 32 bit wrap-around, and then it gives what was
        asked for or nothing. */
    method Malloc(size: nat) returns (p: nat)
      requires Valid()
      modifies this
      ensures Valid() <==> old(Clear(View(), size))
      ensures old(Clear(View(), size)) ==> Hands(old(View()), size, View(), p)
      ensures PageView() == old(PageView())
    {
      ghost var h := View();
      MallocOk(h, PageView(), size);
      p := TakeBlock(size);
    }

    method TakeBlock(size: nat) returns (p: nat)
      requires Shaped(View()) && (Reuses(View(), size) ==> View().heads[BucketFor(SIZES, size)] in headers && View().lists[BucketFor(SIZES, size)] != [])
      modifies this`nextBlock, this`freeLists, this`headers, this`heap
      ensures (View(), p) == Malloced(old(View()), size) && PageView() == old(PageView())
    {
      ghost var h := View();
      heap := Malloced(h, size).0;
      var b, actual := FindBucket(size);
      if b < |SIZES| && freeLists[b] != 0 {
        var header := freeLists[b];
        freeLists := freeLists[b := headers[header].next];
        headers := headers[header := headers[header].(next := 0)];
        p := header + HEADER_SIZE;
      } else {
        var header := nextBlock;
        nextBlock := U32(nextBlock + Advance(actual));
        if nextBlock > blockLimit {
          return 0;
        }
        headers := headers[header := Header(BLOCK_MAGIC, actual, 0)];
        p := header + HEADER_SIZE;
      }
    }

    /** The loop over the buckets, for the first that is large enough. */
    method FindBucket(size: nat) returns (b: nat, actual: nat)
      ensures b == BucketFor(SIZES, size) && actual == BlockSize(SIZES, size) && SizedFor(size, actual)
    {
      ClassOf(size);
      b, actual := 0, size;
      while b < |SIZES|
        invariant b <= |SIZES| && actual == size
        invariant BucketFor(SIZES, size) == b + BucketFor(SIZES[b..], size)
      {
        if size <= SIZES[b] {
          actual := SIZES[b];
          return;
        }
        b := b + 1;
      }
    }

    /** Only pointers that `Malloc` gave out may be freed. */
    method Free(p: nat)
      requires Valid() && p >= HEADER_SIZE && p - HEADER_SIZE in View().live
      modifies this
      ensures Valid() && View().live == old(View()).live - {p - HEADER_SIZE}
      ensures PageView() == old(PageView())
    {
      FreeKeeps(View(), p - HEADER_SIZE);
      assert Classed(Freed(View(), p - HEADER_SIZE));
      GiveBack(p - HEADER_SIZE);
    }

    method GiveBack(header: nat)
      requires Shaped(View()) && header in headers
      modifies this`freeLists, this`headers, this`heap
      ensures View() == Freed(old(View()), header)
    {
      ghost var size := headers[header].size;
      heap := Freed(View(), header);
      var b := 0;
      while b < |SIZES|
        invariant b <= |SIZES| && headers == old(headers) && freeLists == old(freeLists)
        invariant BucketOf(SIZES, size) == b + BucketOf(SIZES[b..], size)
      {
        if headers[header].size == SIZES[b] {
          headers := headers[header := headers[header].(next := freeLists[b])];
          freeLists := freeLists[b := header];
          break;
        }
        b := b + 1;
      }
    }

    /** The allocator stays valid exactly if the call is clear of the 32 bit wrap-around. */
    method Palloc() returns (a: nat)
      requires Valid()
      modifies this
      ensures View() == old(View()) && (Valid() <==> old(PageClear(PageView())))
      ensures (PageView(), a) == Palloced(old(PageView()))
      ensures old(PageClear(PageView())) ==>
                if a == 0 then PageView().live == old(PageView()).live
                else a !in old(PageView()).live && PageView().live == old(PageView()).live + {a}
    {
      ghost var p := PageView();
      PallocKeepsExactly(p);
      if p.head != 0 { PopPage(p); } else if p.next + PAGE_SIZE < 0x1_0000_0000 { CarvePage(p); }
      pages := Palloced(p).0;
      if freePage != 0 {
        a := freePage;
        freePage := pageLinks[a];
      } else {
        a := nextPage;
        nextPage := U32(nextPage + PAGE_SIZE);
        if nextPage > pageLimit {
          a := 0;
        }
      }
    }

    method Pfree(a: nat)
      requires Valid() && a in PageView().live
      modifies this
      ensures Valid() && View() == old(View()) && PageView() == Pfreed(old(PageView()), a) && PageView().live == old(PageView()).live - {a}
    {
      ghost var p := PageView();
      PfreeKeeps(p, a);
      pages := Pfreed(p, a);
      pageLinks := pageLinks[a := freePage];
      freePage := a;
    }
  }

  /** Blocks and pages never meet. */
  lemma RegionsApart(h: Heap, p: Pages, a: nat, page: nat)
    requires Inv(h) && PagesOk(p) && h.limit < p.base
    requires a in h.mem && (page in p.live || page in p.list)
    ensures a + HEADER_SIZE + h.mem[a].size <= page
  {
    Room(h, a);
    assert IsPage(p, page);
  }
}
