/** The size-class allocator (ext/uspi/env/lib/alloc.c), with the 16 byte block header of the 32 bit
    layout. */
module Allocators {
  import opened Words

  const BLOCK_ALIGN := 16
  const HEADER_SIZE := 16
  const BLOCK_MAGIC := 0x424C4D43

  /** The block sizes of the buckets. */
  const SIZES: seq<nat> := [0x40, 0x400, 0x1000, 0x4000, 0x40000, 0x80000]

  datatype Header = Header(magic: nat, size: nat, next: nat)

  /** A block that was carved out of the arena: the address of its header, the size that was asked for then, the size
      of its data and the room it takes. */
  datatype Chunk = Chunk(addr: nat, request: nat, size: nat, extent: nat)

  /** `heads` are the buckets' `pFreeList` pointers and `mem` the headers in memory. The history of the
      heap is kept in `carved` (in order of address), `live`, `lists` (what each free list holds) and
      `leaked` (freed blocks too large for any bucket). */
  datatype Heap = Heap(sizes: seq<nat>, base: nat, next: nat, limit: nat, heads: seq<nat>, mem: map<nat, Header>,
                       carved: seq<Chunk>, live: set<nat>, lists: seq<seq<nat>>, leaked: set<nat>)

  /** The first bucket that is large enough; |sizes| when none is. */
  function BucketFor(sizes: seq<nat>, size: nat): (b: nat)
    ensures b <= |sizes|
    ensures forall i :: 0 <= i < b ==> sizes[i] < size
    ensures b < |sizes| ==> size <= sizes[b]
  {
    if sizes == [] || size <= sizes[0] then 0 else 1 + BucketFor(sizes[1..], size)
  }

  /** The bucket of exactly this block size. */
  function BucketOf(sizes: seq<nat>, size: nat): (b: nat)
    ensures b <= |sizes|
    ensures forall i :: 0 <= i < b ==> sizes[i] != size
    ensures b < |sizes| ==> sizes[b] == size
  {
    if sizes == [] || sizes[0] == size then 0 else 1 + BucketOf(sizes[1..], size)
  }

  function RoundDown(x: nat): nat {
    x - x % BLOCK_ALIGN
  }

  /** How far a block of this size advances the bump pointer, in 32 bit arithmetic. */
  function Advance(size: nat): nat {
    RoundDown(U32(HEADER_SIZE + size + BLOCK_ALIGN - 1))
  }

  /** The room a block needs. */
  function Extent(size: nat): nat {
    RoundDown(HEADER_SIZE + size + BLOCK_ALIGN - 1)
  }

  function BlockSize(sizes: seq<nat>, size: nat): (s: nat)
    ensures s >= size
  {
    var b := BucketFor(sizes, size);
    if b < |sizes| then sizes[b] else size
  }

  predicate Shaped(h: Heap) {
    |h.heads| == |h.lists| == |h.sizes|
  }

  predicate Reuses(h: Heap, size: nat)
    requires Shaped(h)
  {
    BucketFor(h.sizes, size) < |h.sizes| && h.heads[BucketFor(h.sizes, size)] != 0
  }

  /** `malloc` from a free list. */
  function Popped(h: Heap, b: nat): Heap
    requires Shaped(h) && b < |h.sizes| && h.heads[b] in h.mem && h.lists[b] != []
  {
    var a := h.heads[b];
    h.(heads := h.heads[b := h.mem[a].next], mem := h.mem[a := h.mem[a].(next := 0)], live := h.live + {a}, lists := h.lists[b := h.lists[b][1..]])
  }

  /** `malloc` from the arena, once it is known to fit. */
  function Carved(h: Heap, request: nat, size: nat, next: nat, extent: nat): Heap {
    h.(next := next, mem := h.mem[h.next := Header(BLOCK_MAGIC, size, 0)],
       carved := h.carved + [Chunk(h.next, request, size, extent)], live := h.live + {h.next})
  }

  /** The bump pointer after a `malloc` from the arena, in 32 bit arithmetic. */
  function Bumped(h: Heap, size: nat): nat {
    U32(h.next + Advance(BlockSize(h.sizes, size)))
  }

  /** `malloc`; the pointer returned is 0 or that of the block's data. */
  function Malloced(h: Heap, size: nat): (Heap, nat)
    requires Shaped(h) && (Reuses(h, size) ==> h.heads[BucketFor(h.sizes, size)] in h.mem && h.lists[BucketFor(h.sizes, size)] != [])
  {
    var b := BucketFor(h.sizes, size);
    if Reuses(h, size) then (Popped(h, b), h.heads[b] + HEADER_SIZE)
    else if Bumped(h, size) > h.limit then (h.(next := Bumped(h, size)), 0)
    else (Carved(h, size, BlockSize(h.sizes, size), Bumped(h, size), Extent(BlockSize(h.sizes, size))), h.next + HEADER_SIZE)
  }

  /** `free`, of a pointer whose header passes the assertions. */
  function Freed(h: Heap, a: nat): Heap
    requires Shaped(h) && a in h.mem
  {
    var b := BucketOf(h.sizes, h.mem[a].size);
    if b == |h.sizes| then h.(live := h.live - {a}, leaked := h.leaked + {a})
    else h.(heads := h.heads[b := a], mem := h.mem[a := h.mem[a].(next := h.heads[b])],
            live := h.live - {a}, lists := h.lists[b := [a] + h.lists[b]])
  }

  // ----- The invariant -----------------------------------------------------------------------------

  /** Where the carved blocks end. */
  function EndOf(base: nat, carved: seq<Chunk>): nat {
    if carved == [] then base else carved[|carved|-1].addr + carved[|carved|-1].extent
  }

  function End(h: Heap): nat {
    EndOf(h.base, h.carved)
  }

  /** A block begins at a multiple of 16 and has room for its header and its data. */
  predicate ChunkOk(c: Chunk) {
    c.addr > 0 && c.addr % BLOCK_ALIGN == 0 && c.extent % BLOCK_ALIGN == 0 && HEADER_SIZE + c.size <= c.extent
  }

  /** The blocks follow each other without gaps from `base` on. */
  ghost predicate Contiguous(base: nat, carved: seq<Chunk>)
    decreases |carved|
  {
    carved == [] ||
    var n := |carved| - 1;
    Contiguous(base, carved[..n]) && carved[n].addr == EndOf(base, carved[..n]) && carved[n].extent > 0
  }

  ghost predicate ArenaOk(h: Heap) {
    && 0 < h.base && h.base % BLOCK_ALIGN == 0 && h.limit < 0x1_0000_0000
    && Contiguous(h.base, h.carved) && (forall i :: 0 <= i < |h.carved| ==> ChunkOk(h.carved[i]))
    && End(h) <= h.limit && (h.next == End(h) || h.next > h.limit)
  }

  /** The pointers from `head` on lead through exactly the blocks of `list`. */
  ghost predicate Linked(mem: map<nat, Header>, head: nat, list: seq<nat>)
    decreases |list|
  {
    if list == [] then head == 0 else head == list[0] && list[0] != 0 && list[0] in mem && Linked(mem, mem[list[0]].next, list[1..])
  }

  ghost predicate NoDuplicates(list: seq<nat>) {
    forall i, j :: 0 <= i < j < |list| ==> list[i] != list[j]
  }

  ghost predicate IsCarved(h: Heap, a: nat) {
    exists i :: 0 <= i < |h.carved| && h.carved[i].addr == a
  }

  /** Headers describe the carved blocks, and nothing else. */
  ghost predicate HeadersOk(h: Heap) {
    && (forall i :: 0 <= i < |h.carved| ==>
          h.carved[i].addr in h.mem && h.mem[h.carved[i].addr].size == h.carved[i].size && h.mem[h.carved[i].addr].magic == BLOCK_MAGIC)
    && (forall a :: a in h.mem ==> IsCarved(h, a))
  }

  /** Each free list is linked, has no cycle, and holds blocks of its size that are not in use. */
  ghost predicate ListOk(h: Heap, b: nat)
    requires Shaped(h) && b < |h.sizes|
  {
    && Linked(h.mem, h.heads[b], h.lists[b]) && NoDuplicates(h.lists[b])
    && forall a :: a in h.lists[b] ==> a in h.mem && h.mem[a].size == h.sizes[b] && a !in h.live && a !in h.leaked
  }

  /** A block is on the free list of its size. */
  ghost predicate Listed(h: Heap, a: nat)
    requires Shaped(h) && a in h.mem
  {
    var b := BucketOf(h.sizes, h.mem[a].size);
    b < |h.sizes| && a in h.lists[b]
  }

  /** Every carved block is live, on the free list of its size, or too large for one and leaked. */
  ghost predicate Partition(h: Heap)
    requires Shaped(h)
  {
    && (forall a :: a in h.live ==> a in h.mem && a !in h.leaked)
    && (forall a :: a in h.leaked ==> a in h.mem && BucketOf(h.sizes, h.mem[a].size) == |h.sizes|)
    && (forall a :: a in h.mem && a !in h.live && a !in h.leaked ==> Listed(h, a))
  }

  ghost predicate Increasing(sizes: seq<nat>) {
    forall i, j :: 0 <= i < j < |sizes| ==> sizes[i] < sizes[j]
  }

  ghost predicate Inv(h: Heap) {
    && Shaped(h) && Increasing(h.sizes)
    && ArenaOk(h) && HeadersOk(h) && Partition(h)
    && forall b: nat :: b < |h.sizes| ==> ListOk(h, b)
  }

  /** What `mem_init` leaves, for the blocks. */
  function Init(base: nat, limit: nat): Heap {
    Heap(SIZES, base, base, limit, [0, 0, 0, 0, 0, 0], map[], [], {}, [[], [], [], [], [], []], {})
  }

  lemma InitInv(base: nat, limit: nat)
    requires 0 < base <= limit < 0x1_0000_0000 && base % BLOCK_ALIGN == 0
    ensures Inv(Init(base, limit))
  {}

  // ----- Carved blocks do not overlap ----------------------------------------------------------------

  lemma ExtentBounds(size: nat)
    ensures HEADER_SIZE + size <= Extent(size) && Extent(size) % BLOCK_ALIGN == 0
    ensures Extent(size) < 0x1_0000_0000 ==> Advance(size) == Extent(size)
  {}

  lemma {:induction false} Within(base: nat, carved: seq<Chunk>, i: nat)
    requires Contiguous(base, carved) && i < |carved|
    ensures base <= carved[i].addr && carved[i].addr + carved[i].extent <= EndOf(base, carved)
    decreases |carved|
  {
    var n := |carved| - 1;
    if i < n {
      Within(base, carved[..n], i);
    } else if n > 0 {
      Within(base, carved[..n], n - 1);
    }
  }

  lemma {:induction false} Ordered(base: nat, carved: seq<Chunk>, i: nat, j: nat)
    requires Contiguous(base, carved) && i < j < |carved|
    ensures carved[i].addr + carved[i].extent <= carved[j].addr
    decreases |carved|
  {
    var n := |carved| - 1;
    if j < n {
      Ordered(base, carved[..n], i, j);
    } else {
      Within(base, carved[..n], i);
    }
  }

  lemma Room(h: Heap, a: nat)
    requires ArenaOk(h) && HeadersOk(h) && a in h.mem
    ensures a > 0 && a % BLOCK_ALIGN == 0 && h.base <= a && a + HEADER_SIZE + h.mem[a].size <= End(h) <= h.limit
    ensures h.mem[a].magic == BLOCK_MAGIC
  {
    assert IsCarved(h, a);
    var i :| 0 <= i < |h.carved| && h.carved[i].addr == a;
    Within(h.base, h.carved, i);
    assert ChunkOk(h.carved[i]);
  }

  /** Two blocks, live or free, never overlap. */
  lemma Disjoint(h: Heap, a: nat, b: nat)
    requires ArenaOk(h) && HeadersOk(h) && a in h.mem && b in h.mem && a != b
    ensures a + HEADER_SIZE + h.mem[a].size <= b || b + HEADER_SIZE + h.mem[b].size <= a
  {
    assert IsCarved(h, a) && IsCarved(h, b);
    var i :| 0 <= i < |h.carved| && h.carved[i].addr == a;
    var j :| 0 <= j < |h.carved| && h.carved[j].addr == b;
    if i < j {
      Apart(h, i, j);
    } else {
      Apart(h, j, i);
    }
  }

  lemma Apart(h: Heap, i: nat, j: nat)
    requires ArenaOk(h) && i < j < |h.carved|
    ensures h.carved[i].addr + HEADER_SIZE + h.carved[i].size <= h.carved[j].addr
  {
    assert ChunkOk(h.carved[i]);
    Ordered(h.base, h.carved, i, j);
  }

  // ----- malloc from a free list -----------------------------------------------------------------------

  lemma {:induction false} LinkedFrame(mem: map<nat, Header>, mem': map<nat, Header>, head: nat, list: seq<nat>)
    requires Linked(mem, head, list) && forall a :: a in list ==> a in mem' && a in mem && mem'[a].next == mem[a].next
    ensures Linked(mem', head, list)
    decreases |list|
  {
    if list != [] {
      LinkedFrame(mem, mem', mem[list[0]].next, list[1..]);
    }
  }

  lemma SameCarved(h: Heap, h': Heap)
    requires HeadersOk(h) && h'.carved == h.carved && h'.mem.Keys == h.mem.Keys
    requires forall a :: a in h.mem ==> h'.mem[a].size == h.mem[a].size && h'.mem[a].magic == h.mem[a].magic
    ensures HeadersOk(h')
  {
    forall a | a in h'.mem
      ensures IsCarved(h', a)
    {
      assert IsCarved(h, a);
    }
  }

  lemma HeadIsFirst(h: Heap, b: nat)
    requires Shaped(h) && b < |h.sizes| && ListOk(h, b) && h.heads[b] != 0
    ensures h.lists[b] != [] && h.lists[b][0] == h.heads[b] && h.heads[b] in h.mem
    ensures h.heads[b] !in h.live && h.heads[b] !in h.leaked && h.mem[h.heads[b]].size == h.sizes[b]
    ensures h.heads[b] !in h.lists[b][1..] && Linked(h.mem, h.mem[h.heads[b]].next, h.lists[b][1..])
  {
    assert h.lists[b][0] in h.lists[b];
  }

  lemma PopList(h: Heap, b: nat, c: nat)
    requires Shaped(h) && Increasing(h.sizes) && b < |h.sizes| && c < |h.sizes| && ListOk(h, b) && ListOk(h, c) && h.heads[b] != 0
    requires h.heads[b] in h.mem && h.lists[b] != []
    ensures ListOk(Popped(h, b), c)
  {
    HeadIsFirst(h, b);
    var h' := Popped(h, b);
    var a := h.heads[b];
    if c == b {
      assert forall x :: x in h'.lists[b] ==> x in h.lists[b];
      LinkedFrame(h.mem, h'.mem, h.mem[a].next, h.lists[b][1..]);
    } else {
      LinkedFrame(h.mem, h'.mem, h.heads[c], h.lists[c]);
    }
  }

  lemma PopPartition(h: Heap, b: nat)
    requires Shaped(h) && Increasing(h.sizes) && b < |h.sizes| && ListOk(h, b) && Partition(h) && h.heads[b] != 0
    requires h.heads[b] in h.mem && h.lists[b] != []
    ensures Partition(Popped(h, b))
  {
    HeadIsFirst(h, b);
    var h' := Popped(h, b);
    assert h.lists[b] == [h.heads[b]] + h'.lists[b];
    forall a | a in h'.mem && a !in h'.live && a !in h'.leaked
      ensures Listed(h', a)
    {
      assert Listed(h, a);
    }
  }

  lemma PopKeeps(h: Heap, b: nat)
    requires Inv(h) && b < |h.sizes| && h.heads[b] != 0
    ensures h.heads[b] in h.mem && h.lists[b] != [] && Inv(Popped(h, b))
  {
    assert ListOk(h, b);
    HeadIsFirst(h, b);
    PopLists(h, b);
    PopPartition(h, b);
    SameCarved(h, Popped(h, b));
  }

  lemma PopLists(h: Heap, b: nat)
    requires Shaped(h) && Increasing(h.sizes) && b < |h.sizes| && h.heads[b] != 0 && h.heads[b] in h.mem && h.lists[b] != []
    requires forall c: nat :: c < |h.sizes| ==> ListOk(h, c)
    ensures forall c: nat :: c < |h.sizes| ==> ListOk(Popped(h, b), c)
  {
    forall c: nat | c < |h.sizes|
      ensures ListOk(Popped(h, b), c)
    {
      PopList(h, b, c);
    }
  }

  // ----- malloc from the arena -------------------------------------------------------------------------

  lemma CarveArena(h: Heap, request: nat, size: nat, extent: nat)
    requires ArenaOk(h) && HeadersOk(h) && h.next == End(h) && extent == Extent(size) && h.next + extent <= h.limit
    ensures h.next !in h.mem && ArenaOk(Carved(h, request, size, h.next + extent, extent))
    ensures h.next % BLOCK_ALIGN == 0 && h.next > 0
  {
    var h' := Carved(h, request, size, h.next + extent, extent);
    var n := |h.carved|;
    ExtentBounds(size);
    if h.next in h.mem {
      Room(h, h.next);
    }
    assert h.next >= h.base && h.next % BLOCK_ALIGN == 0 by {
      if n > 0 {
        Within(h.base, h.carved, n - 1);
        assert ChunkOk(h.carved[n-1]);
        AddAligned(h.carved[n-1].addr, h.carved[n-1].extent);
      }
    }
    assert h'.carved[..n] == h.carved;
    assert ChunkOk(h'.carved[n]);
  }

  lemma AddAligned(a: nat, b: nat)
    requires a % BLOCK_ALIGN == 0 && b % BLOCK_ALIGN == 0
    ensures (a + b) % BLOCK_ALIGN == 0
  {}

  lemma CarveHeaders(h: Heap, request: nat, size: nat, next: nat, extent: nat)
    requires HeadersOk(h) && h.next !in h.mem
    ensures HeadersOk(Carved(h, request, size, next, extent))
  {
    var h' := Carved(h, request, size, next, extent);
    forall a | a in h'.mem
      ensures IsCarved(h', a)
    {
      if a == h.next {
        assert h'.carved[|h.carved|].addr == a;
      } else {
        assert IsCarved(h, a);
        var i :| 0 <= i < |h.carved| && h.carved[i].addr == a;
        assert h'.carved[i].addr == a;
      }
    }
  }

  lemma CarveRest(h: Heap, request: nat, size: nat, next: nat, extent: nat)
    requires Shaped(h) && Partition(h) && h.next !in h.mem && forall b: nat :: b < |h.sizes| ==> ListOk(h, b)
    ensures var h' := Carved(h, request, size, next, extent); Partition(h') && forall b: nat :: b < |h.sizes| ==> ListOk(h', b)
  {
    var h' := Carved(h, request, size, next, extent);
    forall b: nat | b < |h.sizes|
      ensures ListOk(h', b)
    {
      assert ListOk(h, b);
      LinkedFrame(h.mem, h'.mem, h.heads[b], h.lists[b]);
    }
    forall a | a in h'.mem && a !in h'.live && a !in h'.leaked
      ensures Listed(h', a)
    {
      assert Listed(h, a);
    }
  }

  lemma BumpedExact(h: Heap, size: nat)
    requires h.next + Extent(BlockSize(h.sizes, size)) < 0x1_0000_0000
    ensures Bumped(h, size) == h.next + Extent(BlockSize(h.sizes, size))
  {
    ExtentBounds(BlockSize(h.sizes, size));
  }

  lemma MallocCarves(h: Heap, size: nat)
    requires Shaped(h) && !Reuses(h, size) && h.limit < 0x1_0000_0000 && h.next + Extent(BlockSize(h.sizes, size)) <= h.limit
    ensures var s := BlockSize(h.sizes, size);
            Malloced(h, size) == (Carved(h, size, s, h.next + Extent(s), Extent(s)), h.next + HEADER_SIZE)
  {
    ExtentBounds(BlockSize(h.sizes, size));
  }

  lemma CarvedInv(h: Heap, request: nat, size: nat, next: nat, extent: nat)
    requires Inv(h) && h.next !in h.mem && ArenaOk(Carved(h, request, size, next, extent))
    ensures Inv(Carved(h, request, size, next, extent))
  {
    CarveHeaders(h, request, size, next, extent);
    CarveRest(h, request, size, next, extent);
  }

  lemma CarveKeeps(h: Heap, size: nat)
    requires Inv(h) && !Reuses(h, size) && h.next + Extent(BlockSize(h.sizes, size)) <= h.limit
    ensures h.next !in h.mem && Inv(Malloced(h, size).0) && Malloced(h, size).1 == h.next + HEADER_SIZE
    ensures h.next % BLOCK_ALIGN == 0 && h.next !in h.live && Malloced(h, size).0.live == h.live + {h.next}
    ensures h.next in Malloced(h, size).0.mem && Malloced(h, size).0.mem[h.next].size >= size
  {
    MallocCarves(h, size);
    var s := BlockSize(h.sizes, size);
    CarveArena(h, size, s, Extent(s));
    CarvedInv(h, size, s, h.next + Extent(s), Extent(s));
  }

  lemma ExhaustedKeeps(h: Heap, size: nat)
    requires Inv(h) && !Reuses(h, size) && Bumped(h, size) > h.limit
    ensures Inv(Malloced(h, size).0) && Malloced(h, size).1 == 0
  {
    var h' := Malloced(h, size).0;
    SameCarved(h, h');
    forall b: nat | b < |h.sizes|
      ensures ListOk(h', b)
    {
      assert ListOk(h, b);
    }
    forall a | a in h'.mem && a !in h'.live && a !in h'.leaked
      ensures Listed(h', a)
    {
      assert Listed(h, a);
    }
  }

  /** Does this call of `malloc` stay clear of the 32 bit wrap-around? It does if it takes a block from a
      free list, if the bump pointer does not pass 2^32, or if it fails all the same. */
  predicate Clear(h: Heap, size: nat)
    requires Shaped(h)
  {
    || Reuses(h, size)
    || h.next + Extent(BlockSize(h.sizes, size)) < 0x1_0000_0000
    || Bumped(h, size) > h.limit
  }

  lemma MallocDefined(h: Heap, size: nat)
    requires Inv(h)
    ensures Reuses(h, size) ==> h.heads[BucketFor(h.sizes, size)] in h.mem && h.lists[BucketFor(h.sizes, size)] != []
  {
    if Reuses(h, size) {
      assert ListOk(h, BucketFor(h.sizes, size));
      HeadIsFirst(h, BucketFor(h.sizes, size));
    }
  }

  /** A wrapped bump pointer that still lies below the limit means that the block does not fit. */
  lemma WrapBreaks(h: Heap, size: nat)
    requires Inv(h) && !Clear(h, size)
    ensures !Inv(Malloced(h, size).0)
  {
    var s := BlockSize(h.sizes, size);
    var h' := Malloced(h, size).0;
    assert h'.carved[|h.carved|] == Chunk(h.next, size, s, Extent(s));
    assert End(h') == h.next + Extent(s) > h.limit;
  }

  /** A call of `malloc` keeps the heap in order exactly when it is clear of the wrap-around. */
  lemma MallocKeepsExactly(h: Heap, size: nat)
    requires Inv(h)
    ensures Reuses(h, size) ==> h.heads[BucketFor(h.sizes, size)] in h.mem && h.lists[BucketFor(h.sizes, size)] != []
    ensures Inv(Malloced(h, size).0) <==> Clear(h, size)
  {
    MallocDefined(h, size);
    if Reuses(h, size) {
      PopKeeps(h, BucketFor(h.sizes, size));
    } else if Bumped(h, size) > h.limit {
      ExhaustedKeeps(h, size);
    } else if Clear(h, size) {
      BumpedExact(h, size);
      CarveKeeps(h, size);
    } else {
      WrapBreaks(h, size);
    }
  }

  /** A block that `malloc` hands out was not in use, begins at a multiple of 16 and is large enough; only
      that block changes hands. `malloc` fails only when the size's free list is empty. */
  ghost predicate Gives(h: Heap, size: nat, h': Heap, p: nat) {
    if p == 0 then h' == h.(next := h'.next) && Shaped(h) && !Reuses(h, size)
    else
      && p >= HEADER_SIZE && p % BLOCK_ALIGN == 0 && p - HEADER_SIZE !in h.live && h'.live == h.live + {p - HEADER_SIZE}
      && p - HEADER_SIZE in h'.mem && h'.mem[p - HEADER_SIZE].size >= size
  }

  lemma MallocGives(h: Heap, size: nat)
    requires Inv(h) && Clear(h, size)
    requires Reuses(h, size) ==> h.heads[BucketFor(h.sizes, size)] in h.mem && h.lists[BucketFor(h.sizes, size)] != []
    ensures Gives(h, size, Malloced(h, size).0, Malloced(h, size).1)
  {
    if Reuses(h, size) {
      GivesFromList(h, size);
    } else if Bumped(h, size) <= h.limit {
      GivesFromArena(h, size);
    }
  }

  lemma NewBlock(h: Heap, size: nat, h': Heap)
    requires h.next % BLOCK_ALIGN == 0 && h.next !in h.live && h'.live == h.live + {h.next}
    requires h.next in h'.mem && h'.mem[h.next].size >= size
    ensures Gives(h, size, h', h.next + HEADER_SIZE)
  {}

  lemma GivesFromArena(h: Heap, size: nat)
    requires Inv(h) && !Reuses(h, size) && Bumped(h, size) <= h.limit && h.next + Extent(BlockSize(h.sizes, size)) < 0x1_0000_0000
    ensures Gives(h, size, Malloced(h, size).0, Malloced(h, size).1)
  {
    BumpedExact(h, size);
    CarveKeeps(h, size);
    NewBlock(h, size, Malloced(h, size).0);
  }

  lemma GivesFromList(h: Heap, size: nat)
    requires Inv(h) && Reuses(h, size)
    ensures var a := h.heads[BucketFor(h.sizes, size)];
            a > 0 && a % BLOCK_ALIGN == 0 && a !in h.live && a in h.mem && h.mem[a].size >= size
  {
    assert ListOk(h, BucketFor(h.sizes, size));
    HeadIsFirst(h, BucketFor(h.sizes, size));
    Room(h, h.heads[BucketFor(h.sizes, size)]);
  }

  // ----- free ------------------------------------------------------------------------------------------

  lemma FreeList(h: Heap, a: nat, c: nat)
    requires Shaped(h) && Increasing(h.sizes) && a in h.mem && a in h.live && a != 0 && a !in h.leaked && c < |h.sizes| && ListOk(h, c)
    ensures ListOk(Freed(h, a), c)
  {
    var h' := Freed(h, a);
    var b := BucketOf(h.sizes, h.mem[a].size);
    if b < |h.sizes| {
      LinkedFrame(h.mem, h'.mem, h.heads[c], h.lists[c]);
      if c == b {
        assert h'.lists[c][1..] == h.lists[c];
      }
    }
  }

  lemma FreePartition(h: Heap, a: nat)
    requires Shaped(h) && a in h.mem && a in h.live && Partition(h)
    ensures Partition(Freed(h, a))
  {
    var h' := Freed(h, a);
    forall x | x in h'.mem && x !in h'.live && x !in h'.leaked
      ensures Listed(h', x)
    {
      assert x != a ==> Listed(h, x);
    }
  }

  /** A block in use may be freed: its header carries the magic number, and the heap stays in order. */
  lemma FreeKeeps(h: Heap, a: nat)
    requires Inv(h) && a in h.live
    ensures a in h.mem && h.mem[a].magic == BLOCK_MAGIC && Inv(Freed(h, a))
  {
    Room(h, a);
    SameCarved(h, Freed(h, a));
    FreePartition(h, a);
    FreeLists(h, a);
  }

  lemma FreeLists(h: Heap, a: nat)
    requires Shaped(h) && Increasing(h.sizes) && a in h.mem && a in h.live && a != 0 && a !in h.leaked
    requires forall c: nat :: c < |h.sizes| ==> ListOk(h, c)
    ensures forall c: nat :: c < |h.sizes| ==> ListOk(Freed(h, a), c)
  {
    forall c: nat | c < |h.sizes|
      ensures ListOk(Freed(h, a), c)
    {
      FreeList(h, a, c);
    }
  }

  // ----- Whole runs -----------------------------------------------------------------------------------

  /** `Free` is given the address of a block's header. */
  datatype Step = Malloc(size: nat) | Free(a: nat)

  /** Callers free what they were given, and stay clear of the wrap-around. */
  ghost predicate Legal(h: Heap, step: Step) {
    Inv(h) &&
    match step
    case Malloc(size) => Clear(h, size)
    case Free(a) => a in h.live
  }

  ghost function Apply(h: Heap, step: Step): Heap
    requires Legal(h, step)
  {
    match step
    case Malloc(size) => MallocDefined(h, size); Malloced(h, size).0
    case Free(a) => Freed(h, a)
  }

  ghost predicate LegalRun(h: Heap, steps: seq<Step>)
    decreases |steps|
  {
    steps == [] || (Legal(h, steps[0]) && LegalRun(Apply(h, steps[0]), steps[1..]))
  }

  ghost function Exec(h: Heap, steps: seq<Step>): Heap
    requires LegalRun(h, steps)
    decreases |steps|
  {
    if steps == [] then h else Exec(Apply(h, steps[0]), steps[1..])
  }

  lemma StepKeeps(h: Heap, step: Step)
    requires Legal(h, step)
    ensures Inv(Apply(h, step)) && Apply(h, step).base == h.base
  {
    match step {
      case Malloc(size) => MallocKeepsExactly(h, size);
      case Free(a) => FreeKeeps(h, a);
    }
  }

  lemma {:induction false} RunKeeps(h: Heap, steps: seq<Step>)
    requires Inv(h) && LegalRun(h, steps)
    ensures Inv(Exec(h, steps)) && Exec(h, steps).base == h.base
    decreases |steps|
  {
    if steps != [] {
      StepKeeps(h, steps[0]);
      RunKeeps(Apply(h, steps[0]), steps[1..]);
    }
  }

  /** Over every run the blocks fill the arena without gaps; each is live, on the free list of its size, or leaked;
      each free list is linked without a cycle and holds unused blocks of its size only; and every block is aligned,
      lies in the arena and overlaps no other. */
  lemma HeapStaysInOrder(base: nat, limit: nat, steps: seq<Step>, a: nat, b: nat)
    requires 0 < base <= limit < 0x1_0000_0000 && base % BLOCK_ALIGN == 0
    requires LegalRun(Init(base, limit), steps)
    ensures var h := Exec(Init(base, limit), steps);
            && Shaped(h) && Partition(h) && Contiguous(base, h.carved)
            && (forall k: nat :: k < |h.sizes| ==> ListOk(h, k))
            && (a in h.mem ==> a % BLOCK_ALIGN == 0 && base <= a && a + HEADER_SIZE + h.mem[a].size <= h.limit)
            && (a in h.mem && b in h.mem && a != b ==> a + HEADER_SIZE + h.mem[a].size <= b || b + HEADER_SIZE + h.mem[b].size <= a)
  {
    InitInv(base, limit);
    RunKeeps(Init(base, limit), steps);
    var h := Exec(Init(base, limit), steps);
    if a in h.mem {
      Room(h, a);
      if b in h.mem && a != b {
        Disjoint(h, a, b);
      }
    }
  }

  // ----- Size classes -------------------------------------------------------------------------------------

  const CLASSES: set<nat> := {0x40, 0x400, 0x1000, 0x4000, 0x40000, 0x80000}

  /** The size of the block for a request: the smallest class that holds it, or, above the largest, the size itself. */
  predicate SizedFor(request: nat, size: nat) {
    if request <= 0x80000 then request <= size && size in CLASSES && forall c :: c in CLASSES && request <= c ==> size <= c
    else size == request
  }

  /** Every block has the size of its class, and takes no more room than alignment needs. */
  ghost predicate Classed(h: Heap) {
    h.sizes == SIZES &&
    forall i :: 0 <= i < |h.carved| ==>
      SizedFor(h.carved[i].request, h.carved[i].size) && h.carved[i].extent < HEADER_SIZE + h.carved[i].size + BLOCK_ALIGN
  }

  lemma ClassSizes()
    ensures forall c :: c in CLASSES <==> c in SIZES
    ensures SIZES[0] == 0x40 && SIZES[5] == 0x80000 && |SIZES| == 6 && Increasing(SIZES)
  {}

  lemma ClassOf(request: nat)
    ensures SizedFor(request, BlockSize(SIZES, request))
  {
    ClassSizes();
    var b := BucketFor(SIZES, request);
    assert request <= 0x80000 ==> b < |SIZES| by { assert b == |SIZES| ==> SIZES[5] < request; }
    forall c | request <= 0x80000 && c in CLASSES && request <= c
      ensures SIZES[b] <= c
    {
      var i :| 0 <= i < |SIZES| && SIZES[i] == c;
      assert i >= b;
    }
  }

  /** Sizes of the same class share a bucket. */
  lemma ClassBucket(request: nat, size: nat)
    requires SizedFor(request, size)
    ensures BlockSize(SIZES, request) == size && BucketOf(SIZES, size) == BucketFor(SIZES, request)
    ensures request <= 0x80000 <==> BucketFor(SIZES, request) < |SIZES|
  {
    ClassOf(request);
    ClassSizes();
    var b := BucketFor(SIZES, request);
    if request <= 0x80000 {
      assert size == SIZES[b];
    }
  }

  lemma StepClassed(h: Heap, step: Step)
    requires Legal(h, step) && Classed(h)
    ensures Classed(Apply(h, step))
  {
    if step.Malloc? {
      ClassOf(step.size);
      ExtentTight(BlockSize(SIZES, step.size));
    }
  }

  lemma ExtentTight(size: nat)
    ensures Extent(size) < HEADER_SIZE + size + BLOCK_ALIGN
  {}

  lemma {:induction false} RunClassed(h: Heap, steps: seq<Step>)
    requires Inv(h) && Classed(h) && LegalRun(h, steps)
    ensures Classed(Exec(h, steps))
    decreases |steps|
  {
    if steps != [] {
      StepKeeps(h, steps[0]);
      StepClassed(h, steps[0]);
      RunClassed(Apply(h, steps[0]), steps[1..]);
    }
  }

  lemma OnlyLargeLeak(h: Heap, a: nat)
    requires Inv(h) && Classed(h) && a in h.leaked
    ensures a in h.mem && h.mem[a].size > 0x80000
  {
    assert IsCarved(h, a);
    var i :| 0 <= i < |h.carved| && h.carved[i].addr == a;
    ClassSizes();
    ClassBucket(h.carved[i].request, h.carved[i].size);
  }

  /** Over every run, a block has the size of the smallest class that holds the request it was carved for, takes the
      room that needs and no more, and only blocks above the largest class are ever leaked. */
  lemma BlocksHaveClassSizes(base: nat, limit: nat, steps: seq<Step>)
    requires 0 < base <= limit < 0x1_0000_0000 && base % BLOCK_ALIGN == 0 && LegalRun(Init(base, limit), steps)
    ensures var h := Exec(Init(base, limit), steps);
            && Inv(h) && Classed(h)
            && (forall a :: a in h.leaked ==> a in h.mem && h.mem[a].size > 0x80000)
  {
    InitInv(base, limit);
    RunKeeps(Init(base, limit), steps);
    RunClassed(Init(base, limit), steps);
    var h := Exec(Init(base, limit), steps);
    forall a | a in h.leaked
      ensures a in h.mem && h.mem[a].size > 0x80000
    {
      OnlyLargeLeak(h, a);
    }
  }

  /** A freed block is handed out again for the next request of its class, and the arena is not touched. */
  lemma FreedIsReused(h: Heap, a: nat, size: nat)
    requires Inv(h) && Classed(h) && a in h.live && a in h.mem && size <= 0x80000 && SizedFor(size, h.mem[a].size)
    ensures Inv(Freed(h, a)) && (Reuses(Freed(h, a), size) ==> Freed(h, a).heads[BucketFor(SIZES, size)] in Freed(h, a).mem && Freed(h, a).lists[BucketFor(SIZES, size)] != [])
    ensures var (h', p) := Malloced(Freed(h, a), size);
            p == a + HEADER_SIZE && h'.next == h.next && h'.carved == h.carved && h'.live == h.live && h'.lists == h.lists
  {
    FreeKeeps(h, a);
    MallocDefined(Freed(h, a), size);
    ClassBucket(size, h.mem[a].size);
    Room(h, a);
    PopsWhatWasFreed(h, a, BucketFor(SIZES, size));
  }

  lemma PopsWhatWasFreed(h: Heap, a: nat, b: nat)
    requires Shaped(h) && b < |h.sizes| && a in h.mem && a in h.live && BucketOf(h.sizes, h.mem[a].size) == b
    ensures var h1 := Freed(h, a);
            && h1.heads[b] == a && a in h1.mem && h1.lists[b] != [] && h1.sizes == h.sizes
            && var h' := Popped(h1, b); h'.next == h.next && h'.carved == h.carved && h'.live == h.live && h'.lists == h.lists
  {
    assert ([a] + h.lists[b])[1..] == h.lists[b];
    assert h.live - {a} + {a} == h.live;
    assert h.lists[b := [a] + h.lists[b]][b := h.lists[b]] == h.lists;
  }

  /** The block that is handed out has exactly the size of the request's class. */
  lemma GivesClassSize(h: Heap, request: nat)
    requires Inv(h) && Classed(h) && Clear(h, request)
    requires Reuses(h, request) ==> h.heads[BucketFor(h.sizes, request)] in h.mem && h.lists[BucketFor(h.sizes, request)] != []
    ensures var (h', p) := Malloced(h, request);
            Classed(h') && (p != 0 ==> p >= HEADER_SIZE && p - HEADER_SIZE in h'.mem && SizedFor(request, h'.mem[p - HEADER_SIZE].size))
  {
    if Reuses(h, request) {
      PoppedClass(h, request);
    } else if Bumped(h, request) <= h.limit {
      CarvedClass(h, request);
    }
  }

  lemma PoppedClass(h: Heap, request: nat)
    requires Inv(h) && Classed(h) && Reuses(h, request)
    ensures var a := h.heads[BucketFor(h.sizes, request)];
            a in h.mem && h.lists[BucketFor(h.sizes, request)] != [] && SizedFor(request, h.mem[a].size)
  {
    ClassOf(request);
    assert ListOk(h, BucketFor(SIZES, request));
    HeadIsFirst(h, BucketFor(SIZES, request));
  }

  lemma CarvedClass(h: Heap, request: nat)
    requires Shaped(h) && Classed(h) && !Reuses(h, request) && Bumped(h, request) <= h.limit
    ensures var (h', p) := Malloced(h, request);
            Classed(h') && p == h.next + HEADER_SIZE && h.next in h'.mem && SizedFor(request, h'.mem[h.next].size)
  {
    ClassOf(request);
    ExtentTight(BlockSize(SIZES, request));
    var h' := Malloced(h, request).0;
    assert forall i :: 0 <= i < |h.carved| ==> h'.carved[i] == h.carved[i];
  }

  /** A block that is neither in use nor leaked. */
  ghost predicate IsFree(h: Heap, a: nat) {
    a in h.mem && a !in h.live && a !in h.leaked
  }

  /** A call that is clear of the wrap-around fails exactly if no free block has the size of the request's class and
      the arena has no room for another of that size. */
  lemma FailsExactly(h: Heap, request: nat, size: nat)
    requires Inv(h) && Classed(h) && Clear(h, request) && SizedFor(request, size)
    requires Reuses(h, request) ==> h.heads[BucketFor(h.sizes, request)] in h.mem && h.lists[BucketFor(h.sizes, request)] != []
    ensures Malloced(h, request).1 == 0 <==>
            (forall a :: IsFree(h, a) ==> h.mem[a].size != size)
            && forall e: nat :: e % BLOCK_ALIGN == 0 && HEADER_SIZE + size <= e ==> h.next + e > h.limit
  {
    ClassBucket(request, size);
    var b := BucketFor(SIZES, request);
    ExtentBounds(size);
    if Reuses(h, request) {
      assert ListOk(h, b);
      HeadIsFirst(h, b);
      assert IsFree(h, h.heads[b]) && h.mem[h.heads[b]].size == size;
    } else {
      forall a | IsFree(h, a)
        ensures h.mem[a].size != size
      {
        assert Listed(h, a);
        if b < |SIZES| {
          assert ListOk(h, b);
          assert h.lists[b] == [];
        }
      }
      RoomExactly(h.next, size, h.limit);
    }
  }

  lemma RoomExactly(next: nat, size: nat, limit: nat)
    ensures next + Extent(size) > limit <==> forall e: nat :: e % BLOCK_ALIGN == 0 && HEADER_SIZE + size <= e ==> next + e > limit
  {
    ExtentBounds(size);
    ExtentTight(size);
    forall e: nat | e % BLOCK_ALIGN == 0 && HEADER_SIZE + size <= e
      ensures Extent(size) <= e
    {
      Multiples(Extent(size), e);
    }
  }

  lemma Multiples(a: nat, e: nat)
    requires a % BLOCK_ALIGN == 0 && e % BLOCK_ALIGN == 0 && a < e + BLOCK_ALIGN
    ensures a <= e
  {}

  // ----- A request that wraps around ---------------------------------------------------------------------

  const HUGE := 0xFFFF_FFF0

  /** The very first call breaks the heap when it asks for 0xFFFFFFF0 bytes: the bump pointer stays where it is, and
      the next block is handed out at the same address. */
  lemma FirstCallWraps(base: nat, limit: nat)
    requires 0 < base <= limit < 0x1_0000_0000 && base % BLOCK_ALIGN == 0
    ensures var h := Init(base, limit);
            var (h', p) := Malloced(h, HUGE);
            && !Clear(h, HUGE) && p == base + HEADER_SIZE && h'.next == base && !Inv(h')
            && (base + 0x50 <= limit ==> Shaped(h') && !Reuses(h', 1) && Malloced(h', 1).1 == p)
  {
    var h := Init(base, limit);
    InitInv(base, limit);
    HugeSizes();
    WrapBreaks(h, HUGE);
  }

  lemma HugeSizes()
    ensures BucketFor(SIZES, HUGE) == |SIZES| && Advance(HUGE) == 0 && Extent(HUGE) == 0x1_0000_0000
    ensures BucketFor(SIZES, 1) == 0 && Advance(0x40) == 0x50
  {}
}
