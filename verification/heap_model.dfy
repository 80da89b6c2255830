/** The kernel heap: slabs inside chunks of pages, and the blocks handed out to callers. */
module HeapModel {
  import opened Sequences
  import opened Pow2
  import opened SlabModel

  const PAGE_SIZE: nat := 0x1000
  const SLAB_PAGES: nat := 512
  const SLAB_PAGE_ORDER: nat := 9

  /** `live` are the chunks taken from the page allocator, by first page, and `pages` the slab field of every page. */
  datatype Heap = Heap(s: Slabs, start: nat, live: map<nat, nat>, pages: seq<nat>)

  function Addr(start: nat, p: nat): nat {
    start + p * PAGE_SIZE
  }

  function PageOf(start: nat, x: nat): int {
    (x - start) / PAGE_SIZE
  }

  ghost predicate ChunksOk(live: map<nat, nat>, n: nat) {
    && (forall p :: p in live ==> p + Pow(live[p]) <= n)
    && (forall p, q :: p in live && q in live && p < q ==> p + Pow(live[p]) <= q)
  }

  /** Slab a fills a chunk of 512 pages, whose pages name it. */
  ghost predicate RegionOk(h: Heap, a: nat) {
    && a >= h.start
    && var p := PageOf(h.start, a);
       && p in h.live && h.live[p] == SLAB_PAGE_ORDER && a == Addr(h.start, p) && p + SLAB_PAGES <= |h.pages|
       && forall i :: p <= i < p + SLAB_PAGES ==> h.pages[i] == a
  }

  /** A page names no slab, or the one it belongs to. */
  ghost predicate PageOk(h: Heap, i: nat)
    requires i < |h.pages|
  {
    h.pages[i] == 0 || (h.pages[i] in h.s.free && h.pages[i] >= h.start
                        && PageOf(h.start, h.pages[i]) <= i < PageOf(h.start, h.pages[i]) + SLAB_PAGES)
  }

  ghost predicate HeapOk(h: Heap) {
    && h.start > 0 && SlabsOk(h.s) && ChunksOk(h.live, |h.pages|)
    && (forall a :: a in h.s.free ==> RegionOk(h, a))
    && (forall i :: 0 <= i < |h.pages| ==> PageOk(h, i))
  }

  /** x is a slot of slab a that was handed out. */
  ghost predicate SlotOut(s: Slabs, a: nat, x: nat, len: nat)
    requires Keyed(s)
  {
    a in s.free && IsSlot(a, s.orderOf[a], x) && x !in s.free[a] && len == Pow(s.orderOf[a])
  }

  /** x is the address of the chunk at page p, and that was handed out as pages. */
  ghost predicate ChunkOut(h: Heap, p: nat, x: nat, len: nat) {
    p in h.live && x == Addr(h.start, p) && x !in h.s.free && len == PAGE_SIZE * Pow(h.live[p])
  }

  ghost predicate SlotBlock(h: Heap, x: nat, len: nat)
    requires Keyed(h.s)
  {
    exists a :: SlotOut(h.s, a, x, len)
  }

  ghost predicate PageBlock(h: Heap, x: nat, len: nat) {
    exists p :: ChunkOut(h, p, x, len)
  }

  /** The live blocks: what callers of kmalloc own. */
  ghost predicate Block(h: Heap, x: nat, len: nat)
    requires Keyed(h.s)
  {
    SlotBlock(h, x, len) || PageBlock(h, x, len)
  }

  lemma PowNine()
    ensures Pow(SLAB_PAGE_ORDER) == SLAB_PAGES
  {
    PowSmall();
  }

  lemma PageOfAddr(start: nat, p: nat, d: nat)
    requires d < PAGE_SIZE
    ensures PageOf(start, Addr(start, p) + d) == p
  {
  }

  /** A slot lies in its slab's chunk, so its page names the slab. */
  lemma SlotRoute(h: Heap, a: nat, x: nat)
    requires HeapOk(h) && a in h.s.free && IsSlot(a, h.s.orderOf[a], x)
    ensures h.start <= a < x < a + SLAB_INIT_SIZE
            && PageOf(h.start, a) <= PageOf(h.start, x) < PageOf(h.start, a) + SLAB_PAGES
    ensures 0 <= PageOf(h.start, x) < |h.pages| && h.pages[PageOf(h.start, x)] == a
  {
    hide ChunksOk, PageOk, IsSlot, Chain, ClassesOk, Distinct, SlabModel.Apart;
    assert RegionOk(h, a) && FreeOkAt(h.s, a);
    SlotInside(a, h.s.orderOf[a], x);
    InRegion(h.start, PageOf(h.start, a), x);
  }

  lemma InRegion(start: nat, p: nat, x: nat)
    requires Addr(start, p) <= x < Addr(start, p) + SLAB_INIT_SIZE
    ensures p <= PageOf(start, x) < p + SLAB_PAGES
  {
  }

  lemma NamedPage(h: Heap, i: nat)
    requires HeapOk(h) && i < |h.pages| && h.pages[i] != 0
    ensures var a := h.pages[i];
            a in h.s.free && RegionOk(h, a) && PageOf(h.start, a) <= i < PageOf(h.start, a) + SLAB_PAGES
  {
    assert PageOk(h, i);
  }

  /** The first page of a chunk that is no slab names no slab. */
  lemma PageRoute(h: Heap, p: nat)
    requires HeapOk(h) && p in h.live && Addr(h.start, p) !in h.s.free
    ensures p < |h.pages| && h.pages[p] == 0
  {
    assert p + Pow(h.live[p]) <= |h.pages|;
    hide SlabsOk, PageOk, ChunksOk, Pow;
    PowNine();
    if h.pages[p] != 0 {
      NamedPage(h, p);
      ChunkHead(h.live, |h.pages|, PageOf(h.start, h.pages[p]), p);
    }
  }

  /** A chunk starts at no page of another. */
  lemma ChunkHead(live: map<nat, nat>, n: nat, q: nat, p: nat)
    requires ChunksOk(live, n) && q in live && p in live && q <= p < q + Pow(live[q])
    ensures p == q
  {
  }

  /** The bytes of a chunk do not reach the next one. */
  lemma ChunkBytes(h: Heap, p: nat, q: nat)
    requires HeapOk(h) && p in h.live && q in h.live && p < q
    ensures Addr(h.start, p) + PAGE_SIZE * Pow(h.live[p]) <= Addr(h.start, q)
  {
  }

  /** Where the bytes of a live block are: in one chunk, and if that is a slab, in one slot. */
  ghost predicate Located(h: Heap, x: nat, len: nat, p: nat) {
    p in h.live && Addr(h.start, p) <= x && x + len <= Addr(h.start, p) + PAGE_SIZE * Pow(h.live[p])
  }

  lemma LocateSlot(h: Heap, x: nat, len: nat, a: nat)
    requires HeapOk(h) && a in h.s.free && IsSlot(a, h.s.orderOf[a], x) && len == Pow(h.s.orderOf[a])
    ensures PageOf(h.start, a) >= 0 && Located(h, x, len, PageOf(h.start, a))
  {
    assert RegionOk(h, a) && FreeOkAt(h.s, a);
    SlotInside(a, h.s.orderOf[a], x);
    PowNine();
  }

  /** Live blocks do not overlap. */
  lemma BlocksApart(h: Heap, x: nat, lx: nat, y: nat, ly: nat)
    requires HeapOk(h) && Block(h, x, lx) && Block(h, y, ly) && (x != y || lx != ly)
    ensures x + lx <= y || y + ly <= x
  {
    hide SlabsOk, RegionOk, PageOk;
    var p := Locate(h, x, lx);
    var q := Locate(h, y, ly);
    if p < q {
      ChunkBytes(h, p, q);
    } else if q < p {
      ChunkBytes(h, q, p);
    } else {
      SameChunk(h, x, lx, y, ly, p);
    }
  }

  lemma Locate(h: Heap, x: nat, len: nat) returns (p: nat)
    requires HeapOk(h) && Block(h, x, len)
    ensures Located(h, x, len, p)
    ensures (SlotBlock(h, x, len) && Addr(h.start, p) in h.s.free
            && IsSlot(Addr(h.start, p), h.s.orderOf[Addr(h.start, p)], x)
             && len == Pow(h.s.orderOf[Addr(h.start, p)]))
            || (x == Addr(h.start, p) && x !in h.s.free && len == PAGE_SIZE * Pow(h.live[p]))
  {
    if SlotBlock(h, x, len) {
      var a :| SlotOut(h.s, a, x, len);
      LocateSlot(h, x, len, a);
      assert RegionOk(h, a);
      p := PageOf(h.start, a);
    } else {
      p :| ChunkOut(h, p, x, len);
    }
  }

  lemma SameChunk(h: Heap, x: nat, lx: nat, y: nat, ly: nat, p: nat)
    requires HeapOk(h) && (x != y || lx != ly) && p in h.live
    requires var a := Addr(h.start, p);
             || (a in h.s.free && IsSlot(a, h.s.orderOf[a], x) && lx == Pow(h.s.orderOf[a]))
             || (x == a && x !in h.s.free && lx == PAGE_SIZE * Pow(h.live[p]))
    requires var a := Addr(h.start, p);
             || (a in h.s.free && IsSlot(a, h.s.orderOf[a], y) && ly == Pow(h.s.orderOf[a]))
             || (y == a && y !in h.s.free && ly == PAGE_SIZE * Pow(h.live[p]))
    ensures x + lx <= y || y + ly <= x
  {
    hide FreeOk, ClassesOk, Apart, RegionOk, PageOk, ChunksOk, IsSlot;
    var a := Addr(h.start, p);
    assert a in h.s.free && lx == ly && x != y;
    if x < y {
      SlotsApart(a, h.s.orderOf[a], x, y);
    } else {
      SlotsApart(a, h.s.orderOf[a], y, x);
    }
  }

  // What each step does to the heap and to the live blocks.

  /** From h to h' exactly the block x of len bytes was added, where there was none. */
  ghost predicate Gained(h: Heap, h': Heap, x: nat, len: nat)
    requires Keyed(h.s) && Keyed(h'.s)
  {
    && (forall l :: !Block(h, x, l))
    && forall y, l :: Block(h', y, l) <==> Block(h, y, l) || (y == x && l == len)
  }

  ghost predicate Lost(h: Heap, h': Heap, x: nat)
    requires Keyed(h.s) && Keyed(h'.s)
  {
    forall y, l :: Block(h', y, l) <==> Block(h, y, l) && y != x
  }

  ghost predicate SameBlocks(h: Heap, h': Heap)
    requires Keyed(h.s) && Keyed(h'.s)
  {
    forall y, l :: Block(h', y, l) <==> Block(h, y, l)
  }

  /** Only the free lists differ. */
  lemma FreeListsOnly(h: Heap, s': Slabs)
    requires HeapOk(h) && SlabsOk(s') && s'.free.Keys == h.s.free.Keys
    ensures HeapOk(h.(s := s'))
  {
    hide SlabsOk, ChunksOk;
    var h' := h.(s := s');
    forall a | a in h'.s.free
      ensures RegionOk(h', a)
    {
      assert RegionOk(h, a);
    }
    forall i | 0 <= i < |h'.pages|
      ensures PageOk(h', i)
    {
      assert PageOk(h, i);
    }
  }

  lemma PopSlots(s: Slabs, a: nat, b: nat, y: nat, l: nat)
    requires Keyed(s) && a in s.free && FreeOkAt(s, a) && s.free[a] != [] && s.head[a] in s.nextFree
    ensures SlotOut(Pop(s, a), b, y, l) <==>
              SlotOut(s, b, y, l) || (b == a && y == s.free[a][0] && l == Pow(s.orderOf[a]))
  {
    var q := s.free[a];
    assert q == [q[0]] + q[1..] && q[0] in q && q[0] !in q[1..];
    hide Chain, Distinct, IsSlot, Pow;
  }

  lemma PopBlocks(h: Heap, a: nat, y: nat, l: nat)
    requires Keyed(h.s) && a in h.s.free && FreeOkAt(h.s, a) && h.s.free[a] != [] && h.s.head[a] in h.s.nextFree
    ensures Block(h.(s := Pop(h.s, a)), y, l) <==> Block(h, y, l) || (y == h.s.free[a][0] && l == Pow(h.s.orderOf[a]))
  {
    var h', x, k := h.(s := Pop(h.s, a)), h.s.free[a][0], h.s.orderOf[a];
    SameChunksOut(h, h', y, l);
    hide FreeOkAt, SlotOut, Pow, PageBlock, Pop;
    PopSlots(h.s, a, a, x, Pow(k));
    forall b: nat
      ensures SlotOut(h'.s, b, y, l) <==> SlotOut(h.s, b, y, l) || (b == a && y == x && l == Pow(k))
    {
      PopSlots(h.s, a, b, y, l);
    }
  }

  lemma PopGained(h: Heap, h': Heap, a: nat, x: nat, len: nat)
    requires HeapOk(h) && a in h.s.free && h.s.free[a] != [] && h.s.head[a] in h.s.nextFree
    requires h' == h.(s := Pop(h.s, a)) && Keyed(h'.s) && x == h.s.free[a][0] && len == Pow(h.s.orderOf[a])
    ensures Gained(h, h', x, len)
  {
    hide RegionOk, PageOk, ChunksOk, ClassesOk, Apart, FreeOkAt, Block, Pow, Pop;
    assert FreeOkAt(h.s, a);
    forall y, l
      ensures Block(h', y, l) <==> Block(h, y, l) || (y == x && l == len)
    {
      PopBlocks(h, a, y, l);
    }
    forall l
      ensures !Block(h, x, l)
    {
      FreeNoBlock(h, a, x, l);
    }
  }

  /** Taking the first free slot of slab a hands out that slot and nothing else. */
  lemma PopGains(h: Heap, a: nat)
    requires HeapOk(h) && a in h.s.free && h.s.free[a] != []
    ensures h.s.head[a] in h.s.nextFree && h.s.head[a] == h.s.free[a][0]
    ensures var h' := h.(s := Pop(h.s, a));
            HeapOk(h') && Gained(h, h', h.s.free[a][0], Pow(h.s.orderOf[a]))
  {
    PopKeeps(h.s, a);
    hide RegionOk, PageOk, ChunksOk, FreeOk, ClassesOk, Apart, Gained, Pow;
    var h' := h.(s := Pop(h.s, a));
    FreeListsOnly(h, h'.s);
    PopGained(h, h', a, h.s.free[a][0], Pow(h.s.orderOf[a]));
  }

  /** A free slot is no live block. */
  lemma FreeNoBlock(h: Heap, a: nat, x: nat, l: nat)
    requires HeapOk(h) && a in h.s.free && x in h.s.free[a]
    ensures !Block(h, x, l)
  {
    assert FreeOkAt(h.s, a);
    hide FreeOk, ClassesOk, Apart, RegionOk, PageOk, ChunksOk, IsSlot, Pow, PageBlock;
    SlotNoChunk(h, a, x, l);
    forall b: nat
      ensures !SlotOut(h.s, b, x, l)
    {
      if SlotOut(h.s, b, x, l) {
        OutOfOne(h.s, a, x, b, l);
      }
    }
  }

  lemma SameChunksOut(h: Heap, h': Heap, y: nat, l: nat)
    requires h'.live == h.live && h'.start == h.start && h'.s.free.Keys == h.s.free.Keys
    ensures PageBlock(h', y, l) <==> PageBlock(h, y, l)
  {
    hide Pow;
    assert forall p: nat :: ChunkOut(h', p, y, l) <==> ChunkOut(h, p, y, l);
  }

  lemma PushSlots(s: Slabs, a: nat, x: nat, b: nat, y: nat, l: nat)
    requires Keyed(s) && a in s.free
    ensures SlotOut(Push(s, a, x), b, y, l) <==> SlotOut(s, b, y, l) && !(b == a && y == x)
  {
    hide IsSlot, Pow;
  }

  lemma OutOfOne(s: Slabs, a: nat, x: nat, b: nat, l: nat)
    requires SlabsOk(s) && a in s.free && IsSlot(a, s.orderOf[a], x) && SlotOut(s, b, x, l)
    ensures a == b
  {
    hide IsSlot, Pow, FreeOk, ClassesOk, Apart;
    SlotOfOne(s, a, b, x);
  }

  lemma PushBlocks(h: Heap, h': Heap, a: nat, x: nat, y: nat, l: nat)
    requires HeapOk(h) && a in h.s.free && IsSlot(a, h.s.orderOf[a], x) && h' == h.(s := Push(h.s, a, x)) && Keyed(h'.s)
    ensures Block(h', y, l) <==> Block(h, y, l) && y != x
  {
    hide RegionOk, PageOk, ChunksOk, FreeOk, ClassesOk, Apart, IsSlot, SlotOut, PageBlock, Pow, Push;
    PushChunks(h, a, x, y, l);
    forall b: nat
      ensures SlotOut(h'.s, b, y, l) <==> SlotOut(h.s, b, y, l) && y != x
    {
      PushSlots(h.s, a, x, b, y, l);
      if y == x && SlotOut(h.s, b, x, l) {
        OutOfOne(h.s, a, x, b, l);
      }
    }
  }

  /** Giving slot x back ends that block and no other. */
  lemma PushLoses(h: Heap, a: nat, x: nat)
    requires HeapOk(h) && a in h.s.free && IsSlot(a, h.s.orderOf[a], x) && x !in h.s.free[a]
    ensures var h' := h.(s := Push(h.s, a, x));
            HeapOk(h') && Lost(h, h', x)
  {
    hide RegionOk, PageOk, ChunksOk, FreeOk, ClassesOk, Apart, IsSlot, Block, Push;
    PushKeeps(h.s, a, x);
    var h' := h.(s := Push(h.s, a, x));
    PushKeys(h.s, a, x);
    FreeListsOnly(h, h'.s);
    forall y, l
      ensures Block(h', y, l) <==> Block(h, y, l) && y != x
    {
      PushBlocks(h, h', a, x, y, l);
    }
  }

  lemma PushKeys(s: Slabs, a: nat, x: nat)
    requires Keyed(s) && a in s.free
    ensures Push(s, a, x).free.Keys == s.free.Keys && Keyed(Push(s, a, x))
  {
  }

  lemma PushChunks(h: Heap, a: nat, x: nat, y: nat, l: nat)
    requires HeapOk(h) && a in h.s.free && IsSlot(a, h.s.orderOf[a], x)
    ensures PageBlock(h.(s := Push(h.s, a, x)), y, l) <==> PageBlock(h, y, l)
    ensures PageBlock(h, y, l) ==> y != x
  {
    hide FreeOk, ClassesOk, Apart, ChunksOk, RegionOk, PageOk, IsSlot, PageBlock;
    PushKeys(h.s, a, x);
    SameChunksOut(h, h.(s := Push(h.s, a, x)), y, l);
    SlotNoChunk(h, a, x, l);
  }

  /** A slot is not the address of a chunk that was handed out as pages. */
  lemma SlotNoChunk(h: Heap, a: nat, x: nat, l: nat)
    requires HeapOk(h) && a in h.s.free && IsSlot(a, h.s.orderOf[a], x)
    ensures !PageBlock(h, x, l)
  {
    hide FreeOk, ClassesOk, Apart, ChunksOk, RegionOk, PageOk, IsSlot, Pow, Addr, PageOf;
    SlotRoute(h, a, x);
    if p :| ChunkOut(h, p, x, l) {
      PageOfAddr(h.start, p, 0);
      PageRoute(h, p);
    }
  }

  /** Taking a chunk of pages. */
  lemma PagesGain(h: Heap, p: nat, k: nat)
    requires HeapOk(h) && p !in h.live && ChunksOk(h.live[p := k], |h.pages|)
    ensures var h' := h.(live := h.live[p := k]);
            HeapOk(h') && Gained(h, h', Addr(h.start, p), PAGE_SIZE * Pow(k))
  {
    var h' := h.(live := h.live[p := k]);
    hide FreeOk, ClassesOk, Apart, ChunksOk, Pow, SlotOut;
    PagesRegions(h, p, k);
    hide RegionOk, PageOk;
    assert ChunkOut(h', p, Addr(h.start, p), PAGE_SIZE * Pow(k));
    forall l
      ensures !Block(h, Addr(h.start, p), l)
    {
      NewNoBlock(h, p, k, l);
    }
    forall y, l
      ensures Block(h', y, l) <==> Block(h, y, l) || (y == Addr(h.start, p) && l == PAGE_SIZE * Pow(k))
    {
      forall q: nat
        ensures ChunkOut(h', q, y, l) <==>
                  ChunkOut(h, q, y, l) || (q == p && y == Addr(h.start, p) && l == PAGE_SIZE * Pow(k))
      {
      }
    }
  }

  /** The start of a new chunk was no live block. */
  lemma NewNoBlock(h: Heap, p: nat, k: nat, l: nat)
    requires HeapOk(h) && p !in h.live && ChunksOk(h.live[p := k], |h.pages|)
    ensures !Block(h, Addr(h.start, p), l)
  {
    var x := Addr(h.start, p);
    hide FreeOk, ClassesOk, Apart, PageOk, IsSlot;
    PageOfAddr(h.start, p, 0);
    forall q: nat
      ensures !ChunkOut(h, q, x, l)
    {
      PageOfAddr(h.start, q, 0);
    }
    forall b: nat
      ensures !SlotOut(h.s, b, x, l)
    {
      if SlotOut(h.s, b, x, l) {
        NewNoSlot(h, p, k, b);
        SlotRoute(h, b, x);
      }
    }
  }

  /** A new chunk starts in no slab. */
  lemma NewNoSlot(h: Heap, p: nat, k: nat, b: nat)
    requires HeapOk(h) && p !in h.live && ChunksOk(h.live[p := k], |h.pages|) && b in h.s.free
    ensures !(PageOf(h.start, b) <= p < PageOf(h.start, b) + SLAB_PAGES)
  {
    assert RegionOk(h, b);
    PowNine();
    hide SlabsOk, PageOk, Pow;
    var live, q := h.live[p := k], PageOf(h.start, b);
    assert q in live && p in live && p != q;
  }

  lemma PagesRegions(h: Heap, p: nat, k: nat)
    requires HeapOk(h) && p !in h.live
    ensures var h' := h.(live := h.live[p := k]);
            (forall a :: a in h.s.free ==> RegionOk(h', a)) && (forall i :: 0 <= i < |h.pages| ==> PageOk(h', i))
    ensures Addr(h.start, p) !in h.s.free
  {
    hide SlabsOk, ChunksOk;
    var h' := h.(live := h.live[p := k]);
    forall a | a in h.s.free
      ensures RegionOk(h', a) && a != Addr(h.start, p)
    {
      assert RegionOk(h, a);
    }
    forall i | 0 <= i < |h.pages|
      ensures PageOk(h', i)
    {
      assert PageOk(h, i);
    }
  }

  /** Giving a chunk of pages back. */
  lemma PagesLose(h: Heap, p: nat)
    requires HeapOk(h) && p in h.live && Addr(h.start, p) !in h.s.free
    ensures var h' := h.(live := h.live - {p});
            HeapOk(h') && Lost(h, h', Addr(h.start, p))
  {
    hide FreeOk, ClassesOk, Apart, ChunksOk, Pow, RegionOk, PageOk;
    var h' := h.(live := h.live - {p});
    LessRegions(h, p);
    LessChunks(h.live, |h.pages|, p);
    PageRoute(h, p);
    forall y, l
      ensures Block(h', y, l) <==> Block(h, y, l) && y != Addr(h.start, p)
    {
      forall q: nat
        ensures ChunkOut(h', q, y, l) <==> ChunkOut(h, q, y, l) && y != Addr(h.start, p)
      {
      }
      forall b: nat | SlotOut(h.s, b, y, l)
        ensures y != Addr(h.start, p)
      {
        SlotRoute(h, b, y);
      }
    }
  }

  lemma LessChunks(live: map<nat, nat>, n: nat, p: nat)
    requires ChunksOk(live, n)
    ensures ChunksOk(live - {p}, n)
  {
    hide Pow;
  }

  lemma LessRegions(h: Heap, p: nat)
    requires HeapOk(h) && Addr(h.start, p) !in h.s.free
    ensures var h' := h.(live := h.live - {p});
            (forall a :: a in h.s.free ==> RegionOk(h', a)) && (forall i :: 0 <= i < |h.pages| ==> PageOk(h', i))
  {
    hide SlabsOk, ChunksOk;
    var h' := h.(live := h.live - {p});
    forall a | a in h.s.free
      ensures RegionOk(h', a)
    {
      assert RegionOk(h, a);
    }
    forall i | 0 <= i < |h.pages|
      ensures PageOk(h', i)
    {
      assert PageOk(h, i);
    }
  }

  // A new slab.

  /** The pages from p on name slab a. */
  ghost predicate Renamed(pages: seq<nat>, pages': seq<nat>, p: nat, a: nat) {
    && |pages'| == |pages| && p + SLAB_PAGES <= |pages|
    && forall i :: 0 <= i < |pages| ==> pages'[i] == if p <= i < p + SLAB_PAGES then a else pages[i]
  }

  /** A slab in the new chunk at page p, cut up for order k and all free. */
  function Grown(h: Heap, p: nat, k: nat, q: seq<nat>, next: map<nat, nat>, pages: seq<nat>): Heap
    requires k < |h.s.first| && k < |h.s.classes| && q != []
  {
    Heap(Add(h.s, Addr(h.start, p), k, q, next), h.start, h.live[p := SLAB_PAGE_ORDER], pages)
  }

  ghost predicate MayGrow(h: Heap, p: nat, k: nat, q: seq<nat>, next: map<nat, nat>, pages: seq<nat>) {
    var a := Addr(h.start, p);
    && InRange(k) && p !in h.live && ChunksOk(h.live[p := SLAB_PAGE_ORDER], |h.pages|) && Renamed(h.pages, pages, p, a)
    && q == AllSlots(a, k) && q != [] && Chain(next, q[0], q)
    && forall x :: x in h.s.nextFree && (x <= a || a + SLAB_INIT_SIZE <= x) ==> x in next && next[x] == h.s.nextFree[x]
  }

  /** The new chunk is not in the chunk of another slab. */
  lemma NewRegion(h: Heap, p: nat, b: nat)
    requires HeapOk(h) && p !in h.live && ChunksOk(h.live[p := SLAB_PAGE_ORDER], |h.pages|) && b in h.s.free
    ensures var q := PageOf(h.start, b);
            && RegionOk(h, b) && (q + SLAB_PAGES <= p || p + SLAB_PAGES <= q)
            && (Addr(h.start, p) + SLAB_INIT_SIZE <= b || b + SLAB_INIT_SIZE <= Addr(h.start, p))
  {
    assert RegionOk(h, b);
    PowNine();
    hide SlabsOk, PageOk, Pow;
    var live, q := h.live[p := SLAB_PAGE_ORDER], PageOf(h.start, b);
    assert q in live && p in live && p != q;
  }

  lemma GrowMayAdd(h: Heap, p: nat, k: nat, q: seq<nat>, next: map<nat, nat>, pages: seq<nat>)
    requires HeapOk(h) && MayGrow(h, p, k, q, next, pages)
    ensures MayAdd(h.s, Addr(h.start, p), k, q, next)
  {
    AllSlotsExact(Addr(h.start, p), k);
    hide AllSlots, Chain, Distinct, IsSlot, SlabsOk, PageOk, RegionOk, Renamed;
    forall b | b in h.s.free
      ensures Addr(h.start, p) + SLAB_INIT_SIZE <= b || b + SLAB_INIT_SIZE <= Addr(h.start, p)
    {
      NewRegion(h, p, b);
    }
  }

  lemma GrowRegions(h: Heap, h': Heap, p: nat, a: nat, b: nat)
    requires HeapOk(h) && p !in h.live && ChunksOk(h.live[p := SLAB_PAGE_ORDER], |h.pages|) && b in h.s.free
    requires h'.start == h.start && h'.live == h.live[p := SLAB_PAGE_ORDER] && Renamed(h.pages, h'.pages, p, a)
    ensures RegionOk(h', b)
  {
    hide SlabsOk, PageOk, ChunksOk, RegionOk, Addr, Renamed, PageOf;
    NewRegion(h, p, b);
    RegionInPages(h, b);
    RenamedOutside(h.pages, h'.pages, p, a, PageOf(h.start, b));
    RegionFrame(h, h', b);
  }

  lemma RegionInPages(h: Heap, b: nat)
    requires RegionOk(h, b)
    ensures 0 <= PageOf(h.start, b) && PageOf(h.start, b) + SLAB_PAGES <= |h.pages|
  {
  }

  lemma RenamedOutside(pages: seq<nat>, pages': seq<nat>, p: nat, a: nat, q: nat)
    requires Renamed(pages, pages', p, a) && q + SLAB_PAGES <= |pages| && (q + SLAB_PAGES <= p || p + SLAB_PAGES <= q)
    ensures |pages'| == |pages| && forall i :: 0 <= i < |pages| && q <= i < q + SLAB_PAGES ==> pages'[i] == pages[i]
  {
  }

  lemma RegionFrame(h: Heap, h': Heap, b: nat)
    requires RegionOk(h, b) && h'.start == h.start && |h'.pages| == |h.pages|
    requires forall i :: 0 <= i < |h.pages| && PageOf(h.start, b) <= i < PageOf(h.start, b) + SLAB_PAGES ==>
               h'.pages[i] == h.pages[i]
    requires PageOf(h.start, b) in h.live ==>
               PageOf(h.start, b) in h'.live && h'.live[PageOf(h.start, b)] == h.live[PageOf(h.start, b)]
    ensures RegionOk(h', b)
  {
    hide Addr, PageOf;
  }

  lemma GrowRegion(h: Heap, p: nat, k: nat, q: seq<nat>, next: map<nat, nat>, pages: seq<nat>)
    requires HeapOk(h) && MayGrow(h, p, k, q, next, pages)
    ensures RegionOk(Grown(h, p, k, q, next, pages), Addr(h.start, p))
  {
    hide SlabsOk, PageOk, ChunksOk, Chain, AllSlots;
    PageOfAddr(h.start, p, 0);
  }

  lemma GrowPages(h: Heap, p: nat, k: nat, q: seq<nat>, next: map<nat, nat>, pages: seq<nat>, i: nat)
    requires HeapOk(h) && MayGrow(h, p, k, q, next, pages) && i < |h.pages|
    ensures i < |pages| && PageOk(Grown(h, p, k, q, next, pages), i)
  {
    assert PageOk(h, i);
    hide SlabsOk, RegionOk, ChunksOk, Chain, AllSlots;
    PageOfAddr(h.start, p, 0);
  }

  lemma GrownIs(h: Heap, p: nat, k: nat, q: seq<nat>, next: map<nat, nat>, pages: seq<nat>)
    requires k < |h.s.first| && k < |h.s.classes| && q != [] && MayGrow(h, p, k, q, next, pages)
    ensures var h', a := Grown(h, p, k, q, next, pages), Addr(h.start, p);
            && h'.s == Add(h.s, a, k, q, next) && h'.s.free.Keys == h.s.free.Keys + {a} && h'.pages == pages
            && h'.start == h.start
            && h'.live == h.live[p := SLAB_PAGE_ORDER] && |pages| == |h.pages| && ChunksOk(h'.live, |pages|)
            && Renamed(h.pages, pages, p, a) && p !in h.live
  {
    hide ChunksOk, Chain, AllSlots;
  }

  lemma GrowOk(h: Heap, p: nat, k: nat, q: seq<nat>, next: map<nat, nat>, pages: seq<nat>)
    requires HeapOk(h) && MayGrow(h, p, k, q, next, pages)
    ensures Addr(h.start, p) !in h.s.free && HeapOk(Grown(h, p, k, q, next, pages))
  {
    GrowSizes(h);
    hide SlabsOk, PageOk, RegionOk, ChunksOk, MayAdd, Renamed, Addr, Chain, AllSlots;
    var h', a := Grown(h, p, k, q, next, pages), Addr(h.start, p);
    GrownIs(h, p, k, q, next, pages);
    assert |pages| == |h.pages|;
    hide Grown, MayGrow, Add;
    GrowMayAdd(h, p, k, q, next, pages);
    AddKeeps(h.s, a, k, q, next);
    GrowRegion(h, p, k, q, next, pages);
    forall b | b in h'.s.free
      ensures RegionOk(h', b)
    {
      if b != a {
        GrowRegions(h, h', p, a, b);
      }
    }
    forall i | 0 <= i < |pages|
      ensures PageOk(h', i)
    {
      GrowPages(h, p, k, q, next, pages, i);
    }
  }

  /** A new slab, all of whose slots are free, hands out nothing. */
  lemma GrowKeeps(h: Heap, p: nat, k: nat, q: seq<nat>, next: map<nat, nat>, pages: seq<nat>)
    requires HeapOk(h) && MayGrow(h, p, k, q, next, pages)
    ensures Addr(h.start, p) !in h.s.free && HeapOk(Grown(h, p, k, q, next, pages))
            && SameBlocks(h, Grown(h, p, k, q, next, pages))
  {
    GrowOk(h, p, k, q, next, pages);
    GrowSizes(h);
    assert InRange(k) && p !in h.live && q == AllSlots(Addr(h.start, p), k) && q != [];
    hide FreeOk, ClassesOk, Apart, PageOk, RegionOk, ChunksOk, AllSlots, Block, MayGrow, Grown;
    forall y, l
      ensures Keyed(Grown(h, p, k, q, next, pages).s)
              && (Block(Grown(h, p, k, q, next, pages), y, l) <==> Block(h, y, l))
    {
      GrowBlocks(h, p, k, q, next, pages, y, l);
    }
  }

  lemma GrowBlocks(h: Heap, p: nat, k: nat, q: seq<nat>, next: map<nat, nat>, pages: seq<nat>, y: nat, l: nat)
    requires Keyed(h.s) && |h.s.first| == |h.s.classes| == SLAB_MAX_ORDER + 1 && InRange(k) && p !in h.live
             && Addr(h.start, p) !in h.s.free
    requires q == AllSlots(Addr(h.start, p), k) && q != []
    ensures Keyed(Grown(h, p, k, q, next, pages).s)
    ensures Block(Grown(h, p, k, q, next, pages), y, l) <==> Block(h, y, l)
  {
    var h', a := Grown(h, p, k, q, next, pages), Addr(h.start, p);
    hide AllSlots, Pow, SlotOut, ChunkOut, Block, Addr;
    forall b: nat
      ensures SlotOut(h'.s, b, y, l) <==> SlotOut(h.s, b, y, l)
    {
      AddSlots(h.s, a, k, q, next, b, y, l);
    }
    forall c: nat
      ensures ChunkOut(h', c, y, l) <==> ChunkOut(h, c, y, l)
    {
      GrowChunks(h, h', p, a, c, y, l);
    }
    BlockFrame(h, h', y, l);
  }

  lemma GrowSizes(h: Heap)
    requires HeapOk(h)
    ensures Keyed(h.s) && |h.s.first| == |h.s.classes| == SLAB_MAX_ORDER + 1
  {
  }

  lemma BlockFrame(h: Heap, h': Heap, y: nat, l: nat)
    requires Keyed(h.s) && Keyed(h'.s)
    requires forall b: nat :: SlotOut(h'.s, b, y, l) <==> SlotOut(h.s, b, y, l)
    requires forall c: nat :: ChunkOut(h', c, y, l) <==> ChunkOut(h, c, y, l)
    ensures Block(h', y, l) <==> Block(h, y, l)
  {
    hide SlotOut, ChunkOut;
  }

  lemma AddSlots(s: Slabs, a: nat, k: nat, q: seq<nat>, next: map<nat, nat>, b: nat, y: nat, l: nat)
    requires Keyed(s) && k < |s.first| && k < |s.classes| && a !in s.free && InRange(k) && q == AllSlots(a, k)
             && q != []
    ensures Keyed(Add(s, a, k, q, next)) && (SlotOut(Add(s, a, k, q, next), b, y, l) <==> SlotOut(s, b, y, l))
  {
    AllSlotsExact(a, k);
    hide AllSlots, IsSlot, Pow, Distinct;
  }

  lemma GrowChunks(h: Heap, h': Heap, p: nat, a: nat, c: nat, y: nat, l: nat)
    requires h'.start == h.start && h'.live == h.live[p := SLAB_PAGE_ORDER] && h'.s.free.Keys == h.s.free.Keys + {a}
    requires p !in h.live && a == Addr(h.start, p)
    ensures ChunkOut(h', c, y, l) <==> ChunkOut(h, c, y, l)
  {
    hide Pow;
    PageOfAddr(h.start, c, 0);
    PageOfAddr(h.start, p, 0);
  }
}
