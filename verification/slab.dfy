/** The slab allocator and kmalloc, on top of the page allocator. */
module Slab {
  import opened Sequences
  import opened Wrappers
  import opened Pow2
  import BuddyModel
  import Buddy
  import opened SlabModel
  import opened HeapModel

  /** The chunks a sound pool has handed out lie in the pool and do not overlap. */
  lemma LiveChunks(m: BuddyModel.Meta)
    requires BuddyModel.Tiled(m)
    ensures ChunksOk(BuddyModel.Live(m), |m.owner|)
  {
    var live := BuddyModel.Live(m);
    forall p, q | p in live && q in live && p < q
      ensures p + Pow(live[p]) <= q
    {
      assert BuddyModel.Head(m, p) && BuddyModel.Head(m, q);
      assert !BuddyModel.InChunk(m, p, q);
    }
    forall p | p in live
      ensures p + Pow(live[p]) <= |m.owner|
    {
      assert BuddyModel.Head(m, p);
    }
  }

  /** size_to_order: the least order that is big enough. */
  method SizeToOrder(size: nat) returns (order: nat)
    requires size < 0x80000000
    ensures size <= Pow(order) && (order > 0 ==> Pow(order - 1) < size)
  {
    order := 0;
    var tmp := size;
    while tmp > 1
      invariant Pow(order) * tmp <= size < Pow(order) * (tmp + 1)
      invariant tmp >= 1 || (size == 0 && order == 0)
    {
      HalveStep(Pow(order), tmp);
      tmp := tmp / 2;
      order := order + 1;
    }
    if size > Pow(order) {
      order := order + 1;
    }
  }

  lemma HalveStep(p: nat, t: nat)
    ensures (2 * p) * (t / 2) <= p * t && p * (t + 1) <= (2 * p) * (t / 2 + 1)
  {
    var h := t / 2;
    assert t == 2 * h || t == 2 * h + 1;
    assert (2 * p) * h == p * (2 * h);
    assert (2 * p) * (h + 1) == p * (2 * h + 2);
    MulLe(2 * h, t, p);
    MulLe(t + 1, 2 * h + 2, p);
  }

  /** size_to_page_order: the least order whose chunks hold `size` bytes, while the number of pages fits an int. */
  method SizeToPageOrder(size: nat) returns (order: nat)
    requires size <= PAGE_SIZE * 0x7fffffff
    ensures size <= PAGE_SIZE * Pow(order) && (order > 0 ==> PAGE_SIZE * Pow(order - 1) < size)
  {
    order := 0;
    var pages := (size + PAGE_SIZE - 1) / PAGE_SIZE;
    var tmp := pages;
    while tmp > 1
      invariant Pow(order) * tmp <= pages < Pow(order) * (tmp + 1)
      invariant tmp >= 1 || (pages == 0 && order == 0)
    {
      HalveStep(Pow(order), tmp);
      tmp := tmp / 2;
      order := order + 1;
    }
    if pages > Pow(order) {
      order := order + 1;
    }
  }

  function NoSlabs(): Slabs {
    Slabs(map[], map[], map[], map[], seq(SLAB_MAX_ORDER + 1, i => 0), map[], seq(SLAB_MAX_ORDER + 1, i => []))
  }

  lemma NoSlabsOk(h: Heap)
    requires h.s == NoSlabs() && h.start > 0 && ChunksOk(h.live, |h.pages|)
             && forall i :: 0 <= i < |h.pages| ==> h.pages[i] == 0
    ensures HeapOk(h)
  {
    hide ChunksOk;
  }

  /** Slot number j of slab a, counted from 0. */
  function Nth(a: nat, k: nat, j: nat): nat {
    SlotAt(a, k, j + 1)
  }

  /** The first n slots of slab a lead each to the next. */
  ghost predicate Linked(next: map<nat, nat>, a: nat, k: nat, n: int) {
    forall j: nat :: j < n ==> Nth(a, k, j) in next && next[Nth(a, k, j)] == Nth(a, k, j + 1)
  }

  /** Nothing changed outside the slab at a. */
  ghost predicate Outside(next: map<nat, nat>, next': map<nat, nat>, a: nat) {
    forall x :: x in next && (x <= a || a + SLAB_INIT_SIZE <= x) ==> x in next' && next'[x] == next[x]
  }

  lemma NthOrder(a: nat, k: nat, i: nat, j: nat)
    requires i < j
    ensures Nth(a, k, i) + Pow(k) <= Nth(a, k, j)
  {
    MulLe(i + 2, j + 1, Pow(k));
    assert (i + 2) * Pow(k) == (i + 1) * Pow(k) + Pow(k);
  }

  lemma LinkNone(next: map<nat, nat>, a: nat, k: nat)
    ensures Linked(next, a, k, 0) && Outside(next, next, a)
  {
  }

  lemma LinkStep(next: map<nat, nat>, a: nat, k: nat, i: nat, v: nat)
    requires Linked(next, a, k, i)
    ensures Linked(next[Nth(a, k, i) := v], a, k, i)
    ensures Nth(a, k, i) + Pow(k) == Nth(a, k, i + 1)
    ensures v == Nth(a, k, i) + Pow(k) ==> Linked(next[Nth(a, k, i) := v], a, k, i + 1)
  {
    assert (i + 2) * Pow(k) == (i + 1) * Pow(k) + Pow(k);
    forall j: nat | j < i
      ensures Nth(a, k, j) != Nth(a, k, i)
    {
      NthOrder(a, k, j, i);
    }
    assert Nth(a, k, i) + Pow(k) == Nth(a, k, i + 1);
    hide Nth, Pow;
  }

  lemma OutsideStep(next0: map<nat, nat>, next: map<nat, nat>, a: nat, k: nat, i: nat, v: nat)
    requires Outside(next0, next, a) && InRange(k) && i < Count(k)
    ensures Outside(next0, next[Nth(a, k, i) := v], a)
  {
    assert IsSlot(a, k, SlotAt(a, k, i + 1));
    SlotInside(a, k, SlotAt(a, k, i + 1));
    hide SlotAt, Pow;
  }

  /** The links that the loop stores make the list of all slots. */
  lemma LinkedChain(next: map<nat, nat>, a: nat, k: nat)
    requires InRange(k) && a > 0 && Count(k) >= 1 && Linked(next, a, k, Count(k) - 1)
    requires Nth(a, k, Count(k) - 1) in next && next[Nth(a, k, Count(k) - 1)] == 0
    ensures AllSlots(a, k) != [] && AllSlots(a, k)[0] == a + Power(k) && Chain(next, AllSlots(a, k)[0], AllSlots(a, k))
  {
    var q := AllSlots(a, k);
    assert forall i: nat :: i < |q| ==> q[i] == Nth(a, k, i);
    assert forall i: nat :: i < |q| ==> Nth(a, k, i) != 0;
    hide Nth, Pow, AllSlots, Count;
    forall i: nat | i < |q|
      ensures LinkOk(next, q, i)
    {
    }
  }

  /** The new slab may join the heap. */
  lemma GrownMay(h: Heap, p: nat, k: nat, next0: map<nat, nat>, next: map<nat, nat>, pages: seq<nat>)
    requires InRange(k) && p !in h.live && ChunksOk(h.live[p := SLAB_PAGE_ORDER], |h.pages|) && h.start > 0
    requires Renamed(h.pages, pages, p, Addr(h.start, p)) && h.s.nextFree == next0
             && Outside(next0, next, Addr(h.start, p))
    requires Count(k) >= 1 && Linked(next, Addr(h.start, p), k, Count(k) - 1)
    requires Nth(Addr(h.start, p), k, Count(k) - 1) in next && next[Nth(Addr(h.start, p), k, Count(k) - 1)] == 0
    ensures MayGrow(h, p, k, AllSlots(Addr(h.start, p), k), next, pages)
  {
    hide ChunksOk, Renamed, Linked, Count, Nth, Chain, AllSlots;
    LinkedChain(next, Addr(h.start, p), k);
  }

  /** The first slab of the list that has a free slot; the length of the list if there is none. */
  ghost function FirstWith(free: map<nat, seq<nat>>, q: seq<nat>): (i: nat)
    ensures i <= |q| && (i < |q| ==> q[i] in free && free[q[i]] != [])
    ensures forall j :: 0 <= j < i ==> !(q[j] in free && free[q[j]] != [])
  {
    if q == [] || (q[0] in free && free[q[0]] != []) then 0 else 1 + FirstWith(free, q[1..])
  }

  /** The links of slab number i on the slab list of order k. */
  lemma ClassLink(s: Slabs, k: nat, i: nat)
    requires SlabsOk(s) && InRange(k) && k < |s.classes| && i < |s.classes[k]|
    ensures k < |s.first| && s.first[k] == s.classes[k][0]
    ensures var a := s.classes[k][i];
            && a != 0 && a in s.free && a in s.head && a in s.nextSlab && a in s.orderOf && s.orderOf[a] == k
            && s.nextSlab[a] == NextIn(s.classes[k], i) && (s.head[a] == 0 <==> s.free[a] == [])
  {
    var q := s.classes[k];
    assert LinkOk(s.nextSlab, q, i);
    assert q[i] in q;
    assert FreeOkAt(s, q[i]);
    assert s.free[q[i]] != [] ==> LinkOk(s.nextFree, s.free[q[i]], 0);
  }

  function NextIn(q: seq<nat>, i: nat): nat {
    if i + 1 < |q| then q[i + 1] else 0
  }

  /** After a new slab the search ends at once. */
  lemma NewServes(h: Heap, h1: Heap, k: nat)
    requires k < |h1.s.first| && k < |h1.s.classes| && k < |h.s.classes| && InRange(k)
    requires h1.s.classes == h.s.classes[k := [h1.s.first[k]] + h.s.classes[k]]
    requires h1.s.free == h.s.free[h1.s.first[k] := AllSlots(h1.s.first[k], k)]
    ensures FirstWith(h1.s.free, h1.s.classes[k]) == 0 && AllSlots(h1.s.first[k], k) != []
  {
    AllSlotsExact(h1.s.first[k], k);
  }

  /** What an allocation from s takes: the first free slot of the first slab that has one, or else of a new slab. */
  ghost predicate Served(s: Slabs, s': Slabs, k: nat, x: nat)
    requires k < |s.classes|
  {
    var i := FirstWith(s.free, s.classes[k]);
    if i < |s.classes[k]| then
      var a := s.classes[k][i];
      s'.classes == s.classes && s'.first == s.first && x == s.free[a][0] && s'.free == s.free[a := s.free[a][1..]]
    else
      && k < |s'.first| && var a := s'.first[k];
      && a !in s.free && s'.classes == s.classes[k := [a] + s.classes[k]]
      && AllSlots(a, k) != [] && x == AllSlots(a, k)[0] && s'.free == s.free[a := AllSlots(a, k)[1..]]
  }

  /** No slab list becomes empty. */
  lemma ServedLists(s: Slabs, s': Slabs, k: nat, x: nat)
    requires k < |s.classes| && Served(s, s', k, x)
    ensures |s'.classes| == |s.classes|
    ensures forall j :: 0 <= j < |s.classes| && s.classes[j] != [] ==> s'.classes[j] != []
  {
    hide FirstWith, AllSlots;
  }

  lemma TakeServed(s: Slabs, s': Slabs, k: nat, a: nat, x: nat)
    requires k < |s.classes| && FirstWith(s.free, s.classes[k]) < |s.classes[k]|
             && a == s.classes[k][FirstWith(s.free, s.classes[k])]
    requires a in s.free && s.free[a] != [] && x == s.free[a][0] && s'.free == s.free[a := s.free[a][1..]]
    requires s'.classes == s.classes && s'.first == s.first
    ensures Served(s, s', k, x)
  {
    hide FirstWith;
  }

  lemma NewServed(s: Slabs, s1: Slabs, s2: Slabs, k: nat, x: Option<nat>)
    requires k < |s.classes| && k < |s1.classes| && k < |s1.first| && FirstWith(s.free, s.classes[k]) == |s.classes[k]|
    requires s1.first[k] !in s.free && s1.classes == s.classes[k := [s1.first[k]] + s.classes[k]]
    requires s1.free == s.free[s1.first[k] := AllSlots(s1.first[k], k)] && AllSlots(s1.first[k], k) != []
    requires FirstWith(s1.free, s1.classes[k]) == 0
    ensures x.Some? && Served(s1, s2, k, x.value) ==> Served(s, s2, k, x.value)
  {
    hide FirstWith, AllSlots;
  }

  /** The slab that an allocation takes its slot from. */
  lemma ServedFrom(s: Slabs, s1: Slabs, k: nat, x: nat) returns (b: nat)
    requires SlabsOk(s) && SlabsOk(s1) && InRange(k) && Served(s, s1, k, x)
    ensures b in s1.free && s1.orderOf[b] == k && IsSlot(b, k, x)
    ensures var i := FirstWith(s.free, s.classes[k]);
            if i < |s.classes[k]| then b == s.classes[k][i] else b == s1.first[k]
  {
    hide FirstWith, Chain, Distinct, AllSlots, IsSlot, Apart;
    var i := FirstWith(s.free, s.classes[k]);
    if i < |s.classes[k]| {
      b := s.classes[k][i];
      assert b in s1.classes[k] && FreeOkAt(s, b);
      assert x in s.free[b];
    } else {
      b := s1.first[k];
      assert s1.classes[k][0] == b;
      AllSlotsExact(b, k);
    }
  }

  /**
    * Last in, first out: a slot given back right after it was taken is what the next allocation of its class takes,
    * and if its slab is an old one, all free lists are as they were before.
    */
  lemma FreedIsNext(s: Slabs, s1: Slabs, s2: Slabs, s3: Slabs, k: nat, a: nat, x: nat, y: nat)
    requires SlabsOk(s) && SlabsOk(s1) && InRange(k) && k < |s.classes| && k < |s1.classes| && Served(s, s1, k, x)
    requires SlotOut(s1, a, x, Pow(k)) && s2.free == s1.free[a := [x] + s1.free[a]] && s2.classes == s1.classes
    requires Served(s2, s3, k, y)
    ensures y == x
    ensures FirstWith(s.free, s.classes[k]) < |s.classes[k]| ==> s2.free == s.free
  {
    hide FreeOk, ClassesOk, Apart, IsSlot, AllSlots, Pow;
    var b := ServedFrom(s, s1, k, x);
    SlotOfOne(s1, a, b, x);
    var i := FirstWith(s.free, s.classes[k]);
    if i < |s.classes[k]| {
      assert [x] + s.free[a][1..] == s.free[a];
      assert s2.free == s.free;
    } else {
      assert s2.classes[k][0] == a;
      assert [x] + AllSlots(a, k)[1..] == AllSlots(a, k);
    }
  }

  lemma NewGains(h: Heap, h1: Heap, h2: Heap, x: Option<nat>, len: nat)
    requires Keyed(h.s) && Keyed(h1.s) && Keyed(h2.s) && SameBlocks(h, h1)
    ensures x.Some? && Gained(h1, h2, x.value, len) ==> Gained(h, h2, x.value, len)
  {
    hide Block;
  }

  lemma SmallSize(size: nat)
    requires size <= Pow(SLAB_MAX_ORDER)
    ensures size <= 2048
  {
    PowSmall();
  }

  /** The page's slab field tells the two kinds of blocks apart. */
  lemma BlockRoute(h: Heap, x: nat, len: nat) returns (a: nat, p: nat)
    requires HeapOk(h) && Block(h, x, len)
    ensures h.start <= x && 0 <= PageOf(h.start, x) < |h.pages|
    ensures h.pages[PageOf(h.start, x)] != 0 ==> SlotOut(h.s, a, x, len)
    ensures h.pages[PageOf(h.start, x)] == 0 ==> p == PageOf(h.start, x) && ChunkOut(h, p, x, len)
  {
    a, p := 0, 0;
    hide FreeOk, ClassesOk, Apart, RegionOk, PageOk, ChunksOk, Pow, IsSlot;
    if SlotBlock(h, x, len) {
      a :| SlotOut(h.s, a, x, len);
      SlotRoute(h, a, x);
    } else {
      p :| ChunkOut(h, p, x, len);
      PageRoute(h, p);
      PageOfAddr(h.start, p, 0);
    }
  }

  lemma PageOrderBound(size: nat)
    requires size <= PAGE_SIZE * Pow(BuddyModel.MAX_ORDER - 1)
    ensures size <= PAGE_SIZE * 0x7fffffff
  {
    PowDouble(11);
    PowDouble(12);
    PowSmall();
  }

  lemma PageOrderFits(size: nat, order: nat)
    requires size <= PAGE_SIZE * Pow(BuddyModel.MAX_ORDER - 1)
    requires size <= PAGE_SIZE ==> order == 0
    requires size > PAGE_SIZE ==>
               size <= PAGE_SIZE * Pow(order) && (order > 0 ==> PAGE_SIZE * Pow(order - 1) < size)
    ensures ChunkOf(size, order)
  {
    if order >= BuddyModel.MAX_ORDER {
      PowMono(BuddyModel.MAX_ORDER - 1, order - 1);
    }
  }

  /** The order of a small size, raised to the least one if need be, is its size class. */
  lemma SlabOrder(size: nat, order: nat)
    requires size <= Pow(SLAB_MAX_ORDER) && size <= Pow(order) && (order > 0 ==> Pow(order - 1) < size)
    ensures ClassOf(size, if order < SLAB_MIN_ORDER then SLAB_MIN_ORDER else order)
  {
    PowSmall();
    if order > SLAB_MAX_ORDER {
      PowMono(SLAB_MAX_ORDER, order - 1);
    }
    if order < SLAB_MIN_ORDER {
      PowMono(order, SLAB_MIN_ORDER);
    }
  }

  /** The size class of a small size: the least that holds it. */
  ghost predicate ClassOf(size: nat, k: nat) {
    InRange(k) && size <= Pow(k) && (k > SLAB_MIN_ORDER ==> Pow(k - 1) < size)
  }

  /** The order of chunks for a large size: the least that holds it. */
  ghost predicate ChunkOf(size: nat, k: nat) {
    k < BuddyModel.MAX_ORDER && size <= PAGE_SIZE * Pow(k) && (k > 0 ==> PAGE_SIZE * Pow(k - 1) < size)
  }

  lemma Overwritten(m: map<nat, nat>, x: nat, y: nat, z: nat)
    ensures m[x := y][x := z] == m[x := z]
  {
  }

  lemma NoRoom(m: BuddyModel.Meta, order: nat)
    requires BuddyModel.Tiled(m)
    ensures BuddyModel.FreeBlocks(m, order) == {} <==> forall p :: !BuddyModel.FreeBlock(m, p, order)
  {
    BuddyModel.NoFreeBlocks(m, order);
  }

  class Allocator {
    const pool: Buddy.Pool
    /** The slab field of struct page, for every page; 0 is NULL. */
    var pageSlab: seq<nat>
    var head: map<nat, nat>
    var nextSlab: map<nat, nat>
    var orderOf: map<nat, nat>
    var nextFree: map<nat, nat>
    var slabs: seq<nat>
    ghost var free: map<nat, seq<nat>>
    ghost var classes: seq<seq<nat>>

    ghost function SlabView(): Slabs
      reads this
    {
      Slabs(head, nextSlab, orderOf, nextFree, slabs, free, classes)
    }

    ghost function View(): Heap
      requires BuddyModel.Shape(pool.State())
      reads this, pool`owner, pool.order, pool.inUse
    {
      Heap(SlabView(), pool.startAddr, BuddyModel.Live(pool.State()), pageSlab)
    }

    /** The aligned blocks of 2^order free pages. */
    ghost function Room(order: nat): set<int>
      requires BuddyModel.Tiled(pool.State())
      reads pool`owner, pool.order, pool.inUse
    {
      BuddyModel.FreeBlocks(pool.State(), order)
    }

    /** Every slab of size class k is full. */
    ghost predicate ClassFull(k: nat)
      requires k < |classes|
      reads this
    {
      FirstWith(free, classes[k]) == |classes[k]|
    }

    ghost predicate Valid()
      reads this, pool, pool.order, pool.inUse, pool.nrFree, pool.NodeSet()
    {
      pool.Valid() && |pageSlab| == pool.pageNum && HeapOk(View())
    }

    /** No slabs yet; init_buddy has cleared the slab field of every page. */
    constructor (pool: Buddy.Pool)
      requires pool.Valid() && pool.startAddr > 0
      ensures Valid() && this.pool == pool
      ensures SlabView() == NoSlabs()
    {
      this.pool := pool;
      pageSlab := seq(pool.pageNum, i => 0);
      head, nextSlab, orderOf, nextFree, slabs := map[], map[], map[], map[], seq(SLAB_MAX_ORDER + 1, i => 0);
      free, classes := map[], seq(SLAB_MAX_ORDER + 1, i => []);
      new;
      PoolChunks();
      NoSlabsOk(View());
    }

    /** alloc_slab_memory of SLAB_INIT_SIZE bytes; without a free block of that size the source stops. */
    method AllocSlabMemory() returns (addr: Option<nat>, ghost p: nat)
      requires Valid()
      modifies `pageSlab, pool, pool.order, pool.inUse, pool.nrFree, pool.NodeSet()
      ensures pool.Valid() && |pageSlab| == |old(pageSlab)|
      ensures addr == None <==> old(Room(SLAB_PAGE_ORDER)) == {}
      ensures addr.Some? ==> |Room(SLAB_PAGE_ORDER)| == |old(Room(SLAB_PAGE_ORDER))| - 1
      ensures addr == None ==>
                pageSlab == old(pageSlab) && BuddyModel.Live(pool.State()) == old(BuddyModel.Live(pool.State()))
      ensures addr.Some? ==>
        && p !in old(BuddyModel.Live(pool.State()))
        && BuddyModel.Live(pool.State()) == old(BuddyModel.Live(pool.State()))[p := SLAB_PAGE_ORDER]
        && ChunksOk(BuddyModel.Live(pool.State()), |pageSlab|)
        && addr.value == Addr(pool.startAddr, p) && Renamed(old(pageSlab), pageSlab, p, addr.value)
    {
      var order := SizeToOrder(SLAB_INIT_SIZE / PAGE_SIZE);
      OrderIsNine(order);
      PoolSound();
      hide *;
      ghost var m := pool.State();
      var page := pool.GetPages(order);
      p := 0;
      NoRoom(m, order);
      if page == None {
        return None, p;
      }
      var first := page.value;
      p := first;
      BlockTaken(m, p);
      var a := pool.PageToVirt(first);
      NameSlab(first, a, Power(order));
      return Some(a), p;
    }

    /** Stores a in the slab field of the pages from address a on. */
    method NameSlab(ghost p: nat, a: nat, pageNum: nat)
      requires a == Addr(pool.startAddr, p) && p + pageNum <= |pageSlab| && pageNum == SLAB_PAGES
      modifies `pageSlab
      ensures Renamed(old(pageSlab), pageSlab, p, a)
    {
      var i := 0;
      while i < pageNum
        invariant 0 <= i <= pageNum && |pageSlab| == |old(pageSlab)|
        invariant forall j :: 0 <= j < |pageSlab| ==> pageSlab[j] == if p <= j < p + i then a else old(pageSlab)[j]
      {
        var index := pool.VirtToPage(a + i * PAGE_SIZE);
        assert index == p + i;
        pageSlab := pageSlab[index := a];
        i := i + 1;
      }
    }

    /** The loop of init_slab_cache: every slot leads to the next, and the last to NULL. */
    method LinkSlots(a: nat, k: nat)
      requires InRange(k)
      modifies `nextFree
      ensures Count(k) >= 1 && Linked(nextFree, a, k, Count(k) - 1)
      ensures Nth(a, k, Count(k) - 1) in nextFree && nextFree[Nth(a, k, Count(k) - 1)] == 0
      ensures Outside(old(nextFree), nextFree, a)
    {
      var objSize := Power(k);
      var cnt := SLAB_INIT_SIZE / objSize - 1;
      CountFills(k);
      var slot := a + objSize;
      var i: nat := 0;
      assert slot == Nth(a, k, 0);
      hide Linked, Outside, Nth, Pow;
      assert Linked(nextFree, a, k, 0) && Outside(nextFree, nextFree, a) by {
        LinkNone(nextFree, a, k);
      }
      while i < cnt - 1
        invariant i <= cnt - 1 && slot == Nth(a, k, i)
        invariant Linked(nextFree, a, k, i) && Outside(old(nextFree), nextFree, a)
      {
        LinkStep(nextFree, a, k, i, slot + objSize);
        OutsideStep(old(nextFree), nextFree, a, k, i, slot + objSize);
        nextFree := nextFree[slot := slot + objSize];
        slot := slot + objSize;
        i := i + 1;
      }
      LinkStep(nextFree, a, k, i, 0);
      OutsideStep(old(nextFree), nextFree, a, k, i, 0);
      nextFree := nextFree[slot := 0];
    }

    /** init_slab_cache, and its result put first on the slab list of order k. */
    method NewSlab(k: nat) returns (ok: bool)
      requires Valid() && InRange(k)
      modifies this, pool, pool.order, pool.inUse, pool.nrFree, pool.NodeSet()
      ensures Valid() && (!ok ==> View() == old(View()))
      ensures ok <==> old(Room(SLAB_PAGE_ORDER)) != {}
      ensures ok ==> |Room(SLAB_PAGE_ORDER)| == |old(Room(SLAB_PAGE_ORDER))| - 1
      ensures ok ==> |slabs| > k && |classes| > k && |old(classes)| > k && SameBlocks(old(View()), View())
      ensures ok ==> slabs[k] !in old(free) && slabs == old(slabs)[k := slabs[k]]
                     && free == old(free)[slabs[k] := AllSlots(slabs[k], k)]
                     && classes == old(classes)[k := [slabs[k]] + old(classes)[k]]
    {
      hide FreeOk, ClassesOk, Apart, RegionOk, PageOk, ChunksOk, Block, Pow, BuddyModel.Live, Renamed,
           AllSlots, Linked, Outside, BuddyModel.FreeBlocks;
      ghost var h := View();
      GrowSizes(h);
      var addr, p := AllocSlabMemory();
      if addr == None {
        return false;
      }
      var a := addr.value;
      ghost var next := nextFree;
      LinkSlots(a, k);
      LinkedChain(nextFree, a, k);
      AddFirst(a, k);
      GrownMay(h, p, k, next, nextFree, pageSlab);
      assert View() == Grown(h, p, k, AllSlots(a, k), nextFree, pageSlab);
      GrowKeeps(h, p, k, AllSlots(a, k), nextFree, pageSlab);
      return true;
    }

    /** The fields of a new slab, and its place on the slab list. */
    method AddFirst(a: nat, k: nat)
      requires k < |slabs| && k < |classes| && AllSlots(a, k) != [] && AllSlots(a, k)[0] == a + Power(k)
      modifies `head, `nextSlab, `orderOf, `slabs, `free, `classes
      ensures SlabView() == Add(old(SlabView()), a, k, AllSlots(a, k), nextFree)
    {
      hide AllSlots, Pow, Power;
      Overwritten(nextSlab, a, 0, slabs[k]);
      head := head[a := a + Power(k)];
      nextSlab := nextSlab[a := 0];
      orderOf := orderOf[a := k];
      nextSlab := nextSlab[a := slabs[k]];
      slabs := slabs[k := a];
      free := free[a := AllSlots(a, k)];
      classes := classes[k := [a] + classes[k]];
    }

    /** Takes the first free slot off the list of slab a. */
    method Take(a: nat) returns (x: nat)
      requires Valid() && a in free && free[a] != []
      modifies `head, `free
      ensures Valid() && x == old(free)[a][0] && Gained(old(View()), View(), x, Pow(orderOf[a]))
      ensures free == old(free)[a := old(free)[a][1..]] && classes == old(classes) && slabs == old(slabs)
    {
      hide FreeOk, ClassesOk, Apart, RegionOk, PageOk, ChunksOk, Block, Pow, BuddyModel.Live;
      ghost var h := View();
      PopGains(h, a);
      x := TakeHead(a);
      assert View() == h.(s := Pop(h.s, a));
    }

    method TakeHead(a: nat) returns (x: nat)
      requires Keyed(SlabView()) && a in free && free[a] != [] && head[a] in nextFree
      modifies `head, `free
      ensures x == old(head)[a] && SlabView() == Pop(old(SlabView()), a)
    {
      x := head[a];
      head := head[a := nextFree[x]];
      free := free[a := free[a][1..]];
    }

    /** _alloc_in_slab_nolock on the slab list of order k: the retry with a new slab succeeds at once. */
    method AllocInSlabNolock(header: nat, k: nat) returns (x: Option<nat>)
      requires Valid() && InRange(k) && k < |slabs| && k < |classes| && classes[k] != [] && header == slabs[k]
      modifies this, pool, pool.order, pool.inUse, pool.nrFree, pool.NodeSet()
      ensures Valid()
      ensures x == None <==> old(ClassFull(k)) && old(Room(SLAB_PAGE_ORDER)) == {}
      ensures x == None ==> View() == old(View())
      ensures x.Some? ==>
              Gained(old(View()), View(), x.value, Pow(k)) && Served(old(SlabView()), SlabView(), k, x.value)
      decreases if FirstWith(free, classes[k]) == 0 then 0 else 1
    {
      hide FreeOk, ClassesOk, Apart, RegionOk, PageOk, ChunksOk, Block, Pow, BuddyModel.Live, AllSlots, Gained,
           SameBlocks, FirstWith, Served, BuddyModel.FreeBlocks;
      ghost var h := View();
      var a := FindSlab(header, k);
      if a != 0 {
        var slot := Take(a);
        TakeServed(h.s, SlabView(), k, a, slot);
        return Some(slot);
      }
      var ok := NewSlab(k);
      if !ok {
        return None;
      }
      ghost var h1 := View();
      NewServes(h, h1, k);
      x := AllocInSlabNolock(slabs[k], k);
      NewGains(h, h1, View(), x, Pow(k));
      NewServed(h.s, h1.s, SlabView(), k, x);
    }

    /** The first slab of the list with a free slot; NULL if there is none. */
    method FindSlab(header: nat, k: nat) returns (a: nat)
      requires SlabsOk(SlabView()) && InRange(k) && k < |slabs| && k < |classes| && classes[k] != []
               && header == slabs[k]
      ensures var i := FirstWith(free, classes[k]);
              if i < |classes[k]| then a == classes[k][i] && a != 0 && a in orderOf && orderOf[a] == k else a == 0
    {
      hide SlabsOk, FirstWith;
      ClassLink(SlabView(), k, 0);
      if head[header] != 0 {
        return header;
      }
      var next := nextSlab[header];
      ghost var i := 1;
      if i < |classes[k]| {
        ClassLink(SlabView(), k, i);
      }
      while next != 0
        invariant 1 <= i <= |classes[k]| && next == (if i < |classes[k]| then classes[k][i] else 0)
        invariant FirstWith(free, classes[k]) >= i
        invariant i < |classes[k]| ==> next != 0 && next in nextSlab && next in head && next in free && next in orderOf
        invariant i < |classes[k]| ==>
          (head[next] == 0 <==> free[next] == []) && orderOf[next] == k && nextSlab[next] == NextIn(classes[k], i)
        decreases |classes[k]| - i
      {
        if head[next] != 0 {
          return next;
        }
        next := nextSlab[next];
        i := i + 1;
        if i < |classes[k]| {
          ClassLink(SlabView(), k, i);
        }
      }
      return 0;
    }

    /** Every slab list has a slab. */
    ghost predicate Ready()
      reads this
    {
      |classes| == |slabs| == SLAB_MAX_ORDER + 1 && forall k: nat :: InRange(k) ==> classes[k] != []
    }

    /**
      * init_slab: one slab of each order, exactly if the pool has seven free blocks for them; otherwise the source
      * stops.
      */
    method InitSlab() returns (ok: bool)
      requires Valid() && SlabView() == NoSlabs()
      modifies this, pool, pool.order, pool.inUse, pool.nrFree, pool.NodeSet()
      ensures Valid() && SameBlocks(old(View()), View())
      ensures ok ==> Ready() && forall k: nat :: InRange(k) ==> |classes[k]| == 1
      ensures ok <==> |old(Room(SLAB_PAGE_ORDER))| >= SLAB_MAX_ORDER - SLAB_MIN_ORDER + 1
    {
      hide FreeOk, ClassesOk, Apart, RegionOk, PageOk, ChunksOk, Block, BuddyModel.Live, AllSlots, Pow,
           BuddyModel.FreeBlocks, FirstWith;
      var order := SLAB_MIN_ORDER;
      while order <= SLAB_MAX_ORDER
        invariant SLAB_MIN_ORDER <= order <= SLAB_MAX_ORDER + 1
        invariant Valid() && SameBlocks(old(View()), View())
        invariant |classes| == |slabs| == SLAB_MAX_ORDER + 1
        invariant forall k: nat :: InRange(k) ==> |classes[k]| == if k < order then 1 else 0
        invariant |Room(SLAB_PAGE_ORDER)| + (order - SLAB_MIN_ORDER) == |old(Room(SLAB_PAGE_ORDER))|
      {
        ok := NewSlab(order);
        if !ok {
          return false;
        }
        order := order + 1;
      }
      return true;
    }

    /** alloc_in_slab: the source stops on sizes above the largest slot. */
    method AllocInSlab(size: nat) returns (x: Option<nat>, ghost k: nat)
      requires Valid() && Ready() && size <= Pow(SLAB_MAX_ORDER)
      modifies this, pool, pool.order, pool.inUse, pool.nrFree, pool.NodeSet()
      ensures Valid() && Ready() && ClassOf(size, k)
      ensures x == None <==> old(ClassFull(k)) && old(Room(SLAB_PAGE_ORDER)) == {}
      ensures x == None ==> View() == old(View())
      ensures x.Some? ==>
                Gained(old(View()), View(), x.value, Pow(k)) && Served(old(SlabView()), SlabView(), k, x.value)
    {
      hide HeapOk, Block, BuddyModel.Live, AllSlots, Gained, Pow, FirstWith, Buddy.Pool.Valid, Served,
           BuddyModel.FreeBlocks;
      SmallSize(size);
      var order := SizeToOrder(size);
      SlabOrder(size, order);
      if order < SLAB_MIN_ORDER {
        order := SLAB_MIN_ORDER;
      }
      k := order;
      ghost var s := SlabView();
      x := AllocInSlabNolock(slabs[order], order);
      if x.Some? {
        ServedLists(s, SlabView(), k, x.value);
      }
      PoolShape();
      GrowSizes(View());
    }

    /** What is left after a block for a slab was taken from the pool in state m. */
    lemma BlockTaken(m: BuddyModel.Meta, p: nat)
      requires pool.Valid() && BuddyModel.Tiled(m) && m.base == pool.Base() && |m.owner| == pool.pageNum
      requires p !in BuddyModel.Live(m) && BuddyModel.Live(pool.State()) == BuddyModel.Live(m)[p := SLAB_PAGE_ORDER]
      requires BuddyModel.FreeBlock(m, p, SLAB_PAGE_ORDER)
      ensures BuddyModel.Tiled(pool.State())
              && |Room(SLAB_PAGE_ORDER)| == |BuddyModel.FreeBlocks(m, SLAB_PAGE_ORDER)| - 1
      ensures ChunksOk(BuddyModel.Live(pool.State()), pool.pageNum)
      ensures Power(SLAB_PAGE_ORDER) == SLAB_PAGES && p + SLAB_PAGES <= pool.pageNum
    {
      PoolSound();
      hide *;
      BuddyModel.TakeBlock(m, pool.State(), p, SLAB_PAGE_ORDER);
      PoolChunks();
      ChunkFits(BuddyModel.Live(pool.State()), pool.pageNum, p);
      SlabChunk();
    }

    lemma PoolSound()
      requires pool.Valid()
      ensures BuddyModel.Tiled(pool.State()) && pool.State().base == pool.Base() && |pool.State().owner| == pool.pageNum
      ensures Room(SLAB_PAGE_ORDER) == BuddyModel.FreeBlocks(pool.State(), SLAB_PAGE_ORDER)
    {
    }

    lemma PoolShape()
      requires pool.Valid()
      ensures BuddyModel.Shape(pool.State())
    {
    }

    /** free_in_slab of a slot of slab a that is handed out: the page's slab field leads to the slab. */
    method FreeInSlab(addr: nat, ghost a: nat, ghost len: nat)
      requires Valid() && SlotOut(SlabView(), a, addr, len)
      modifies `head, `nextFree, `free
      ensures Valid() && Lost(old(View()), View(), addr)
      ensures free == old(free)[a := [addr] + old(free)[a]] && nextFree == old(nextFree)[addr := old(head)[a]]
              && head == old(head)[a := addr]
    {
      hide FreeOk, ClassesOk, Apart, RegionOk, PageOk, ChunksOk, Block, BuddyModel.Live, Pow, IsSlot, Lost;
      ghost var h := View();
      SlotRoute(h, a, addr);
      PushLoses(h, a, addr);
      var page := pool.VirtToPage(addr);
      var slab := pageSlab[page];
      PutHead(slab, addr);
      assert View() == h.(s := Push(h.s, a, addr));
    }

    method PutHead(slab: nat, slot: nat)
      requires Keyed(SlabView()) && slab in free
      modifies `head, `nextFree, `free
      ensures SlabView() == Push(old(SlabView()), slab, slot)
    {
      nextFree := nextFree[slot := head[slab]];
      head := head[slab := slot];
      free := free[slab := [slot] + free[slab]];
    }

    /**
      * kmalloc of a size the page allocator can serve; without memory the result is not an address. That is so exactly
      * if, for a small size, every slab of its class is full and no block for a new slab is free, and for a large size
      * no block of its order is free.
      */
    method Kmalloc(size: nat) returns (x: Option<nat>, ghost k: nat)
      requires Valid() && Ready() && size <= PAGE_SIZE * Pow(BuddyModel.MAX_ORDER - 1)
      modifies this, pool, pool.order, pool.inUse, pool.nrFree, pool.NodeSet()
      ensures Valid() && Ready()
      ensures if size <= Pow(SLAB_MAX_ORDER) then ClassOf(size, k) else ChunkOf(size, k)
      ensures x == None <==>
              if size <= Pow(SLAB_MAX_ORDER) then old(ClassFull(k)) && old(Room(SLAB_PAGE_ORDER)) == {}
              else old(Room(k)) == {}
      ensures x == None ==> SameBlocks(old(View()), View())
      ensures x.Some? ==>
              Gained(old(View()), View(), x.value, if size <= Pow(SLAB_MAX_ORDER) then Pow(k) else PAGE_SIZE * Pow(k))
    {
      hide HeapOk, Block, BuddyModel.Live, AllSlots, Gained, Pow, FirstWith, Buddy.Pool.Valid, Served,
           BuddyModel.FreeBlocks;
      if size <= Power(SLAB_MAX_ORDER) {
        x, k := AllocInSlab(size);
        return;
      }
      var order := 0;
      PageOrderBound(size);
      if size > PAGE_SIZE {
        order := SizeToPageOrder(size);
      }
      PageOrderFits(size, order);
      k := order;
      x := AllocPages(order);
    }

    /** buddy_get_pages for a caller of kmalloc. */
    method AllocPages(order: nat) returns (x: Option<nat>)
      requires Valid() && order < BuddyModel.MAX_ORDER
      modifies pool, pool.order, pool.inUse, pool.nrFree, pool.NodeSet()
      ensures Valid()
      ensures x == None <==> old(Room(order)) == {}
      ensures x == None ==> SameBlocks(old(View()), View())
      ensures x.Some? ==> Gained(old(View()), View(), x.value, PAGE_SIZE * Pow(order))
    {
      hide FreeOk, ClassesOk, Apart, RegionOk, PageOk, ChunksOk, Block, BuddyModel.Live, Pow, BuddyModel.FreeBlocks;
      ghost var h, m := View(), pool.State();
      var page := pool.GetPages(order);
      NoRoom(m, order);
      PoolChunks();
      if page == None {
        return None;
      }
      PagesGain(h, page.value, order);
      assert View() == h.(live := h.live[page.value := order]);
      return Some(pool.PageToVirt(page.value));
    }

    /** kfree of a live block: slots go back to their slab, chunks to the page allocator. */
    method Kfree(ptr: nat, ghost len: nat)
      requires Valid() && Block(View(), ptr, len)
      modifies this, pool, pool.order, pool.inUse, pool.nrFree, pool.NodeSet()
      ensures Valid() && Lost(old(View()), View(), ptr) && classes == old(classes)
    {
      hide FreeOk, ClassesOk, Apart, RegionOk, PageOk, ChunksOk, BuddyModel.Live, Pow, IsSlot, Lost;
      ghost var h := View();
      ghost var a, p := BlockRoute(h, ptr, len);
      var page := pool.VirtToPage(ptr);
      if pageSlab[page] != 0 {
        FreeInSlab(ptr, a, len);
      } else {
        PagesLose(h, page);
        pool.FreePages(page);
        assert View() == h.(live := h.live - {page});
      }
    }

    lemma PoolChunks()
      requires pool.Valid()
      ensures ChunksOk(BuddyModel.Live(pool.State()), pool.pageNum)
    {
      LiveChunks(pool.State());
    }
  }

  lemma ChunkFits(live: map<nat, nat>, n: nat, p: nat)
    requires ChunksOk(live, n) && p in live
    ensures p + Pow(live[p]) <= n
  {
  }

  lemma SlabChunk()
    ensures Power(SLAB_PAGE_ORDER) == Pow(SLAB_PAGE_ORDER) == SLAB_PAGES
  {
    PowNine();
  }

  /** order_to_size. */
  function Power(order: nat): nat {
    Pow(order)
  }

  lemma OrderIsNine(order: nat)
    requires 512 <= Pow(order) && (order > 0 ==> Pow(order - 1) < 512)
    ensures order == 9
  {
    PowSmall();
    if order < 9 {
      PowMono(order, 8);
    } else if order > 9 {
      PowMono(9, order - 1);
    }
  }
}
