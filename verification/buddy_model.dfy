/** Page metadata of the buddy allocator as a value, and the laws of splitting and merging. */
module BuddyModel {
  import opened Pow2

  const MAX_ORDER: nat := 14

  /**
   * `order` and `inUse` (the field named "allocated" in struct page) are the metadata words of every page, meaningful
   * only at the head of a chunk: an absorbed page keeps whatever was stored last. `owner[p]` is the head of the chunk
   * that contains page p, and `base` is the frame number of page 0.
   */
  datatype Meta = Meta(base: nat, order: seq<nat>, inUse: seq<bool>, owner: seq<nat>)

  ghost predicate Shape(m: Meta) {
    |m.inUse| == |m.order| == |m.owner|
  }

  ghost predicate Head(m: Meta, h: int)
    requires Shape(m)
  {
    0 <= h < |m.owner| && m.owner[h] == h
  }

  ghost predicate FreeHead(m: Meta, h: int)
    requires Shape(m)
  {
    Head(m, h) && !m.inUse[h]
  }

  ghost predicate InChunk(m: Meta, h: int, p: int)
    requires Shape(m) && 0 <= h < |m.order|
  {
    h <= p < h + Pow(m.order[h])
  }

  /** Every page belongs to the chunk of its owner. */
  ghost predicate Owned(m: Meta)
    requires Shape(m)
  {
    forall p :: 0 <= p < |m.owner| ==> m.owner[p] < |m.owner| && Head(m, m.owner[p]) && InChunk(m, m.owner[p], p)
  }

  /** Every chunk lies in the pool, aligned by absolute address to its own size. */
  ghost predicate Placed(m: Meta)
    requires Shape(m)
  {
    forall h :: Head(m, h) ==>
      m.order[h] < MAX_ORDER && Aligned(m.base + h, m.order[h]) && h + Pow(m.order[h]) <= |m.owner|
  }

  /** Chunks do not overlap. */
  ghost predicate Apart(m: Meta)
    requires Shape(m)
  {
    forall h, p :: Head(m, h) && InChunk(m, h, p) && p < |m.owner| ==> m.owner[p] == h
  }

  /** Chunks tile the pool exactly, each aligned by absolute address to its own size. */
  ghost predicate Tiled(m: Meta) {
    Shape(m) && Owned(m) && Placed(m) && Apart(m)
  }

  ghost predicate PageFree(m: Meta, p: int)
    requires Tiled(m)
  {
    0 <= p < |m.owner| && !m.inUse[m.owner[p]]
  }

  /** The chunks handed out and not yet given back, with their orders. */
  ghost function Live(m: Meta): map<nat, nat>
    requires Shape(m)
  {
    map h: nat | 0 <= h < |m.owner| && m.owner[h] == h && m.inUse[h] :: m.order[h]
  }

  function Buddy(base: nat, h: nat, k: nat): int {
    FlipBit(base + h, k) - base
  }

  /** h and its buddy are both free chunks of the same order that could be merged. */
  ghost predicate FreePair(m: Meta, h: int)
    requires Tiled(m)
  {
    && FreeHead(m, h) && m.order[h] < MAX_ORDER - 1
    && var b := Buddy(m.base, h, m.order[h]);
       FreeHead(m, b) && m.order[b] == m.order[h]
  }

  /** No two free buddies coexist, except possibly a pair that contains chunk x. */
  ghost predicate CoalescedBut(m: Meta, x: int)
    requires Tiled(m)
  {
    forall h :: FreePair(m, h) ==> h == x || Buddy(m.base, h, m.order[h]) == x
  }

  ghost predicate Coalesced(m: Meta)
    requires Tiled(m)
  {
    forall h :: !FreePair(m, h)
  }

  /** The buddy of a chunk head, if it lies in the pool, is itself a chunk head and no larger. */
  lemma BuddyIsHead(m: Meta, h: nat)
    requires Tiled(m) && Head(m, h)
    requires 0 <= Buddy(m.base, h, m.order[h]) < |m.owner|
    ensures var b := Buddy(m.base, h, m.order[h]);
            Head(m, b) && m.order[b] <= m.order[h] && b != h
  {
    hide Owned, Placed, Apart, Aligned, FlipBit, Pow;
    var k := m.order[h];
    var b := Buddy(m.base, h, k);
    PageOwner(m, b);
    var c := m.owner[b];
    var j := m.order[c];
    HeadPlaced(m, h);
    BuddyFacts(m.base + h, k);
    PowDouble(k);
    if j <= k {
      AlignedWeaken(m.base + b, j, k);
      ChunkStart(m, c, b);
    } else {
      BuddyInside(m, h, c, if h < b then h else b);
    }
  }

  /** A page inside a chunk that is aligned to the chunk's size is its first page. */
  lemma ChunkStart(m: Meta, c: nat, p: nat)
    requires Tiled(m) && Head(m, c) && InChunk(m, c, p) && Aligned(m.base + p, m.order[c])
    ensures p == c
  {
    hide Owned, Placed, Apart, Aligned, Pow;
    HeadPlaced(m, c);
    Laminar(m.base + c, m.order[c], m.base + p, m.order[c]);
  }

  /** No chunk is larger than h and meets the block made of h and its buddy. */
  lemma BuddyInside(m: Meta, h: nat, c: nat, lo: nat)
    requires Tiled(m) && Head(m, h) && Head(m, c) && m.order[c] > m.order[h]
    requires Aligned(m.base + lo, m.order[h] + 1) && lo <= h < lo + Pow(m.order[h] + 1)
    ensures c + Pow(m.order[c]) <= lo || lo + Pow(m.order[h] + 1) <= c
  {
    hide Owned, Placed, Apart, Aligned, Pow;
    HeadPlaced(m, c);
    Laminar(m.base + c, m.order[c], m.base + lo, m.order[h] + 1);
    if c <= h < c + Pow(m.order[c]) {
      SameChunkOwner(m, c, h);
    }
  }

  lemma HeadPlaced(m: Meta, h: nat)
    requires Tiled(m) && Head(m, h)
    ensures m.order[h] < MAX_ORDER && Aligned(m.base + h, m.order[h]) && h + Pow(m.order[h]) <= |m.owner|
  {
  }

  lemma PageOwner(m: Meta, p: nat)
    requires Tiled(m) && p < |m.owner|
    ensures m.owner[p] < |m.owner| && Head(m, m.owner[p]) && InChunk(m, m.owner[p], p)
  {
  }

  function Reown(owner: seq<nat>, lo: nat, len: nat): (r: seq<nat>)
    ensures |r| == |owner|
    ensures forall p :: 0 <= p < |owner| ==> r[p] == if lo <= p < lo + len then lo else owner[p]
  {
    seq(|owner|, p requires 0 <= p < |owner| => if lo <= p < lo + len then lo else owner[p])
  }

  /** Same chunks handed out and same pages free: what splitting and merging must not change. */
  ghost predicate SameUse(m: Meta, m': Meta)
    requires Tiled(m) && Tiled(m')
  {
    && m'.base == m.base && |m'.owner| == |m.owner|
    && Live(m') == Live(m)
    && (forall p :: PageFree(m', p) == PageFree(m, p))
  }

  /** Chunk h cut into two free halves; the metadata of the upper half is rewritten. */
  ghost function Split(m: Meta, h: nat): Meta
    requires Tiled(m) && FreeHead(m, h) && m.order[h] > 0
    requires h + Pow(m.order[h] - 1) < |m.owner|
  {
    var k := m.order[h] - 1;
    var b := h + Pow(k);
    Meta(m.base, m.order[h := k][b := k], m.inUse[b := false], Reown(m.owner, b, Pow(k)))
  }

  lemma SplitBuddy(m: Meta, h: nat)
    requires Tiled(m) && FreeHead(m, h) && m.order[h] > 0
    ensures h + Pow(m.order[h] - 1) < |m.owner|
    ensures Buddy(m.base, h, m.order[h] - 1) == h + Pow(m.order[h] - 1)
    ensures Buddy(m.base, h + Pow(m.order[h] - 1), m.order[h] - 1) == h
    ensures Aligned(m.base + h, m.order[h] - 1) && Aligned(m.base + h + Pow(m.order[h] - 1), m.order[h] - 1)
  {
    var k := m.order[h] - 1;
    assert Aligned(m.base + h, k + 1) && h + Pow(k + 1) <= |m.owner|;
    hide Aligned, FlipBit, Pow, Tiled;
    PowDouble(k);
    AlignedWeaken(m.base + h, k, k + 1);
    BuddyFacts(m.base + h, k);
  }

  lemma SplitHeads(m: Meta, h: nat)
    requires Tiled(m) && FreeHead(m, h) && m.order[h] > 0
    ensures h + Pow(m.order[h] - 1) < |m.owner|
    ensures var b := h + Pow(m.order[h] - 1);
            forall p :: Head(Split(m, h), p) <==> Head(m, p) || p == b
  {
    SplitBuddy(m, h);
    var b := h + Pow(m.order[h] - 1);
    assert forall p :: b <= p < b + Pow(m.order[h] - 1) ==> InChunk(m, h, p);
  }

  lemma SplitOwned(m: Meta, h: nat)
    requires Tiled(m) && FreeHead(m, h) && m.order[h] > 0
    requires h + Pow(m.order[h] - 1) < |m.owner|
    ensures Owned(Split(m, h))
  {
    hide Placed, Aligned, Pow;
    var k := m.order[h] - 1;
    var b := h + Pow(k);
    PowDouble(k);
    var m' := Split(m, h);
    assert m.owner[b] == h by {
      assert InChunk(m, h, b);
    }
    hide Apart;
    forall p | 0 <= p < |m'.owner|
      ensures Head(m', m'.owner[p]) && InChunk(m', m'.owner[p], p)
    {
      assert InChunk(m, m.owner[p], p);
    }
  }

  lemma SplitApart(m: Meta, h: nat)
    requires Tiled(m) && FreeHead(m, h) && m.order[h] > 0
    requires h + Pow(m.order[h] - 1) < |m.owner|
    ensures Apart(Split(m, h))
  {
    var k := m.order[h] - 1;
    var b := h + Pow(k);
    assert Pow(k + 1) == 2 * Pow(k);
    SplitHeads(m, h);
    hide Placed, Aligned, Owned, Pow;
    var m' := Split(m, h);
    forall g, p | Head(m', g) && InChunk(m', g, p) && p < |m'.owner|
      ensures m'.owner[p] == g
    {
      if g == h || g == b {
        assert InChunk(m, h, p);
      } else {
        assert InChunk(m, g, p);
        assert b <= p < b + Pow(k) ==> InChunk(m, h, p);
      }
    }
  }

  lemma SplitTiled(m: Meta, h: nat)
    requires Tiled(m) && FreeHead(m, h) && m.order[h] > 0
    ensures h + Pow(m.order[h] - 1) < |m.owner|
    ensures Tiled(Split(m, h))
  {
    SplitBuddy(m, h);
    SplitHeads(m, h);
    SplitOwned(m, h);
    SplitApart(m, h);
    hide Owned, Apart, Aligned;
    assert Pow(m.order[h]) == 2 * Pow(m.order[h] - 1);
    hide Pow;
    assert Placed(Split(m, h));
  }

  lemma SplitPages(m: Meta, h: nat)
    requires Tiled(m) && FreeHead(m, h) && m.order[h] > 0
    requires h + Pow(m.order[h] - 1) < |m.owner| && Tiled(Split(m, h))
    ensures forall p :: PageFree(Split(m, h), p) == PageFree(m, p)
  {
    var k := m.order[h] - 1;
    var b := h + Pow(k);
    var m' := Split(m, h);
    PowDouble(k);
    hide Placed, Aligned, Pow, Owned;
    assert InChunk(m, h, b);
    forall p | 0 <= p < |m.owner|
      ensures PageFree(m', p) == PageFree(m, p)
    {
      assert b <= p < b + Pow(k) ==> InChunk(m, h, p);
      assert Head(m, m.owner[p]) by {
        PageOwner(m, p);
      }
    }
  }

  /** What splitting h leaves alone: every chunk g but h and the new upper half. */
  lemma SplitOther(m: Meta, h: nat, g: int)
    requires Tiled(m) && FreeHead(m, h) && m.order[h] > 0
    requires h + Pow(m.order[h] - 1) < |m.owner|
    requires g != h && g != h + Pow(m.order[h] - 1)
    ensures var m' := Split(m, h);
            Head(m', g) == Head(m, g) && FreeHead(m', g) == FreeHead(m, g) &&
            (Head(m, g) ==> m'.order[g] == m.order[g] && m'.inUse[g] == m.inUse[g])
  {
    SplitHeads(m, h);
    hide Tiled, Pow;
  }

  lemma SplitSelf(m: Meta, h: nat)
    requires Tiled(m) && FreeHead(m, h) && m.order[h] > 0
    requires h + Pow(m.order[h] - 1) < |m.owner|
    ensures var m' := Split(m, h);
            var b := h + Pow(m.order[h] - 1);
            && FreeHead(m', h) && FreeHead(m', b) && !Head(m, b)
            && m'.order[h] == m.order[h] - 1 == m'.order[b]
  {
    SplitHeads(m, h);
    PowDouble(m.order[h] - 1);
    hide Placed, Aligned, Owned, Pow;
    assert InChunk(m, h, h + Pow(m.order[h] - 1));
  }

  /** Splitting h creates no free pair but the one made of its two halves. */
  lemma SplitNewPair(m: Meta, h: nat, g: int)
    requires Tiled(m) && FreeHead(m, h) && m.order[h] > 0
    requires CoalescedBut(m, h)
    requires h + Pow(m.order[h] - 1) < |m.owner| && Tiled(Split(m, h))
    requires FreePair(Split(m, h), g) && g != h
    ensures Buddy(m.base, g, Split(m, h).order[g]) == h
  {
    hide Owned, Placed, Apart, Pow, Aligned, FlipBit, Split;
    var b := h + Pow(m.order[h] - 1);
    var k := Split(m, h).order[g];
    var c := Buddy(m.base, g, k);
    SplitBuddy(m, h);
    SplitSelf(m, h);
    SplitShape(m, h);
    HeadPlaced(Split(m, h), g);
    BuddyFacts(m.base + g, k);
    if g != b {
      SplitOther(m, h, g);
      if c != b && c != h {
        SplitOther(m, h, c);
      }
      assert FreePair(m, g) || c == b || c == h;
    }
  }

  lemma SplitShape(m: Meta, h: nat)
    requires Tiled(m) && FreeHead(m, h) && m.order[h] > 0
    requires h + Pow(m.order[h] - 1) < |m.owner|
    ensures var m' := Split(m, h);
            m'.base == m.base && |m'.owner| == |m'.order| == |m'.inUse| == |m.owner|
  {
  }

  lemma SplitKeeps(m: Meta, h: nat)
    requires Tiled(m) && FreeHead(m, h) && m.order[h] > 0
    requires CoalescedBut(m, h)
    ensures h + Pow(m.order[h] - 1) < |m.owner|
    ensures var m' := Split(m, h);
            Tiled(m') && SameUse(m, m') && CoalescedBut(m', h) && FreeHead(m', h)
  {
    SplitTiled(m, h);
    SplitPages(m, h);
    SplitSelf(m, h);
    SplitLive(m, h);
    var m' := Split(m, h);
    assert m'.base == m.base && |m'.owner| == |m.owner|;
    assert CoalescedBut(m', h) by {
      forall g | FreePair(m', g) && g != h
        ensures Buddy(m'.base, g, m'.order[g]) == h
      {
        SplitNewPair(m, h, g);
      }
      hide Tiled, Split, Pow, FreePair, Buddy, Live;
    }
    hide Tiled, Split, Pow, CoalescedBut, Live, PageFree;
  }

  lemma SplitLive(m: Meta, h: nat)
    requires Tiled(m) && FreeHead(m, h) && m.order[h] > 0
    requires h + Pow(m.order[h] - 1) < |m.owner|
    ensures Live(Split(m, h)) == Live(m)
  {
    SplitSelf(m, h);
    SplitHeads(m, h);
    hide Tiled, Pow;
    assert Live(Split(m, h)) == Live(m);
  }

  /** Two free buddies become one chunk; the upper one keeps its old metadata. */
  ghost function Merge(m: Meta, lo: nat): Meta
    requires Tiled(m) && lo < |m.owner|
  {
    m.(order := m.order[lo := m.order[lo] + 1], owner := Reown(m.owner, lo, Pow(m.order[lo] + 1)))
  }

  ghost predicate Mergeable(m: Meta, lo: nat)
    requires Tiled(m)
  {
    && FreeHead(m, lo) && m.order[lo] < MAX_ORDER - 1
    && Aligned(m.base + lo, m.order[lo] + 1)
    && var hi := lo + Pow(m.order[lo]);
       FreeHead(m, hi) && m.order[hi] == m.order[lo]
  }

  lemma MergeHeads(m: Meta, lo: nat)
    requires Tiled(m) && Mergeable(m, lo)
    ensures var hi := lo + Pow(m.order[lo]);
            forall p :: Head(Merge(m, lo), p) <==> Head(m, p) && p != hi
  {
    var k := m.order[lo];
    var hi := lo + Pow(k);
    forall p | Head(m, p) && lo <= p < lo + Pow(k + 1)
      ensures p == lo || p == hi
    {
      assert InChunk(m, lo, p) || InChunk(m, hi, p);
    }
  }

  lemma MergeOwned(m: Meta, lo: nat)
    requires Tiled(m) && Mergeable(m, lo)
    ensures Owned(Merge(m, lo))
  {
    MergeHeads(m, lo);
    var m' := Merge(m, lo);
    PowDouble(m.order[lo]);
    hide Placed, Aligned, Apart, Pow;
    forall p | 0 <= p < |m'.owner|
      ensures Head(m', m'.owner[p]) && InChunk(m', m'.owner[p], p)
    {
      assert InChunk(m, m.owner[p], p);
    }
  }

  lemma MergeApart(m: Meta, lo: nat)
    requires Tiled(m) && Mergeable(m, lo)
    ensures Apart(Merge(m, lo))
  {
    MergeHeads(m, lo);
    var hi := lo + Pow(m.order[lo]);
    var m' := Merge(m, lo);
    PowDouble(m.order[lo]);
    hide Placed, Aligned, Pow, Owned;
    forall g, p | Head(m', g) && InChunk(m', g, p) && p < |m'.owner|
      ensures m'.owner[p] == g
    {
      if g != lo {
        assert InChunk(m, g, p);
        assert !InChunk(m, lo, p) && !InChunk(m, hi, p);
      }
    }
  }

  lemma MergeTiled(m: Meta, lo: nat)
    requires Tiled(m) && Mergeable(m, lo)
    ensures Tiled(Merge(m, lo))
  {
    MergeHeads(m, lo);
    MergeOwned(m, lo);
    MergeApart(m, lo);
    PowDouble(m.order[lo]);
    hide Owned, Apart, Aligned, Pow;
    assert Placed(Merge(m, lo));
  }

  lemma MergePages(m: Meta, lo: nat)
    requires Tiled(m) && Mergeable(m, lo) && Tiled(Merge(m, lo))
    ensures SameUse(m, Merge(m, lo))
  {
    hide Placed, Aligned;
    PowDouble(m.order[lo]);
    MergeHeads(m, lo);
    MergeLive(m, lo);
    hide Pow, Live;
    forall p
      ensures PageFree(Merge(m, lo), p) == PageFree(m, p)
    {
      if lo <= p < lo + Pow(m.order[lo] + 1) {
        assert InChunk(m, lo, p) || InChunk(m, lo + Pow(m.order[lo]), p);
      }
    }
  }

  lemma MergeLive(m: Meta, lo: nat)
    requires Tiled(m) && Mergeable(m, lo) && Shape(Merge(m, lo))
    ensures Live(Merge(m, lo)) == Live(m)
  {
    hide Placed, Aligned, Pow;
    MergeHeads(m, lo);
    assert Live(Merge(m, lo)) == Live(m);
  }

  lemma MergeKeeps(m: Meta, lo: nat, x: nat)
    requires Tiled(m) && Mergeable(m, lo)
    requires x == lo || x == lo + Pow(m.order[lo])
    requires CoalescedBut(m, x)
    ensures var m' := Merge(m, lo);
            Tiled(m') && SameUse(m, m') && CoalescedBut(m', lo) && FreeHead(m', lo)
  {
    MergeTiled(m, lo);
    MergePages(m, lo);
    MergeHeads(m, lo);
    var m' := Merge(m, lo);
    hide Owned, Apart, Placed, SameUse, Pow, Aligned, FlipBit;
    forall g | FreePair(m', g) && g != lo
      ensures Buddy(m'.base, g, m'.order[g]) == lo
    {
      assert FreePair(m, g) || Buddy(m'.base, g, m'.order[g]) == lo;
    }
  }

  /** When the chunk just freed cannot be merged any further, no free pair is left. */
  lemma MergeDone(m: Meta, x: nat)
    requires Tiled(m) && CoalescedBut(m, x) && FreeHead(m, x) && !FreePair(m, x)
    ensures Coalesced(m)
  {
    hide Owned, Apart, Pow, Aligned, FlipBit;
    forall h
      ensures !FreePair(m, h)
    {
      if FreePair(m, h) {
        BuddyFacts(m.base + h, m.order[h]);
      }
    }
  }

  /** A chunk that has a mergeable buddy is one half of a mergeable pair. */
  lemma PairIsMergeable(m: Meta, x: nat)
    requires Tiled(m) && FreePair(m, x)
    ensures var b := Buddy(m.base, x, m.order[x]);
            var lo := if b < x then b else x;
            Mergeable(m, lo) && b != x && lo + Pow(m.order[lo]) == if b < x then x else b
  {
    hide Owned, Placed, Apart, Pow, Aligned, FlipBit;
    HeadPlaced(m, x);
    BuddyFacts(m.base + x, m.order[x]);
  }

  ghost function SetInUse(m: Meta, h: nat, a: bool): Meta
    requires Shape(m) && h < |m.owner|
  {
    m.(inUse := m.inUse[h := a])
  }

  lemma SetInUseTiled(m: Meta, h: nat, a: bool)
    requires Tiled(m) && h < |m.owner|
    ensures Tiled(SetInUse(m, h, a))
  {
    var m' := SetInUse(m, h, a);
    hide Pow, Aligned;
    assert forall p :: Head(m', p) == Head(m, p);
    assert forall g, p :: 0 <= g < |m.owner| ==> InChunk(m', g, p) == InChunk(m, g, p);
  }

  lemma TakeChunk(m: Meta, h: nat)
    requires Tiled(m) && FreeHead(m, h) && CoalescedBut(m, h)
    ensures var m' := SetInUse(m, h, true);
            && Tiled(m') && Coalesced(m')
            && h !in Live(m) && Live(m') == Live(m)[h := m.order[h]]
  {
    var m' := SetInUse(m, h, true);
    SetInUseTiled(m, h, true);
    hide Owned, Apart, Placed, Pow, Aligned, FlipBit;
    forall g
      ensures !FreePair(m', g)
    {
      assert FreePair(m', g) ==> FreePair(m, g);
    }
    assert Live(m') == Live(m)[h := m.order[h]];
  }

  lemma GiveChunk(m: Meta, h: nat)
    requires Tiled(m) && h in Live(m) && Coalesced(m)
    ensures var m' := SetInUse(m, h, false);
            && Tiled(m') && CoalescedBut(m', h) && FreeHead(m', h)
            && Live(m') == Live(m) - {h}
  {
    var m' := SetInUse(m, h, false);
    SetInUseTiled(m, h, false);
    hide Owned, Apart, Placed, Pow, Aligned, FlipBit;
    forall g | FreePair(m', g)
      ensures g == h || Buddy(m'.base, g, m'.order[g]) == h
    {
      assert FreePair(m, g) || g == h || Buddy(m'.base, g, m'.order[g]) == h;
    }
    assert Live(m') == Live(m) - {h};
  }

  /** The 2^o pages from p lie in the pool, are aligned by absolute address, and are all free. */
  ghost predicate FreeBlock(m: Meta, p: int, o: nat)
    requires Tiled(m)
  {
    && 0 <= p && p + Pow(o) <= |m.owner| && Aligned(m.base + p, o)
    && forall q :: p <= q < p + Pow(o) ==> PageFree(m, q)
  }

  /** With no free buddies left apart, an aligned free block never straddles two chunks. */
  lemma {:induction false} FreeBlockInOneChunk(m: Meta, p: nat, o: nat)
    requires Tiled(m) && Coalesced(m) && o < MAX_ORDER && FreeBlock(m, p, o)
    ensures m.owner[p] < |m.owner| && FreeHead(m, m.owner[p]) && Covers(m, m.owner[p], p, o)
    decreases o
  {
    hide Owned, Placed, Apart, Aligned, Coalesced, FreeBlock, Pow, FlipBit;
    FirstPage(m, p, o);
    if o == 0 {
      OnePage(m, m.owner[p], p);
    } else {
      HalvesFree(m, p, o);
      var q := p + Pow(o - 1);
      FirstPage(m, q, o - 1);
      FreeBlockInOneChunk(m, p, o - 1);
      FreeBlockInOneChunk(m, q, o - 1);
      WholeInChunk(m, p, o);
    }
  }

  lemma FirstPage(m: Meta, p: nat, o: nat)
    requires Tiled(m) && FreeBlock(m, p, o)
    ensures p < |m.owner| && m.owner[p] < |m.owner| && FreeHead(m, m.owner[p]) && InChunk(m, m.owner[p], p)
  {
    hide Placed, Apart, Aligned;
    assert PageFree(m, p);
  }

  lemma OnePage(m: Meta, c: nat, p: nat)
    requires Shape(m) && c < |m.owner| && InChunk(m, c, p)
    ensures Covers(m, c, p, 0)
  {
  }

  /** Chunk c has order at least o and contains the block of order o at p. */
  ghost predicate Covers(m: Meta, c: nat, p: nat, o: nat)
    requires Shape(m) && c < |m.owner|
  {
    o <= m.order[c] && c <= p && p + Pow(o) <= c + Pow(m.order[c])
  }

  lemma HalvesFree(m: Meta, p: nat, o: nat)
    requires Tiled(m) && 0 < o && FreeBlock(m, p, o)
    ensures FreeBlock(m, p, o - 1) && FreeBlock(m, p + Pow(o - 1), o - 1)
    ensures Buddy(m.base, p, o - 1) == p + Pow(o - 1)
  {
    AlignedWeaken(m.base + p, o - 1, o);
    BuddyFacts(m.base + p, o - 1);
    PowDouble(o - 1);
    hide Owned, Apart, Placed, Pow, Aligned, FlipBit;
  }

  lemma WholeInChunk(m: Meta, p: nat, o: nat)
    requires Tiled(m) && Coalesced(m) && 0 < o < MAX_ORDER && FreeBlock(m, p, o)
    requires Buddy(m.base, p, o - 1) == p + Pow(o - 1) && p + Pow(o - 1) < |m.owner|
    requires var c := m.owner[p]; c < |m.owner| && FreeHead(m, c) && Covers(m, c, p, o - 1)
    requires var d := m.owner[p + Pow(o - 1)]; d < |m.owner| && FreeHead(m, d) && Covers(m, d, p + Pow(o - 1), o - 1)
    ensures Covers(m, m.owner[p], p, o)
  {
    hide Owned, Placed, Apart, Pow, FlipBit, Aligned;
    var q := p + Pow(o - 1);
    var c, d := m.owner[p], m.owner[q];
    PowDouble(o - 1);
    assert !FreePair(m, p);
    if m.order[d] >= o {
      CoverUp(m, d, p, q, o);
    } else if m.order[c] >= o {
      CoverUp(m, c, p, p, o);
    } else {
      assert false;
    }
  }

  /** A chunk of order o or more that meets the aligned block of order o at p contains it. */
  lemma CoverUp(m: Meta, c: nat, p: nat, q: nat, o: nat)
    requires Tiled(m) && Head(m, c) && o <= m.order[c]
    requires Aligned(m.base + p, o) && p <= q < p + Pow(o) <= |m.owner| && InChunk(m, c, q)
    ensures Covers(m, c, p, o) && m.owner[p] == c
  {
    assert Aligned(m.base + c, m.order[c]);
    Laminar(m.base + c, m.order[c], m.base + p, o);
    hide Owned, Placed, Pow, Aligned;
    assert InChunk(m, c, p);
  }

  /** Completeness: without a free chunk of order o or more there is no aligned free block of order o. */
  lemma NoChunkNoBlock(m: Meta, o: nat)
    requires Tiled(m) && Coalesced(m) && o < MAX_ORDER
    requires forall h :: FreeHead(m, h) ==> m.order[h] < o
    ensures forall p :: !FreeBlock(m, p, o)
  {
    forall p
      ensures !FreeBlock(m, p, o)
    {
      if FreeBlock(m, p, o) {
        FreeBlockInOneChunk(m, p, o);
      }
    }
  }

  /** A free chunk is a free block. */
  lemma ChunkIsBlock(m: Meta, h: nat)
    requires Tiled(m) && FreeHead(m, h)
    ensures FreeBlock(m, h, m.order[h])
  {
    forall q | h <= q < h + Pow(m.order[h])
      ensures PageFree(m, q)
    {
      assert InChunk(m, h, q);
    }
  }

  /**
   * The free chunks are exactly the maximal aligned free blocks: a free block of order k is a chunk
   * iff k is the largest order or the block of twice its size around it is not wholly free.
   */
  lemma FreeChunksAreMaximalBlocks(m: Meta, h: nat, k: nat)
    requires Tiled(m) && Coalesced(m) && k < MAX_ORDER
    ensures (FreeHead(m, h) && m.order[h] == k) <==>
            (FreeBlock(m, h, k) && (k == MAX_ORDER - 1 || !FreeBlock(m, UpperBlock(m.base, h, k), k + 1)))
  {
    hide Owned, Placed, Apart, Pow, Aligned, UpperBlock;
    if FreeHead(m, h) && m.order[h] == k {
      ChunkIsBlock(m, h);
    }
    if FreeBlock(m, h, k) {
      FreeBlockInOneChunk(m, h, k);
      UpperContains(m.base, h, k);
      var up := UpperBlock(m.base, h, k);
      var c := m.owner[h];
      if m.order[c] > k {
        HeadPlaced(m, c);
        Laminar(m.base + c, m.order[c], m.base + up, k + 1);
        ChunkIsBlock(m, c);
        assert FreeBlock(m, up, k + 1);
      } else {
        SameSizeChunk(m, c, h);
      }
      if k < MAX_ORDER - 1 && FreeBlock(m, up, k + 1) {
        FreeBlockInOneChunk(m, up, k + 1);
        if m.owner[up] != h {
          SameChunkOwner(m, m.owner[up], h);
        }
      }
    }
  }

  lemma SameChunkOwner(m: Meta, d: nat, h: nat)
    requires Tiled(m) && Head(m, d) && h < |m.owner| && InChunk(m, d, h)
    ensures m.owner[h] == d
  {
  }

  /** An aligned block inside a chunk of its own order is that chunk. */
  lemma SameSizeChunk(m: Meta, c: nat, h: nat)
    requires Tiled(m) && Head(m, c) && Covers(m, c, h, m.order[c])
    ensures c == h
  {
  }

  /** First page of the block of order k + 1 around the block of order k at h. */
  function UpperBlock(base: nat, h: nat, k: nat): int {
    if Aligned(base + h, k + 1) then h else h - Pow(k)
  }

  lemma UpperContains(base: nat, h: nat, k: nat)
    requires Aligned(base + h, k)
    ensures var up := UpperBlock(base, h, k);
            base + up >= 0 && Aligned(base + up, k + 1) && up <= h && h + Pow(k) <= up + Pow(k + 1)
  {
    BuddyFacts(base + h, k);
  }

  /** Which pages are free is determined by which chunks are handed out. */
  lemma LiveDecidesPages(m: Meta, m': Meta)
    requires Tiled(m) && Tiled(m') && m.base == m'.base && |m.owner| == |m'.owner|
    requires Live(m) == Live(m')
    ensures forall p :: PageFree(m, p) == PageFree(m', p)
  {
    forall p | 0 <= p < |m.owner|
      ensures PageFree(m, p) == PageFree(m', p)
    {
      LivePage(m, m', p);
      LivePage(m', m, p);
    }
  }

  lemma LivePage(m: Meta, m': Meta, p: nat)
    requires Tiled(m) && Tiled(m') && |m.owner| == |m'.owner| && p < |m.owner|
    requires Live(m) == Live(m')
    ensures !PageFree(m, p) ==> !PageFree(m', p)
  {
    var h := m.owner[p];
    if m.inUse[h] {
      assert h in Live(m) && h in Live(m');
      assert Live(m)[h] == Live(m')[h];
      assert InChunk(m', h, p);
    }
  }

  /** The aligned blocks of 2^o free pages, by their first page. */
  ghost function FreeBlocks(m: Meta, o: nat): set<int>
    requires Tiled(m)
  {
    set p | 0 <= p < |m.owner| && FreeBlock(m, p, o)
  }

  lemma NoFreeBlocks(m: Meta, o: nat)
    requires Tiled(m)
    ensures FreeBlocks(m, o) == {} <==> forall p :: !FreeBlock(m, p, o)
  {
    hide FreeBlock;
    forall p | FreeBlock(m, p, o)
      ensures p in FreeBlocks(m, o)
    {
      BlockInPool(m, p, o);
    }
  }

  lemma BlockInPool(m: Meta, p: int, o: nat)
    requires Tiled(m) && FreeBlock(m, p, o)
    ensures 0 <= p < |m.owner|
  {
    hide Tiled, Aligned;
  }

  /** A page is in use exactly if it lies in a chunk handed out. */
  lemma PageLive(m: Meta, x: nat)
    requires Tiled(m) && x < |m.owner|
    ensures PageFree(m, x) <==> forall h :: h in Live(m) ==> !(h <= x < h + Pow(Live(m)[h]))
  {
    hide Placed, Aligned, Pow;
    var c := m.owner[x];
    assert InChunk(m, c, x);
    if m.inUse[c] {
      assert c in Live(m);
    }
    forall h | h in Live(m) && h <= x < h + Pow(Live(m)[h])
      ensures c == h
    {
      assert Head(m, h) && InChunk(m, h, x);
    }
  }

  /** After chunk p of order o was handed out its pages are in use, and the others as before. */
  lemma TakePages(m: Meta, m': Meta, p: nat, o: nat, x: nat)
    requires Tiled(m) && Tiled(m') && m'.base == m.base && |m'.owner| == |m.owner| && x < |m.owner|
    requires p !in Live(m) && Live(m') == Live(m)[p := o]
    ensures PageFree(m', x) <==> PageFree(m, x) && !(p <= x < p + Pow(o))
  {
    PageLive(m, x);
    PageLive(m', x);
    hide Tiled, PageFree, Live, Pow;
    assert forall h :: h in Live(m) ==> h in Live(m') && Live(m')[h] == Live(m)[h];
    assert p in Live(m') && Live(m')[p] == o;
  }

  lemma TakeOtherBlock(m: Meta, m': Meta, p: nat, o: nat, q: int)
    requires Tiled(m) && Tiled(m') && m'.base == m.base && |m'.owner| == |m.owner|
    requires FreeBlock(m, p, o) && FreeBlock(m, q, o) && q != p
    requires forall x: nat :: x < |m.owner| ==> (PageFree(m', x) <==> PageFree(m, x) && !(p <= x < p + Pow(o)))
    ensures FreeBlock(m', q, o)
  {
    Laminar(m.base + p, o, m.base + q, o);
    hide Tiled, Aligned, Pow;
  }

  /** Handing out a free block takes exactly that one from the free blocks of its order. */
  lemma TakeBlock(m: Meta, m': Meta, p: nat, o: nat)
    requires Tiled(m) && Tiled(m') && m'.base == m.base && |m'.owner| == |m.owner|
    requires p !in Live(m) && Live(m') == Live(m)[p := o] && FreeBlock(m, p, o)
    ensures p in FreeBlocks(m, o) && FreeBlocks(m', o) == FreeBlocks(m, o) - {p}
    ensures |FreeBlocks(m', o)| == |FreeBlocks(m, o)| - 1
  {
    hide Tiled, Live, Pow, PageFree, FreeBlock;
    forall x: nat | x < |m.owner|
      ensures PageFree(m', x) <==> PageFree(m, x) && !(p <= x < p + Pow(o))
    {
      TakePages(m, m', p, o, x);
    }
    BlockInPool(m, p, o);
    forall q
      ensures q in FreeBlocks(m', o) <==> q in FreeBlocks(m, o) && q != p
    {
      if q in FreeBlocks(m, o) && q != p {
        TakeOtherBlock(m, m', p, o, q);
      }
      if q in FreeBlocks(m', o) {
        KeptBlock(m, m', p, o, q);
      }
    }
  }

  lemma KeptBlock(m: Meta, m': Meta, p: nat, o: nat, q: int)
    requires Tiled(m) && Tiled(m') && m'.base == m.base && |m'.owner| == |m.owner| && FreeBlock(m', q, o)
    requires forall x: nat :: x < |m.owner| ==> (PageFree(m', x) <==> PageFree(m, x) && !(p <= x < p + Pow(o)))
    ensures FreeBlock(m, q, o) && q != p
  {
    hide Tiled, Aligned, Pow;
    assert Pow(o) >= 1;
    assert PageFree(m', q);
  }

  /**
   * Canonicity: the free chunks depend only on what is handed out, not on the order of the calls
   * that led there. With nothing handed out they are those of a freshly initialised pool.
   */
  lemma Canonical(m: Meta, m': Meta)
    requires Tiled(m) && Tiled(m') && Coalesced(m) && Coalesced(m')
    requires m.base == m'.base && |m.owner| == |m'.owner| && Live(m) == Live(m')
    ensures forall h :: FreeHead(m, h) <==> FreeHead(m', h)
    ensures forall h :: FreeHead(m, h) ==> m.order[h] == m'.order[h]
  {
    LiveDecidesPages(m, m');
    forall h
      ensures FreeHead(m, h) ==> FreeHead(m', h) && m.order[h] == m'.order[h]
      ensures FreeHead(m', h) ==> FreeHead(m, h)
    {
      if FreeHead(m, h) {
        SameFreeChunk(m, m', h);
      }
      if FreeHead(m', h) {
        SameFreeChunk(m', m, h);
      }
    }
  }

  lemma SameFreeChunk(m: Meta, m': Meta, h: nat)
    requires Tiled(m) && Tiled(m') && Coalesced(m) && Coalesced(m')
    requires m.base == m'.base && |m.owner| == |m'.owner|
    requires forall p :: PageFree(m, p) == PageFree(m', p)
    requires FreeHead(m, h)
    ensures FreeHead(m', h) && m'.order[h] == m.order[h]
  {
    var k := m.order[h];
    ChunkIsBlock(m, h);
    assert FreeBlock(m', h, k);
    FreeBlockInOneChunk(m', h, k);
    var c := m'.owner[h];
    ChunkIsBlock(m', c);
    assert FreeBlock(m, c, m'.order[c]);
    FreeBlockInOneChunk(m, c, m'.order[c]);
    assert InChunk(m, m.owner[c], h);
  }

  ghost function FreePageSet(m: Meta): set<int>
    requires Tiled(m)
  {
    set p | 0 <= p < |m.owner| && !m.inUse[m.owner[p]]
  }

  /** The free pages in chunks of order less than k. */
  ghost function FreeBelow(m: Meta, k: nat): set<int>
    requires Tiled(m)
  {
    set p | p in FreePageSet(m) && m.order[m.owner[p]] < k
  }

  lemma NothingBelow(m: Meta)
    requires Tiled(m)
    ensures |FreeBelow(m, 0)| == 0
  {
    hide Placed, Apart;
    assert FreeBelow(m, 0) == {};
  }

  ghost function FreeLevel(m: Meta, k: nat): set<int>
    requires Tiled(m)
  {
    set p | p in FreePageSet(m) && m.order[m.owner[p]] == k
  }

  ghost function Block(h: nat, n: nat): (r: set<int>)
    ensures forall p :: p in r <==> h <= p < h + n
  {
    if n == 0 then {} else Block(h, n - 1) + {h + n - 1}
  }

  /** The pages of the chunks in hs, each of order k. */
  ghost function Covered(hs: seq<nat>, k: nat): set<int> {
    if hs == [] then {} else Block(hs[0], Pow(k)) + Covered(hs[1..], k)
  }

  lemma {:induction false} BlockSize(h: nat, n: nat)
    ensures |Block(h, n)| == n
    decreases n
  {
    if n == 0 {
    } else {
      BlockSize(h, n - 1);
    }
  }

  lemma {:induction false} CoveredMember(hs: seq<nat>, k: nat, p: int)
    ensures p in Covered(hs, k) <==> exists h :: h in hs && h <= p < h + Pow(k)
  {
    if hs == [] {
    } else {
      CoveredMember(hs[1..], k, p);
      assert hs == [hs[0]] + hs[1..];
      if p in Covered(hs, k) {
        if hs[0] <= p < hs[0] + Pow(k) {
          assert hs[0] in hs;
        } else {
          var h :| h in hs[1..] && h <= p < h + Pow(k);
          assert h in hs;
        }
      }
      if h :| h in hs && h <= p < h + Pow(k) {
        assert h == hs[0] || h in hs[1..];
      }
    }
  }

  /** Distinct chunks of order k cover 2^k pages each, none twice. */
  lemma {:induction false} CoveredSize(m: Meta, k: nat, hs: seq<nat>)
    requires Tiled(m)
    requires forall i, j :: 0 <= i < j < |hs| ==> hs[i] != hs[j]
    requires forall h :: h in hs ==> FreeHead(m, h) && m.order[h] == k
    ensures |Covered(hs, k)| == |hs| * Pow(k)
    decreases |hs|
  {
    if hs == [] {
    } else {
      hide Tiled, Pow, Covered, FreeHead;
      CoveredSize(m, k, hs[1..]);
      BlockSize(hs[0], Pow(k));
      FirstApart(m, k, hs);
      CoveredStep(hs, k);
    }
  }

  lemma FirstApart(m: Meta, k: nat, hs: seq<nat>)
    requires Tiled(m) && hs != []
    requires forall i, j :: 0 <= i < j < |hs| ==> hs[i] != hs[j]
    requires forall h :: h in hs ==> FreeHead(m, h) && m.order[h] == k
    ensures forall p :: p in Block(hs[0], Pow(k)) ==> p !in Covered(hs[1..], k)
  {
    hide Owned, Placed, Apart, Pow, Covered;
    forall p | p in Block(hs[0], Pow(k))
      ensures p !in Covered(hs[1..], k)
    {
      CoveredMember(hs[1..], k, p);
      forall h | h in hs[1..]
        ensures !(h <= p < h + Pow(k))
      {
        var i :| 0 <= i < |hs[1..]| && hs[1..][i] == h;
        assert hs[0] in hs && h == hs[i + 1] && h in hs;
        NoSharedPage(m, hs[0], h, p, k);
      }
    }
  }

  lemma CoveredStep(hs: seq<nat>, k: nat)
    requires hs != [] && |Covered(hs[1..], k)| == (|hs| - 1) * Pow(k) && |Block(hs[0], Pow(k))| == Pow(k)
    requires forall p :: p in Block(hs[0], Pow(k)) ==> p !in Covered(hs[1..], k)
    ensures |Covered(hs, k)| == |hs| * Pow(k)
  {
    assert Block(hs[0], Pow(k)) !! Covered(hs[1..], k);
    var n, q := |hs|, Pow(k);
    assert q + (n - 1) * q == n * q;
  }

  lemma NoSharedPage(m: Meta, g: nat, h: nat, p: int, k: nat)
    requires Tiled(m) && Head(m, g) && Head(m, h) && m.order[g] == k == m.order[h] && g != h
    ensures !(g <= p < g + Pow(k) && h <= p < h + Pow(k))
  {
    HeadPlaced(m, g);
    hide Owned, Placed, Pow, Aligned;
    assert g <= p < g + Pow(k) ==> InChunk(m, g, p);
    assert h <= p < h + Pow(k) ==> InChunk(m, h, p);
  }

  lemma CoveredIsLevel(m: Meta, k: nat, hs: seq<nat>)
    requires Tiled(m)
    requires forall h :: h in hs <==> FreeHead(m, h) && m.order[h] == k
    ensures Covered(hs, k) == FreeLevel(m, k)
  {
    hide Placed, Pow, Aligned, Covered;
    forall p: int
      ensures p in Covered(hs, k) <==> p in FreeLevel(m, k)
    {
      CoveredMember(hs, k, p);
      if h :| h in hs && h <= p < h + Pow(k) {
        assert InChunk(m, h, p);
        HeadPlaced(m, h);
      }
      if p in FreeLevel(m, k) {
        PageOwner(m, p);
        assert m.owner[p] in hs;
      }
    }
  }

  lemma AllBelow(m: Meta)
    requires Tiled(m)
    ensures FreeBelow(m, MAX_ORDER) == FreePageSet(m)
  {
  }

  lemma LevelSplit(m: Meta, k: nat)
    requires Tiled(m)
    ensures |FreeBelow(m, k + 1)| == |FreeBelow(m, k)| + |FreeLevel(m, k)|
  {
    assert FreeBelow(m, k + 1) == FreeBelow(m, k) + FreeLevel(m, k);
  }

  /** Pages in the chunks of `live` whose heads are below n. */
  ghost function Total(live: map<nat, nat>, n: nat): nat {
    if n == 0 then 0 else Total(live, n - 1) + (if n - 1 in live then Pow(live[n - 1]) else 0)
  }

  lemma {:induction false} TotalGap(live: map<nat, nat>, a: nat, b: nat)
    requires a <= b && forall h :: a <= h < b ==> h !in live
    ensures Total(live, b) == Total(live, a)
    decreases b
  {
    if a < b {
      TotalGap(live, a, b - 1);
    }
  }

  /** Number of the n first pages that are in use. */
  ghost function Busy(m: Meta, n: nat): nat
    requires Tiled(m) && n <= |m.owner|
  {
    if n == 0 then 0 else Busy(m, n - 1) + if m.inUse[m.owner[n - 1]] then 1 else 0
  }

  /** The pages in use below a chunk boundary are those of the chunks handed out below it. */
  lemma {:induction false} BusyIsLive(m: Meta, n: nat)
    requires Tiled(m) && (n == |m.owner| || Head(m, n))
    ensures Busy(m, n) == Total(Live(m), n)
    decreases n
  {
    if n == 0 {
    } else {
      hide Tiled, Pow, Busy;
      var c := m.owner[n - 1];
      LastChunk(m, n);
      BusyIsLive(m, c);
      BusyRun(m, c, n);
      TotalGap(Live(m), c + 1, n);
    }
  }

  lemma {:induction false} BusyRun(m: Meta, c: nat, n: nat)
    requires Tiled(m) && c <= n <= |m.owner| && c < |m.owner| && forall p :: c <= p < n ==> m.owner[p] == c
    ensures Busy(m, n) == Busy(m, c) + if m.inUse[c] then n - c else 0
    decreases n
  {
    if c < n {
      BusyRun(m, c, n - 1);
    }
  }

  lemma {:induction false} FreePlusBusy(m: Meta, n: nat)
    requires Tiled(m) && n <= |m.owner|
    ensures |set p | p in FreePageSet(m) && p < n| + Busy(m, n) == n
    decreases n
  {
    hide Owned, Placed, Apart;
    var s := set p | p in FreePageSet(m) && p < n;
    if n > 0 {
      PageOwner(m, n - 1);
      FreePlusBusy(m, n - 1);
      BelowNext(FreePageSet(m), n - 1);
    } else {
      assert s == {};
    }
  }

  lemma BelowNext(s: set<int>, n: nat)
    ensures var t := set p | p in s && p < n;
            (set p | p in s && p < n + 1) == t + (if n in s then {n} else {}) && n !in t
  {
  }

  /** The chunk just below a chunk boundary ends there, and no other chunk starts inside it. */
  lemma LastChunk(m: Meta, n: nat)
    requires Tiled(m) && 0 < n <= |m.owner| && (n == |m.owner| || Head(m, n))
    ensures var c := m.owner[n - 1];
            && c < n && Head(m, c) && n - c == Pow(m.order[c])
            && (forall p :: c <= p < n ==> m.owner[p] == c)
            && (forall h :: c < h < n ==> h !in Live(m))
  {
    hide Pow, Aligned;
    var c := m.owner[n - 1];
    PageOwner(m, n - 1);
    HeadPlaced(m, c);
    if n < c + Pow(m.order[c]) {
      SameChunkOwner(m, c, n);
    }
    assert forall p :: c <= p < n ==> InChunk(m, c, p);
  }

  /** Conservation: free pages and the pages of the chunks handed out make up the pool. */
  lemma Conservation(m: Meta)
    requires Tiled(m)
    ensures |FreePageSet(m)| + Total(Live(m), |m.owner|) == |m.owner|
  {
    var n := |m.owner|;
    BusyIsLive(m, n);
    FreePlusBusy(m, n);
    assert FreePageSet(m) == set p | p in FreePageSet(m) && p < n;
  }
}
