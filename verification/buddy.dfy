/** The buddy page allocator: metadata arrays, intrusive free lists, recursive split and merge. */
module Buddy {
  import opened Sequences
  import opened Wrappers
  import opened Pow2
  import opened Lists
  import opened BuddyModel

  /** No page: the chunk to which the exception of SoundBut applies when there is none. */
  const NOBODY: int := -1
  const PAGE_SIZE: nat := 0x1000
  const PAGE_SIZE_ORDER: nat := 12

  /** List k holds exactly the heads of the free chunks of order k. */
  ghost predicate Listed(m: Meta, nodes: seq<ListHead>, rings: seq<seq<ListHead>>)
    requires Shape(m) && |nodes| == |m.owner|
  {
    && |rings| == MAX_ORDER
    && forall k, p :: 0 <= k < MAX_ORDER && 0 <= p < |nodes| ==>
         (nodes[p] in rings[k] <==> FreeHead(m, p) && m.order[p] == k)
  }

  /** The counters are the lengths of the lists. */
  ghost predicate Counted(nr: seq<nat>, rings: seq<seq<ListHead>>) {
    |nr| == |rings| == MAX_ORDER && forall k :: 0 <= k < MAX_ORDER ==> nr[k] + 1 == |rings[k]|
  }

  ghost function Push(rings: seq<seq<ListHead>>, k: nat, x: ListHead): seq<seq<ListHead>>
    requires k < |rings| && |rings[k]| > 0
  {
    rings[k := InsertAt(rings[k], 1, x)]
  }

  ghost function Drop(rings: seq<seq<ListHead>>, k: nat, i: nat): seq<seq<ListHead>>
    requires k < |rings| && i < |rings[k]|
  {
    rings[k := RemoveAt(rings[k], i)]
  }

  /** Every circle has its list head. */
  ghost predicate Headed(rings: seq<seq<ListHead>>) {
    |rings| == MAX_ORDER && forall k :: 0 <= k < MAX_ORDER ==> |rings[k]| > 0 && Distinct(rings[k])
  }

  /** Circle k starts at the head of list k and runs through nodes of the pool. */
  ghost predicate Shaped(heads: seq<ListHead>, all: set<ListHead>, rings: seq<seq<ListHead>>) {
    && |rings| == |heads| == MAX_ORDER
    && (forall k :: 0 <= k < MAX_ORDER ==> |rings[k]| > 0 && rings[k][0] == heads[k])
    && (forall k, i :: 0 <= k < MAX_ORDER && 0 <= i < |rings[k]| ==> rings[k][i] in all)
  }

  lemma PushShaped(heads: seq<ListHead>, all: set<ListHead>, rings: seq<seq<ListHead>>, k: nat, x: ListHead)
    requires Shaped(heads, all, rings) && k < MAX_ORDER && x in all
    ensures Shaped(heads, all, Push(rings, k, x))
  {
  }

  lemma DropShaped(heads: seq<ListHead>, all: set<ListHead>, rings: seq<seq<ListHead>>, k: nat, i: nat)
    requires Shaped(heads, all, rings) && k < MAX_ORDER && 0 < i < |rings[k]|
    ensures Shaped(heads, all, Drop(rings, k, i))
  {
  }

  lemma RemoveDistinct<T>(s: seq<T>, i: nat)
    requires i < |s| && Distinct(s)
    ensures Distinct(RemoveAt(s, i))
  {
  }

  lemma StillListed(rings: seq<seq<ListHead>>, k: nat, i: nat, y: ListHead)
    requires Headed(rings) && k < MAX_ORDER && i < |rings[k]| && y in rings[k] && y != rings[k][i]
    ensures y in Drop(rings, k, i)[k]
  {
    DropMembers(rings, k, i);
  }

  lemma TwoMembers<T>(s: seq<T>, x: T, y: T)
    requires x in s && y in s && x != y && x != s[0] && y != s[0]
    ensures |s| >= 3
  {
  }

  lemma PushMembers(rings: seq<seq<ListHead>>, k: nat, x: ListHead)
    requires k < |rings| && |rings[k]| > 0
    ensures forall j, y :: 0 <= j < |rings| ==> (y in Push(rings, k, x)[j] <==> y in rings[j] || (j == k && y == x))
  {
    InsertMembers(rings[k], 1, x);
  }

  lemma DropMembers(rings: seq<seq<ListHead>>, k: nat, i: nat)
    requires k < |rings| && i < |rings[k]| && Distinct(rings[k])
    ensures forall j, y :: 0 <= j < |rings| ==>
      (y in Drop(rings, k, i)[j] <==> y in rings[j] && !(j == k && y == rings[k][i]))
  {
    RemoveMembers(rings[k], i);
  }

  /** The lists after chunk h, at position i of list k, is cut in two. */
  ghost function SplitRings(rings: seq<seq<ListHead>>, k: nat, i: nat, x: ListHead, y: ListHead): seq<seq<ListHead>>
    requires Headed(rings) && 0 < k < MAX_ORDER && 0 < i < |rings[k]|
  {
    Push(Push(Drop(rings, k, i), k - 1, x), k - 1, y)
  }

  lemma SplitRingSizes(rings: seq<seq<ListHead>>, k: nat, i: nat, x: ListHead, y: ListHead)
    requires Headed(rings) && 0 < k < MAX_ORDER && 0 < i < |rings[k]|
    ensures var r := SplitRings(rings, k, i, x, y);
            |r| == MAX_ORDER && forall j :: 0 <= j < MAX_ORDER ==>
              |r[j]| == if j == k then |rings[k]| - 1 else if j == k - 1 then |rings[j]| + 2 else |rings[j]|
  {
  }

  lemma SplitRingMembers(rings: seq<seq<ListHead>>, k: nat, i: nat, x: ListHead, y: ListHead)
    requires Headed(rings) && 0 < k < MAX_ORDER && 0 < i < |rings[k]|
    ensures var r := SplitRings(rings, k, i, x, y);
            |r| == MAX_ORDER && forall j, z :: 0 <= j < MAX_ORDER ==>
              (z in r[j] <==> (z in rings[j] && !(j == k && z == rings[k][i])) || (j == k - 1 && (z == x || z == y)))
  {
    var r1 := Drop(rings, k, i);
    var r2 := Push(r1, k - 1, x);
    DropMembers(rings, k, i);
    PushMembers(r1, k - 1, x);
    PushMembers(r2, k - 1, y);
    assert |r1| == |r2| == MAX_ORDER;
    hide Drop, Push, Headed;
  }

  lemma SplitListedAt(m: Meta, nodes: seq<ListHead>, rings: seq<seq<ListHead>>, h: nat, i: nat, j: nat, p: nat)
    requires Tiled(m) && FreeHead(m, h) && m.order[h] > 0
    requires h + Pow(m.order[h] - 1) < |m.owner|
    requires |nodes| == |m.owner| && Distinct(nodes) && Headed(rings) && Listed(m, nodes, rings)
    requires 0 < i < |rings[m.order[h]]| && rings[m.order[h]][i] == nodes[h] && p < |nodes|
    ensures var b := h + Pow(m.order[h] - 1);
            var m' := Split(m, h);
            var r := SplitRings(rings, m.order[h], i, nodes[h], nodes[b]);
            && Shape(m') && |m'.owner| == |m.owner| && |r| == MAX_ORDER
            && (j < MAX_ORDER && nodes[p] in r[j] <==> FreeHead(m', p) && m'.order[p] == j)
  {
    hide Owned, Apart, Pow, Aligned, Split, SplitRings;
    var k := m.order[h];
    var b := h + Pow(k - 1);
    SplitSelf(m, h);
    SplitShape(m, h);
    SplitRingMembers(rings, k, i, nodes[h], nodes[b]);
    if p != h && p != b {
      SplitOther(m, h, p);
    }
  }

  lemma SplitListed(m: Meta, nodes: seq<ListHead>, rings: seq<seq<ListHead>>, h: nat, i: nat)
    requires Tiled(m) && FreeHead(m, h) && m.order[h] > 0
    requires h + Pow(m.order[h] - 1) < |m.owner|
    requires |nodes| == |m.owner| && Distinct(nodes) && Headed(rings) && Listed(m, nodes, rings)
    requires 0 < i < |rings[m.order[h]]| && rings[m.order[h]][i] == nodes[h]
    ensures var b := h + Pow(m.order[h] - 1);
            Shape(Split(m, h)) && Listed(Split(m, h), nodes, SplitRings(rings, m.order[h], i, nodes[h], nodes[b]))
  {
    hide Owned, Apart, Aligned, Pow, Split, SplitRings, Distinct;
    var k := m.order[h];
    var b := h + Pow(k - 1);
    var m' := Split(m, h);
    var r := SplitRings(rings, k, i, nodes[h], nodes[b]);
    SplitListedAt(m, nodes, rings, h, i, 0, h);
    forall j, p | 0 <= j < MAX_ORDER && 0 <= p < |nodes|
      ensures nodes[p] in r[j] <==> FreeHead(m', p) && m'.order[p] == j
    {
      SplitListedAt(m, nodes, rings, h, i, j, p);
    }
  }

  /** Metadata, lists and counters agree, and only chunk x may have a free buddy of its own order. */
  ghost predicate Sound(m: Meta, nodes: seq<ListHead>, rings: seq<seq<ListHead>>, nr: seq<nat>, x: int) {
    && Tiled(m) && CoalescedBut(m, x)
    && |nodes| == |m.owner| && Listed(m, nodes, rings) && Counted(nr, rings)
  }

  /** What one cut of chunk h, found at position i of its list, stores. */
  ghost predicate CutStores(m: Meta, nodes: seq<ListHead>, rings: seq<seq<ListHead>>, nr: seq<nat>, h: nat, i: nat,
                            m': Meta, rings': seq<seq<ListHead>>, nr': seq<nat>)
  {
    && Tiled(m) && FreeHead(m, h) && 0 < m.order[h] < MAX_ORDER
    && |nodes| == |m.owner| && Headed(rings) && Counted(nr, rings)
    && var k := m.order[h];
       var b := h + Pow(k - 1);
       && 0 < i < |rings[k]| && rings[k][i] == nodes[h] && b < |m.owner| && nr[k] > 0
       && m' == Split(m, h) && rings' == SplitRings(rings, k, i, nodes[h], nodes[b])
       && nr' == nr[k := nr[k] - 1][k - 1 := nr[k - 1] + 2]
  }

  lemma CutSound(m: Meta, nodes: seq<ListHead>, rings: seq<seq<ListHead>>, nr: seq<nat>, h: nat, i: nat,
                 m': Meta, rings': seq<seq<ListHead>>, nr': seq<nat>)
    requires Sound(m, nodes, rings, nr, h) && Distinct(nodes)
    requires CutStores(m, nodes, rings, nr, h, i, m', rings', nr')
    ensures Sound(m', nodes, rings', nr', h) && SameUse(m, m') && FreeHead(m', h) && m'.order[h] == m.order[h] - 1
  {
    hide Owned, Placed, Apart, Pow, SameUse, Listed, Headed, Distinct, Split, SplitRings, CoalescedBut;
    SplitKeeps(m, h);
    SplitSelf(m, h);
    SplitShape(m, h);
    SplitListed(m, nodes, rings, h, i);
    SplitRingSizes(rings, m.order[h], i, nodes[h], nodes[h + Pow(m.order[h] - 1)]);
  }

  ghost function MergeRings(rings: seq<seq<ListHead>>, k: nat, i: nat, j: nat, x: ListHead): seq<seq<ListHead>>
    requires Headed(rings) && k + 1 < MAX_ORDER && i < |rings[k]| && j < |rings[k]| - 1
  {
    Push(Drop(Drop(rings, k, i), k, j), k + 1, x)
  }

  lemma MergeRingMembers(rings: seq<seq<ListHead>>, k: nat, i: nat, j: nat, x: ListHead)
    requires Headed(rings) && k + 1 < MAX_ORDER && i < |rings[k]| && j < |rings[k]| - 1
    ensures var r := MergeRings(rings, k, i, j, x);
            |r| == MAX_ORDER && |Drop(rings, k, i)[k]| == |rings[k]| - 1 && forall l, z :: 0 <= l < MAX_ORDER ==>
              (z in r[l] <==>
                 (z in rings[l] && !(l == k && (z == rings[k][i] || z == Drop(rings, k, i)[k][j])))
                 || (l == k + 1 && z == x))
    ensures var r := MergeRings(rings, k, i, j, x);
            forall l :: 0 <= l < MAX_ORDER ==>
              |r[l]| == if l == k then |rings[k]| - 2 else if l == k + 1 then |rings[l]| + 1 else |rings[l]|
  {
    var r1 := Drop(rings, k, i);
    var r2 := Drop(r1, k, j);
    DropMembers(rings, k, i);
    RemoveDistinct(rings[k], i);
    DropMembers(r1, k, j);
    PushMembers(r2, k + 1, x);
    assert |r1| == |r2| == MAX_ORDER;
  }

  /** What merging the buddies at lo and lo + 2^k, found at positions i and then j of list k, stores. */
  ghost predicate MergeStores(m: Meta, nodes: seq<ListHead>, rings: seq<seq<ListHead>>, nr: seq<nat>, lo: nat, x: nat,
                              i: nat, j: nat, m': Meta, rings': seq<seq<ListHead>>, nr': seq<nat>)
  {
    && Tiled(m) && Mergeable(m, lo)
    && |nodes| == |m.owner| && Headed(rings) && Counted(nr, rings)
    && var k := m.order[lo];
       var hi := lo + Pow(k);
       && (x == lo || x == hi)
       && 0 < i < |rings[k]| && j < |rings[k]| - 1 && nr[k] >= 2
       && rings[k][i] == nodes[x] && Drop(rings, k, i)[k][j] == nodes[if x == lo then hi else lo]
       && m' == Merge(m, lo) && rings' == MergeRings(rings, k, i, j, nodes[lo])
       && nr' == nr[k := nr[k] - 2][k + 1 := nr[k + 1] + 1]
  }

  lemma MergeListedAt(m: Meta, nodes: seq<ListHead>, rings: seq<seq<ListHead>>, nr: seq<nat>, lo: nat, x: nat,
                      i: nat, j: nat, m': Meta, rings': seq<seq<ListHead>>, nr': seq<nat>, l: nat, p: nat)
    requires Distinct(nodes) && MergeStores(m, nodes, rings, nr, lo, x, i, j, m', rings', nr')
    requires Listed(m, nodes, rings) && l < MAX_ORDER && p < |nodes|
    ensures |m'.owner| == |m.owner| && Shape(m') && |rings'| == MAX_ORDER
    ensures nodes[p] in rings'[l] <==> FreeHead(m', p) && m'.order[p] == l
  {
    MergeHeads(m, lo);
    MergeRingMembers(rings, m.order[lo], i, j, nodes[lo]);
    hide Tiled, Pow, Aligned, MergeRings, Headed, Drop;
  }

  lemma MergeSound(m: Meta, nodes: seq<ListHead>, rings: seq<seq<ListHead>>, nr: seq<nat>, lo: nat, x: nat,
                   i: nat, j: nat, m': Meta, rings': seq<seq<ListHead>>, nr': seq<nat>)
    requires Sound(m, nodes, rings, nr, x) && Distinct(nodes)
    requires MergeStores(m, nodes, rings, nr, lo, x, i, j, m', rings', nr')
    ensures Sound(m', nodes, rings', nr', lo) && SameUse(m, m') && FreeHead(m', lo) && m'.order[lo] == m.order[lo] + 1
  {
    MergeKeeps(m, lo, x);
    MergeRingMembers(rings, m.order[lo], i, j, nodes[lo]);
    forall l, p | 0 <= l < MAX_ORDER && 0 <= p < |nodes|
      ensures nodes[p] in rings'[l] <==> FreeHead(m', p) && m'.order[p] == l
    {
      MergeListedAt(m, nodes, rings, nr, lo, x, i, j, m', rings', nr', l, p);
    }
    hide Owned, Placed, Apart, Pow, SameUse, Headed, Distinct, MergeRings, CoalescedBut, FreeHead, Aligned, Drop;
  }

  /** The chunk at position i of its list is handed out. */
  lemma TakeSound(m: Meta, nodes: seq<ListHead>, rings: seq<seq<ListHead>>, nr: seq<nat>, h: nat, i: nat)
    requires Sound(m, nodes, rings, nr, h) && Distinct(nodes) && Headed(rings)
    requires FreeHead(m, h) && m.order[h] < MAX_ORDER
    requires 0 < i < |rings[m.order[h]]| && rings[m.order[h]][i] == nodes[h] && nr[m.order[h]] > 0
    ensures var k := m.order[h];
            Sound(SetInUse(m, h, true), nodes, Drop(rings, k, i), nr[k := nr[k] - 1], NOBODY)
  {
    var k := m.order[h];
    var m' := SetInUse(m, h, true);
    TakeChunk(m, h);
    DropMembers(rings, k, i);
    assert Counted(nr[k := nr[k] - 1], Drop(rings, k, i));
    hide Tiled, Live, FreePair, Drop, Headed, Counted;
  }

  /** A chunk handed out comes back to the front of its list. */
  lemma GiveSound(m: Meta, nodes: seq<ListHead>, rings: seq<seq<ListHead>>, nr: seq<nat>, h: nat)
    requires Sound(m, nodes, rings, nr, NOBODY) && Distinct(nodes) && Headed(rings)
    requires h in Live(m) && m.order[h] < MAX_ORDER
    ensures var k := m.order[h];
            var m' := SetInUse(m, h, false);
            Sound(m', nodes, Push(rings, k, nodes[h]), nr[k := nr[k] + 1], h) && FreeHead(m', h)
  {
    GiveShape(m, h);
    hide Owned, Placed, Apart, FreePair, Push, Counted, SetInUse, Live;
    var k := m.order[h];
    NobodyCoalesced(m);
    GiveChunk(m, h);
    PushMembers(rings, k, nodes[h]);
    GiveCounted(nr, rings, k, nodes[h]);
  }

  lemma GiveShape(m: Meta, h: nat)
    requires Shape(m) && h in Live(m)
    ensures var m' := SetInUse(m, h, false);
            Shape(m') && m'.order == m.order && m'.inUse == m.inUse[h := false] && m'.owner == m.owner
              && m'.base == m.base
    ensures Head(m, h) && m.inUse[h]
  {
  }

  lemma GiveCounted(nr: seq<nat>, rings: seq<seq<ListHead>>, k: nat, x: ListHead)
    requires Counted(nr, rings) && Headed(rings) && k < MAX_ORDER
    ensures Counted(nr[k := nr[k] + 1], Push(rings, k, x))
  {
  }

  /** Every page handed out as a chunk of its own, and every list empty. */
  lemma StartSound(m: Meta, nodes: seq<ListHead>, heads: seq<ListHead>, rings: seq<seq<ListHead>>, nr: seq<nat>)
    requires |m.owner| == |m.order| == |m.inUse| == |nodes|
    requires forall p :: 0 <= p < |m.owner| ==> m.owner[p] == p && m.order[p] == 0 && m.inUse[p]
    requires |rings| == |nr| == |heads| == MAX_ORDER
    requires forall k :: 0 <= k < MAX_ORDER ==> rings[k] == [heads[k]] && nr[k] == 0
    requires forall p :: 0 <= p < |nodes| ==> nodes[p] !in heads
    ensures Sound(m, nodes, rings, nr, NOBODY)
    ensures forall p :: p in Live(m) <==> 0 <= p < |nodes|
  {
    assert forall k :: 0 <= k < MAX_ORDER ==> heads[k] in heads;
  }

  lemma NobodyCoalesced(m: Meta)
    requires Tiled(m)
    ensures CoalescedBut(m, NOBODY) <==> Coalesced(m)
  {
  }

  /** The chunk of order j at r contains the chunk of order k at h. */
  ghost predicate Holds(r: nat, j: nat, h: nat, k: nat) {
    r <= h && h + Pow(k) <= r + Pow(j)
  }

  class Pool {
    const startAddr: nat
    const pageNum: nat
    const nodes: seq<ListHead>
    const heads: seq<ListHead>
    const order: array<nat>
    const inUse: array<bool>
    const nrFree: array<nat>
    ghost var owner: seq<nat>
    ghost var rings: seq<seq<ListHead>>

    ghost function Base(): nat {
      startAddr / PAGE_SIZE
    }

    /** All list nodes of the pool, of pages and of list heads. */
    ghost function NodeSet(): set<ListHead> {
      (set x | x in nodes) + (set x | x in heads)
    }

    ghost function State(): (m: Meta)
      reads `owner, order, inUse
    {
      Meta(Base(), order[..], inUse[..], owner)
    }

    /** The memory layout, which no operation changes. */
    ghost predicate Layout() {
      && startAddr % PAGE_SIZE == 0
      && |nodes| == pageNum == order.Length == inUse.Length
      && |heads| == MAX_ORDER == nrFree.Length
      && order != nrFree
      && (forall i :: 0 <= i < |nodes| ==> nodes[i].record == i && nodes[i] !in heads)
    }

    ghost predicate Linked()
      reads `rings, NodeSet()
      requires Layout()
    {
      Shaped(heads, NodeSet(), rings) && Rings(rings)
    }

    ghost predicate Unlisted(page: nat)
      reads `rings
      requires page < |nodes|
    {
      forall k :: 0 <= k < |rings| ==> nodes[page] !in rings[k]
    }

    /** The pool is sound, except that chunk x and a free buddy may both be free and of one order. */
    ghost predicate SoundBut(x: int)
      reads this, order, inUse, nrFree, NodeSet()
    {
      Layout() && Linked() && Sound(State(), nodes, rings, nrFree[..], x)
    }

    ghost predicate Valid()
      reads this, order, inUse, nrFree, NodeSet()
    {
      SoundBut(NOBODY)
    }

    /** The page is the first of the list of its order. */
    ghost predicate First(page: nat)
      reads `rings, order
    {
      && page < order.Length && page < |nodes| && order[page] < |rings| && |rings[order[page]]| > 1
      && rings[order[page]][1] == nodes[page]
    }

    static method NewNodes(n: nat) returns (s: seq<ListHead>)
      ensures |s| == n && Distinct(s)
      ensures forall j :: 0 <= j < n ==> s[j].record == j && s[j].next == s[j] == s[j].prev && fresh(s[j])
    {
      s := [];
      while |s| < n
        invariant |s| <= n && Distinct(s)
        invariant forall j :: 0 <= j < |s| ==> s[j].record == j && s[j].next == s[j] == s[j].prev && fresh(s[j])
      {
        var x := new ListHead(|s|);
        s := s + [x];
      }
    }

    /** Starts with every page handed out on its own, then takes the pages back one by one. */
    constructor (startAddr: nat, pageNum: nat)
      requires startAddr % PAGE_SIZE == 0
      ensures Valid() && this.startAddr == startAddr && this.pageNum == pageNum
      ensures Live(State()) == map[]
      ensures fresh(order) && fresh(inUse) && fresh(nrFree) && fresh(NodeSet())
    {
      var ns := NewNodes(pageNum);
      var hs := NewNodes(MAX_ORDER);
      assert forall p :: 0 <= p < pageNum ==> ns[p] !in hs;
      this.startAddr, this.pageNum, nodes, heads := startAddr, pageNum, ns, hs;
      order := new nat[pageNum](p => 0);
      inUse := new bool[pageNum](p => true);
      nrFree := new nat[MAX_ORDER](p => 0);
      owner := seq(pageNum, p => p);
      rings := seq(MAX_ORDER, j requires 0 <= j < MAX_ORDER => [hs[j]]);
      new;
      hide *;
      Started();
      ReleaseAll();
    }

    lemma Started()
      requires Layout() && Distinct(heads) && |rings| == MAX_ORDER && |owner| == pageNum
      requires forall j :: 0 <= j < MAX_ORDER ==>
                 rings[j] == [heads[j]] && heads[j].next == heads[j] == heads[j].prev && nrFree[j] == 0
      requires forall p :: 0 <= p < pageNum ==> owner[p] == p && order[p] == 0 && inUse[p]
      ensures Valid() && forall p :: p in Live(State()) <==> 0 <= p < pageNum
    {
      hide Tiled, Sound, Listed, Counted, Live, CoalescedBut;
      StartSound(State(), nodes, heads, rings, nrFree[..]);
      hide Distinct;
      StartLinked();
    }

    lemma StartLinked()
      requires Layout() && Distinct(heads) && |rings| == MAX_ORDER
      requires forall j :: 0 <= j < MAX_ORDER ==> rings[j] == [heads[j]] && heads[j].next == heads[j] == heads[j].prev
      ensures Linked()
    {
    }

    /** Gives every page back, each being handed out on its own. */
    method ReleaseAll()
      requires Valid() && forall p :: p in Live(State()) <==> 0 <= p < pageNum
      modifies this, order, inUse, nrFree, NodeSet()
      ensures Valid() && Live(State()) == map[]
    {
      hide Owned, Placed, Apart, Linked, Listed, CoalescedBut, Live;
      var i := 0;
      while i < pageNum
        invariant i <= pageNum
        invariant Valid() && forall p :: p in Live(State()) <==> i <= p < pageNum
      {
        FreePages(i);
        i := i + 1;
      }
    }

    /** A page that heads no free chunk is on no list. */
    lemma NotListed(page: nat, x: int)
      requires SoundBut(x) && page < pageNum && !FreeHead(State(), page)
      ensures Unlisted(page)
    {
      assert forall k :: 0 <= k < |rings| ==> nodes[page] !in rings[k];
    }

    /** The head of a free chunk of order k is on list k. */
    lemma OnList(page: nat, x: int)
      requires SoundBut(x) && FreeHead(State(), page)
      ensures page < pageNum && order[page] < MAX_ORDER && |rings| == MAX_ORDER
      ensures nodes[page] in rings[order[page]] && nrFree[order[page]] + 1 == |rings[order[page]]| >= 2
      ensures Headed(rings) && Distinct(nodes)
    {
      var k := order[page];
      HeadPlaced(State(), page);
      hide Tiled, CoalescedBut;
      assert nodes[page] != rings[k][0];
      assert forall k :: 0 <= k < MAX_ORDER ==> Ring(rings[k]);
      assert forall i, j :: 0 <= i < j < |nodes| ==> nodes[i].record != nodes[j].record;
    }

    /** The list operations and metadata stores of one cut are possible. */
    lemma CutReady(page: nat)
      requires SoundBut(page) && FreeHead(State(), page) && order[page] > 0
      ensures page < pageNum && order[page] < MAX_ORDER && |rings| == MAX_ORDER && |owner| == pageNum
      ensures nodes[page] in rings[order[page]] && nrFree[order[page]] > 0
      ensures Headed(rings) && Distinct(nodes)
      ensures var b := page + Pow(order[page] - 1);
              b < pageNum && BuddyModel.Buddy(Base(), page, order[page] - 1) == b && b != page && Unlisted(b)
      ensures Tiled(State()) && Counted(nrFree[..], rings)
    {
      hide Owned, Placed, Apart, CoalescedBut, Listed, Linked, Pow, FlipBit, Headed, Distinct, Unlisted;
      OnList(page, page);
      SplitBuddy(State(), page);
      SplitSelf(State(), page);
      NotListed(page + Pow(order[page] - 1), page);
    }

    lemma HeadFirst(k: nat)
      requires Layout() && Linked() && k < MAX_ORDER
      ensures |rings| == MAX_ORDER && |rings[k]| > 0 && rings[k][0] == heads[k]
    {
    }

    /** The list operations and metadata stores of one merge are possible. */
    lemma MergeReady(page: nat, buddy: nat)
      requires SoundBut(page) && FreePair(State(), page)
      requires buddy == BuddyModel.Buddy(Base(), page, order[page])
      ensures page < pageNum && buddy < pageNum && page != buddy && |owner| == pageNum
      ensures order[page] < MAX_ORDER - 1 && order[buddy] == order[page] && |rings| == MAX_ORDER
      ensures nodes[page] in rings[order[page]] && nodes[buddy] in rings[order[page]] && nrFree[order[page]] >= 2
      ensures Headed(rings) && Distinct(nodes)
      ensures Tiled(State()) && Counted(nrFree[..], rings)
      ensures var lo := if buddy < page then buddy else page;
              Mergeable(State(), lo) && lo + Pow(order[lo]) == if buddy < page then page else buddy
      ensures var lo := if buddy < page then buddy else page;
              lo <= page && page + Pow(order[page]) <= lo + Pow(order[page] + 1)
    {
      hide Owned, Placed, Apart, CoalescedBut, Linked, Pow, FlipBit, Headed, Distinct, Unlisted;
      OnList(page, page);
      OnList(buddy, page);
      PairIsMergeable(State(), page);
      assert rings[order[page]][0] == heads[order[page]] by {
        HeadFirst(order[page]);
      }
      assert nodes[page].record != nodes[buddy].record;
      PowDouble(order[page]);
      TwoMembers(rings[order[page]], nodes[page], nodes[buddy]);
    }

    /** list_add of a page to the front of list k. */
    method PushFree(page: nat, k: nat)
      requires Layout() && Linked() && page < pageNum && k < MAX_ORDER && Unlisted(page)
      modifies `rings, NodeSet()
      ensures Linked() && rings == Push(old(rings), k, nodes[page])
      ensures forall p :: 0 <= p < pageNum && p != page && old(Unlisted(p)) ==> Unlisted(p)
    {
      PushMembers(rings, k, nodes[page]);
      assert forall p :: 0 <= p < pageNum && p != page ==> nodes[p] != nodes[page] by {
        assert forall p :: 0 <= p < pageNum ==> nodes[p].record == p;
      }
      PushShaped(heads, NodeSet(), rings, k, nodes[page]);
      ghost var pushed := Push(rings, k, nodes[page]);
      assert nodes[page] in NodeSet() && pushed == rings[k := InsertAt(rings[k], 1, nodes[page])];
      assert |rings| == MAX_ORDER && rings[k][0] == heads[k];
      assert forall j :: 0 <= j < |rings[k]| ==> rings[k][j] in NodeSet();
      hide InsertAt, Push, NodeSet, Shaped, Rings, Ring, Layout;
      ListAddIn(nodes[page], heads[k], rings, k, 0);
      rings := pushed;
    }

    /** list_del of a page that is on list k. */
    method DropFree(page: nat, k: nat) returns (ghost i: nat)
      requires Layout() && Linked() && page < pageNum && k < MAX_ORDER && nodes[page] in rings[k]
      modifies `rings, NodeSet()
      ensures 0 < i < |old(rings)[k]| && old(rings)[k][i] == nodes[page]
      ensures Linked() && Unlisted(page) && rings == Drop(old(rings), k, i)
      ensures forall p :: 0 <= p < pageNum && old(Unlisted(p)) ==> Unlisted(p)
    {
      i :| 0 <= i < |rings[k]| && rings[k][i] == nodes[page];
      DropShaped(heads, NodeSet(), rings, k, i);
      DropMembers(rings, k, i);
      ListDelIn(nodes[page], rings, k, i);
      rings := rings[k := RemoveAt(rings[k], i)];
    }

    function PageToVirt(page: nat): nat {
      page * PAGE_SIZE + startAddr
    }

    function VirtToPage(addr: nat): nat
      requires startAddr <= addr
    {
      (addr - startAddr) / PAGE_SIZE
    }

    /** The chunk whose address differs in the bit of this chunk's size, if it starts in the pool. */
    method GetBuddyChunk(chunk: nat) returns (buddy: Option<nat>)
      requires Layout() && chunk < pageNum
      ensures var b := BuddyModel.Buddy(Base(), chunk, order[chunk]);
              buddy == if 0 <= b < pageNum then Some(b) else None
    {
      var chunkAddr := PageToVirt(chunk);
      var buddyAddr := Xor(chunkAddr, Pow(order[chunk] + PAGE_SIZE_ORDER));
      BuddyAddress(Base() + chunk, order[chunk]);
      if buddyAddr < startAddr || buddyAddr >= startAddr + pageNum * PAGE_SIZE {
        return None;
      }
      return Some(VirtToPage(buddyAddr));
    }

    /**
     * Cuts a free chunk down to the target order, keeping its low end, and puts the parts cut off on
     * the free lists. Nothing happens to a chunk that is in use or not larger than the target.
     */
    method SplitPage(target: nat, page: nat) returns (r: nat)
      requires SoundBut(page) && Head(State(), page)
      modifies this, order, inUse, nrFree, NodeSet()
      ensures r == page
      ensures SoundBut(page) && SameUse(old(State()), State())
      ensures Head(State(), page) && inUse[page] == old(inUse[page])
      ensures order[page] == if old(inUse[page]) || old(order[page]) < target then old(order[page]) else target
      decreases order[page] - target
    {
      r := page;
      if order[page] == 0 || inUse[page] {
        return;
      }
      if order[page] <= target {
        return;
      }
      if order[page] > target + 1 {
        r := SplitPage(target + 1, page);
      }
      SplitOnce(page);
    }

    /**
     * Merges the free chunk with its buddy as long as the buddy is a free chunk of the same order,
     * and returns the head of the chunk that the page ends up in.
     */
    method MergePage(page: nat) returns (r: nat)
      requires SoundBut(page) && FreeHead(State(), page)
      modifies this, order, inUse, nrFree, NodeSet()
      ensures Valid() && SameUse(old(State()), State())
      ensures FreeHead(State(), r) && Holds(r, order[r], page, old(order[page]))
      ensures old(First(page)) ==> First(r)
      decreases MAX_ORDER - order[page]
    {
      OnList(page, page);
      if order[page] >= MAX_ORDER - 1 || inUse[page] {
        MergeStop(page);
        return page;
      }
      var found := GetBuddyChunk(page);
      if 0 <= BuddyModel.Buddy(Base(), page, order[page]) < pageNum {
        BuddyIsHead(State(), page);
      }
      if found == None || inUse[found.value] || order[found.value] != order[page] {
        MergeStop(page);
        return page;
      }
      r := MergeOnce(page, found.value);
      r := MergePage(r);
    }

    /** The chunk has no free buddy of its own order, so the exception made for it is not needed. */
    lemma MergeStop(page: nat)
      requires SoundBut(page) && FreeHead(State(), page) && !FreePair(State(), page)
      ensures Valid()
    {
      MergeDone(State(), page);
      NobodyCoalesced(State());
    }

    /** Two buddies leave list k, and the counters already show the merged chunk on list k + 1. */
    method UnlinkPair(page: nat, buddy: nat, k: nat) returns (ghost i: nat, ghost j: nat)
      requires Layout() && Linked() && Headed(rings) && k + 1 < MAX_ORDER && nrFree[k] >= 2
      requires page < pageNum && buddy < pageNum && nodes[page] != nodes[buddy]
      requires nodes[page] in rings[k] && nodes[buddy] in rings[k]
      modifies `rings, nrFree, NodeSet()
      ensures Linked() && Unlisted(page) && Unlisted(buddy)
      ensures 0 < i < |old(rings)[k]| && j < |old(rings)[k]| - 1
      ensures old(rings)[k][i] == nodes[page] && Drop(old(rings), k, i)[k][j] == nodes[buddy]
      ensures rings == Drop(Drop(old(rings), k, i), k, j)
      ensures nrFree[..] == old(nrFree[..])[k := old(nrFree[k]) - 2][k + 1 := old(nrFree[k + 1]) + 1]
    {
      ghost var rings0 := rings;
      assert |rings0| == MAX_ORDER == nrFree.Length;
      hide *;
      nrFree[k] := nrFree[k] - 2;
      nrFree[k + 1] := nrFree[k + 1] + 1;
      ghost var nr := nrFree[..];
      assert nr == old(nrFree[..])[k := old(nrFree[k]) - 2][k + 1 := old(nrFree[k + 1]) + 1];
      i := DropFree(page, k);
      StillListed(rings0, k, i, nodes[buddy]);
      j := DropFree(buddy, k);
      assert nrFree[..] == nr;
    }

    /** A chunk on no list gets one order more and enters the list of that order. */
    method GrowChunk(page: nat)
      requires Layout() && Linked() && page < pageNum && order[page] + 1 < MAX_ORDER && Unlisted(page)
      modifies `rings, order, NodeSet()
      ensures Linked() && order[..] == old(order[..])[page := old(order[page]) + 1]
      ensures inUse[..] == old(inUse[..]) && nrFree[..] == old(nrFree[..])
      ensures |old(rings)| == MAX_ORDER && |old(rings)[order[page]]| > 0
      ensures rings == Push(old(rings), order[page], nodes[page]) && First(page)
    {
      HeadFirst(order[page] + 1);
      hide *;
      ghost var inUse0, nr0, rings0 := inUse[..], nrFree[..], rings;
      order[page] := order[page] + 1;
      ghost var order1 := order[..];
      assert inUse[..] == inUse0 && nrFree[..] == nr0;
      PushFree(page, order[page]);
      assert order[..] == order1 && inUse[..] == inUse0 && nrFree[..] == nr0;
      PushedFirst(page, rings0);
    }

    lemma PushedFirst(page: nat, r: seq<seq<ListHead>>)
      requires page < order.Length && page < |nodes| && order[page] < |r| && |r[order[page]]| > 0
      requires rings == Push(r, order[page], nodes[page])
      ensures First(page)
    {
    }

    /** A chunk and its free buddy leave list k; the lower one enters list k + 1. */
    method MergeOnce(page: nat, buddy: nat) returns (merged: nat)
      requires SoundBut(page) && FreePair(State(), page)
      requires buddy == BuddyModel.Buddy(Base(), page, order[page])
      modifies this, order, inUse, nrFree, NodeSet()
      ensures SoundBut(merged) && SameUse(old(State()), State())
      ensures FreeHead(State(), merged) && order[merged] == old(order[page]) + 1 && First(merged)
      ensures Holds(merged, order[merged], page, old(order[page]))
    {
      hide Sound, Linked, Pow, FlipBit, SameUse, Distinct, Tiled, Headed, FreeHead, FreePair, Unlisted,
           Mergeable, BuddyModel.Buddy, First;
      MergeReady(page, buddy);
      ghost var m, rings0, nr, k := State(), rings, nrFree[..], order[page];
      ghost var lo := if buddy < page then buddy else page;

      ghost var i, j := UnlinkPair(page, buddy, order[page]);

      if buddy < page {
        merged := buddy;
      } else {
        merged := page;
      }
      GrowChunk(merged);
      assert First(merged);

      owner := Reown(owner, lo, Pow(k + 1));
      assert State() == Merge(m, lo);
      assert rings == MergeRings(rings0, k, i, j, nodes[lo]);
      assert nrFree[..] == nr[k := nr[k] - 2][k + 1 := nr[k + 1] + 1];
      hide *;
      MergeSound(m, nodes, rings0, nr, lo, page, i, j, State(), rings, nrFree[..]);
    }

    /** Both halves of a cut chunk enter list k, the upper half in front. */
    method LinkHalves(page: nat, buddy: nat, k: nat)
      requires Layout() && Linked() && k < MAX_ORDER == |rings|
      requires page < pageNum && buddy < pageNum && page != buddy && Unlisted(page) && Unlisted(buddy)
      modifies `rings, nrFree, NodeSet()
      ensures Linked() && |old(rings)[k]| > 0 && rings == Push(Push(old(rings), k, nodes[page]), k, nodes[buddy])
      ensures nrFree[..] == old(nrFree[..])[k := old(nrFree[k]) + 2]
    {
      assert |rings[k]| > 0;
      hide Linked, Unlisted;
      PushFree(page, k);
      PushFree(buddy, k);
      nrFree[k] := nrFree[k] + 2;
    }

    /** The metadata stores of one cut: the chunk has one order less, and so has its new buddy, which is free. */
    method CutMeta(page: nat) returns (buddy: nat)
      requires Layout() && page < pageNum && order[page] > 0
      requires var b := BuddyModel.Buddy(Base(), page, order[page] - 1); 0 <= b < pageNum && b != page
      modifies order, inUse
      ensures buddy == BuddyModel.Buddy(Base(), page, old(order[page]) - 1)
      ensures order[..] == old(order[..])[page := old(order[page]) - 1][buddy := old(order[page]) - 1]
      ensures inUse[..] == old(inUse[..])[buddy := false] && order[page] == old(order[page]) - 1
    {
      hide FlipBit, Pow, BuddyModel.Buddy;
      order[page] := order[page] - 1;
      var chunk := GetBuddyChunk(page);
      buddy := chunk.value;
      order[buddy] := order[page];
      inUse[buddy] := false;
    }

    /** One cut: the chunk leaves list k and its two halves enter list k - 1, the upper half first. */
    method SplitOnce(page: nat)
      requires SoundBut(page) && FreeHead(State(), page) && order[page] > 0
      modifies this, order, inUse, nrFree, NodeSet()
      ensures SoundBut(page) && SameUse(old(State()), State())
      ensures FreeHead(State(), page) && order[page] == old(order[page]) - 1
    {
      hide Sound, Linked, Pow, FlipBit, SameUse, Distinct, Tiled, Headed, FreeHead, Unlisted;
      CutReady(page);
      ghost var m, rings0, nr, k := State(), rings, nrFree[..], order[page];
      ghost var b := page + Pow(k - 1);

      nrFree[order[page]] := nrFree[order[page]] - 1;
      ghost var i := DropFree(page, order[page]);

      var buddy := CutMeta(page);
      ghost var order1, inUse1 := order[..], inUse[..];
      LinkHalves(page, buddy, order[page]);
      assert order[..] == order1 && inUse[..] == inUse1;

      owner := Reown(owner, b, Pow(k - 1));
      assert State() == Split(m, page);
      assert rings == SplitRings(rings0, k, i, nodes[page], nodes[b]);
      assert nrFree[..] == nr[k := nr[k] - 1][k - 1 := nr[k - 1] + 2];
      hide *;
      CutSound(m, nodes, rings0, nr, page, i, State(), rings, nrFree[..]);
    }

    /** The smallest list from `wanted` on that is not empty, or MAX_ORDER. */
    method FindOrder(wanted: nat) returns (k: nat)
      requires Layout() && wanted <= MAX_ORDER
      ensures wanted <= k <= MAX_ORDER
      ensures forall j :: wanted <= j < k ==> nrFree[j] == 0
      ensures k < MAX_ORDER ==> nrFree[k] >= 1
    {
      k := wanted;
      while k < MAX_ORDER
        invariant wanted <= k <= MAX_ORDER
        invariant forall j :: wanted <= j < k ==> nrFree[j] == 0
      {
        if nrFree[k] >= 1 {
          break;
        }
        k := k + 1;
      }
    }

    /**
     * Hands out a chunk of 2^wanted pages: wholly free before, aligned by address to its own size. It
     * is the low end of the chunk in front of the smallest sufficient list. Nothing is returned, and
     * nothing changes, only when no aligned block of that many free pages exists in the pool.
     */
    method GetPages(wanted: nat) returns (page: Option<nat>)
      requires Valid() && wanted < MAX_ORDER
      modifies this, order, inUse, nrFree, NodeSet()
      ensures Valid()
      ensures page == None <==> forall p :: !old(FreeBlock(State(), p, wanted))
      ensures page == None ==> State() == old(State()) && rings == old(rings)
      ensures page.Some? ==>
        && page.value !in old(Live(State()))
        && Live(State()) == old(Live(State()))[page.value := wanted]
        && old(FreeBlock(State(), page.value, wanted))
      ensures page.Some? ==> exists k ::
        && wanted <= k < MAX_ORDER && old(nrFree[k]) > 0 && (forall j :: wanted <= j < k ==> old(nrFree[j]) == 0)
        && old(|rings[k]|) > 1 && old(rings[k][1]) == nodes[page.value]
    {
      ghost var m0 := State();
      NobodyCoalesced(m0);
      var k := FindOrder(wanted);
      if k >= MAX_ORDER {
        NothingFits(wanted);
        return None;
      }
      FrontOfList(k);
      var head := heads[k].next.record;
      FitsIn(m0, head, wanted);
      if k == wanted {
        TakePage(head);
        return Some(head);
      }
      var r := SplitPage(wanted, head);
      TakePage(r);
      return Some(r);
    }

    /** list_del of a free chunk, now marked as in use. */
    method TakePage(page: nat)
      requires SoundBut(page) && FreeHead(State(), page)
      modifies this, order, inUse, nrFree, NodeSet()
      ensures Valid()
      ensures page !in old(Live(State())) && Live(State()) == old(Live(State()))[page := old(order[page])]
    {
      hide Linked, Pow, Distinct, Tiled, Headed, Unlisted, CoalescedBut, Listed, Counted;
      OnList(page, page);
      ghost var m, rings0, nr, k := State(), rings, nrFree[..], order[page];
      TakeChunk(m, page);
      ghost var i := DropFree(page, order[page]);
      nrFree[order[page]] := nrFree[order[page]] - 1;
      inUse[page] := true;
      assert State() == SetInUse(m, page, true);
      assert nrFree[..] == nr[k := nr[k] - 1];
      hide *;
      TakeSound(m, nodes, rings0, nr, page, i);
    }

    lemma NothingFits(wanted: nat)
      requires Valid() && wanted < MAX_ORDER
      requires forall j :: wanted <= j < MAX_ORDER ==> nrFree[j] == 0
      ensures forall p :: !FreeBlock(State(), p, wanted)
    {
      NobodyCoalesced(State());
      forall h | FreeHead(State(), h)
        ensures order[h] < wanted
      {
        OnList(h, NOBODY);
      }
      NoChunkNoBlock(State(), wanted);
    }

    /** The first node of a list that is not empty belongs to a free chunk of that order. */
    lemma FrontOfList(k: nat)
      requires Valid() && k < MAX_ORDER && nrFree[k] >= 1
      ensures |heads| == MAX_ORDER == |rings| && |rings[k]| > 1
      ensures var x := heads[k].next;
              x == rings[k][1] && x.record < pageNum && nodes[x.record] == x &&
              FreeHead(State(), x.record) && order[x.record] == k
    {
      hide Tiled, CoalescedBut;
      assert Ring(rings[k]);
      assert rings[k][1] in NodeSet();
      assert forall j :: 0 <= j < MAX_ORDER && j != k ==> heads[j] == rings[j][0] && heads[j] in rings[j];
      assert rings[k][1] !in heads;
    }

    /**
     * Takes a chunk back and merges it as far as possible; what it is merged into goes first on its list, so it is
     * the next to be handed out from there.
     */
    method FreePages(page: nat)
      requires Valid() && page in Live(State())
      modifies this, order, inUse, nrFree, NodeSet()
      ensures Valid() && Live(State()) == old(Live(State())) - {page}
      ensures page < |owner| && First(owner[page])
    {
      GiveReady(page);
      GivePage(page);
      var r := MergePage(page);
      HeldBy(State(), r, page);
    }

    lemma HeldBy(m: Meta, r: nat, page: nat)
      requires Tiled(m) && Head(m, r) && InChunk(m, r, page) && page < |m.owner|
      ensures m.owner[page] == r
    {
    }

    /** The bytes of all free chunks, summed list by list. */
    method GetFreeMemSize() returns (total: nat)
      requires Valid()
      ensures total == PAGE_SIZE * |FreePageSet(State())|
      ensures total + PAGE_SIZE * Total(Live(State()), pageNum) == PAGE_SIZE * pageNum
    {
      assert nrFree.Length == MAX_ORDER && |owner| == pageNum && Tiled(State());
      NothingBelow(State());
      hide *;
      total := 0;
      var k := 0;
      while k < MAX_ORDER
        invariant k <= MAX_ORDER
        invariant total == PAGE_SIZE * |FreeBelow(State(), k)|
      {
        var size := PAGE_SIZE * Pow(k);
        SizeStep(k);
        total := total + nrFree[k] * size;
        k := k + 1;
      }
      AllBelow(State());
      Conservation(State());
      var a, b := |FreePageSet(State())|, Total(Live(State()), pageNum);
      assert PAGE_SIZE * (a + b) == PAGE_SIZE * a + PAGE_SIZE * b;
    }

    /** List k accounts for exactly the free pages that lie in chunks of order k. */
    lemma SizeStep(k: nat)
      requires Valid() && k < MAX_ORDER
      ensures PAGE_SIZE * |FreeBelow(State(), k)| + nrFree[k] * (PAGE_SIZE * Pow(k)) ==
              PAGE_SIZE * |FreeBelow(State(), k + 1)|
    {
      var heads' := RecordsOf(rings[k]);
      RecordsExact(k);
      CoveredSize(State(), k, heads');
      CoveredIsLevel(State(), k, heads');
      LevelSplit(State(), k);
      var a, b, n := |FreeBelow(State(), k)|, |FreeBelow(State(), k + 1)|, nrFree[k];
      assert b == a + n * Pow(k);
      Distribute(a, n, Pow(k), PAGE_SIZE);
    }

    /** The pages named by list k are, without repetition, the heads of the free chunks of order k. */
    lemma RecordsExact(k: nat)
      requires Valid() && k < MAX_ORDER
      ensures var s := RecordsOf(rings[k]);
              |s| == nrFree[k] && Distinct(s) && forall h :: h in s <==> FreeHead(State(), h) && order[h] == k
    {
      hide Tiled, CoalescedBut;
      var s := RecordsOf(rings[k]);
      var c := rings[k];
      assert Ring(c);
      CellsArePages(k);
      hide Linked, Ring, Rings, Shaped, NodeSet;
      forall h | FreeHead(State(), h) && order[h] == k
        ensures h in s
      {
        var i :| 0 <= i < |c| && c[i] == nodes[h];
        assert s[i - 1] == h;
      }
    }

    /** After its head a circle consists of nodes of pages. */
    lemma CellsArePages(k: nat)
      requires Layout() && Linked() && k < MAX_ORDER
      ensures |rings| == MAX_ORDER && |rings[k]| > 0 && rings[k][0] in heads
      ensures forall i :: 1 <= i < |rings[k]| ==>
        rings[k][i].record < pageNum && nodes[rings[k][i].record] == rings[k][i] && rings[k][i] in rings[k]
    {
      var c := rings[k];
      assert Ring(c);
      forall i | 1 <= i < |c|
        ensures c[i].record < pageNum && nodes[c[i].record] == c[i] && c[i] in c
      {
        NotAHead(k, i);
        assert c[i] in NodeSet();
      }
    }

    lemma NotAHead(k: nat, i: nat)
      requires Layout() && Linked() && k < MAX_ORDER && |rings| == MAX_ORDER && 1 <= i < |rings[k]|
      ensures rings[k][i] !in heads
    {
      assert Ring(rings[k]);
      forall j | 0 <= j < MAX_ORDER
        ensures rings[k][i] != heads[j]
      {
        assert rings[j][0] in rings[j] && rings[k][i] in rings[k];
      }
    }

    method GivePage(page: nat)
      requires Valid() && page in Live(State())
      modifies this, order, inUse, nrFree, NodeSet()
      ensures SoundBut(page) && FreeHead(State(), page) && First(page)
      ensures Live(State()) == old(Live(State())) - {page}
    {
      hide Linked, Pow, Distinct, Tiled, Headed, Unlisted, CoalescedBut, Listed, Counted, Live;
      GiveReady(page);
      ghost var m, rings0, nr, k := State(), rings, nrFree[..], order[page];
      GiveChunk(m, page);
      inUse[page] := false;
      nrFree[order[page]] := nrFree[order[page]] + 1;
      PushFree(page, order[page]);
      assert State() == SetInUse(m, page, false);
      assert nrFree[..] == nr[k := nr[k] + 1];
      hide *;
      GiveSound(m, nodes, rings0, nr, page);
    }

    lemma GiveReady(page: nat)
      requires Valid() && page in Live(State())
      ensures page < pageNum && order[page] < MAX_ORDER == |rings| && Headed(rings) && Distinct(nodes) && Unlisted(page)
      ensures Tiled(State()) && Coalesced(State())
    {
      NobodyCoalesced(State());
      HeadPlaced(State(), page);
      NotListed(page, NOBODY);
      assert forall k :: 0 <= k < MAX_ORDER ==> Ring(rings[k]);
      assert forall i, j :: 0 <= i < j < |nodes| ==> nodes[i].record != nodes[j].record;
    }
  }

  /** The pages of the nodes of a circle after its head. */
  function RecordsOf(c: seq<ListHead>): (r: seq<nat>)
    requires |c| > 0
    ensures |r| == |c| - 1
    ensures forall i :: 0 <= i < |r| ==> r[i] == c[i + 1].record
  {
    seq(|c| - 1, i requires 0 <= i < |c| - 1 => c[i + 1].record)
  }

  lemma Distribute(a: nat, n: nat, p: nat, s: nat)
    ensures s * a + n * (s * p) == s * (a + n * p)
  {
  }

  /** A free chunk of order wanted or more starts with a free block of order wanted. */
  lemma FitsIn(m: Meta, h: nat, wanted: nat)
    requires Tiled(m) && FreeHead(m, h) && wanted <= m.order[h]
    ensures FreeBlock(m, h, wanted)
  {
    ChunkIsBlock(m, h);
    AlignedWeaken(m.base + h, wanted, m.order[h]);
    PowMono(wanted, m.order[h]);
  }

  lemma PowTwelve()
    ensures Pow(12) == 4096
  {
    PowDouble(11);
    PowDouble(10);
    PowDouble(9);
    PowDouble(8);
    PowDouble(7);
    PowDouble(6);
    PowDouble(5);
    PowDouble(4);
    PowDouble(3);
    PowDouble(2);
    PowDouble(1);
    assert Pow(1) == 2;
  }

  /** On page addresses the exclusive or inverts one bit of the frame number. */
  lemma BuddyAddress(frame: nat, k: nat)
    ensures Xor(frame * PAGE_SIZE, Pow(k + PAGE_SIZE_ORDER)) == FlipBit(frame, k) * PAGE_SIZE
  {
    PowTwelve();
    hide Pow, FlipBit, Xor;
    XorPow(frame * PAGE_SIZE, k + PAGE_SIZE_ORDER);
    FlipShift(frame, k, 12);
  }
}
