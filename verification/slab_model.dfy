/** Slabs: regions cut into slots of one size, with a linked free list through the free slots. */
module SlabModel {
  import opened Sequences
  import opened Pow2

  const SLAB_INIT_SIZE: nat := 0x200000
  const SLAB_MIN_ORDER: nat := 5
  const SLAB_MAX_ORDER: nat := 11

  /**
    * `head`, `nextSlab` and `orderOf` are the fields of the slab at an address, `nextFree` is the first word of a slot,
    * and `first` is the array of slab lists. `free` and `classes` are the lists these links describe.
    */
  datatype Slabs = Slabs(
    head: map<nat, nat>, nextSlab: map<nat, nat>, orderOf: map<nat, nat>, nextFree: map<nat, nat>, first: seq<nat>,
    free: map<nat, seq<nat>>, classes: seq<seq<nat>>)

  /** How many slots a slab has, after the first one, which holds the slab's own fields. */
  function Count(k: nat): int {
    SLAB_INIT_SIZE / Pow(k) - 1
  }

  function SlotAt(a: nat, k: nat, j: nat): nat {
    a + j * Pow(k)
  }

  ghost predicate IsSlot(a: nat, k: nat, x: nat) {
    exists j: nat :: 1 <= j <= Count(k) && x == SlotAt(a, k, j)
  }

  /** Starting at h, the links run through q and end with NULL. */
  ghost predicate Chain(next: map<nat, nat>, h: nat, q: seq<nat>) {
    && h == (if q == [] then 0 else q[0])
    && forall i: nat :: i < |q| ==> LinkOk(next, q, i)
  }

  /** Element i of the list leads to the one after it, or to NULL. */
  ghost predicate LinkOk(next: map<nat, nat>, q: seq<nat>, i: nat)
    requires i < |q|
  {
    q[i] != 0 && q[i] in next && next[q[i]] == (if i + 1 < |q| then q[i + 1] else 0)
  }

  ghost predicate InRange(k: nat) {
    SLAB_MIN_ORDER <= k <= SLAB_MAX_ORDER
  }

  /** The free list of slab a: slots of that slab, none twice. */
  ghost predicate FreeOkAt(s: Slabs, a: nat)
    requires a in s.free && a in s.head && a in s.orderOf
  {
    && a > 0 && InRange(s.orderOf[a])
    && Distinct(s.free[a]) && Chain(s.nextFree, s.head[a], s.free[a])
    && forall x :: x in s.free[a] ==> IsSlot(a, s.orderOf[a], x)
  }

  ghost predicate Keyed(s: Slabs) {
    s.head.Keys == s.nextSlab.Keys == s.orderOf.Keys == s.free.Keys
  }

  ghost predicate FreeOk(s: Slabs)
    requires Keyed(s)
  {
    forall a :: a in s.free ==> FreeOkAt(s, a)
  }

  /** The slab list of order k holds exactly the slabs of that order, each once. */
  ghost predicate ClassesOk(s: Slabs)
    requires Keyed(s)
  {
    && |s.first| == |s.classes| == SLAB_MAX_ORDER + 1
    && (forall k: nat :: InRange(k) ==> Distinct(s.classes[k]) && Chain(s.nextSlab, s.first[k], s.classes[k]))
    && (forall k: nat, a: nat :: InRange(k) && a in s.classes[k] ==> a in s.free && s.orderOf[a] == k)
    && (forall a :: a in s.free && InRange(s.orderOf[a]) ==> a in s.classes[s.orderOf[a]])
  }

  ghost predicate Apart(s: Slabs) {
    forall a, b :: a in s.free && b in s.free && a < b ==> a + SLAB_INIT_SIZE <= b
  }

  ghost predicate SlabsOk(s: Slabs) {
    Keyed(s) && FreeOk(s) && ClassesOk(s) && Apart(s)
  }

  /** A slab of size class k is cut up exactly: header slot and Count(k) slots fill it. */
  lemma CountFills(k: nat)
    requires InRange(k)
    ensures Count(k) >= 1 && (Count(k) + 1) * Pow(k) == SLAB_INIT_SIZE
  {
    PowSmall();
  }

  lemma PowSmall()
    ensures Pow(5) == 32 && Pow(6) == 64 && Pow(7) == 128 && Pow(8) == 256 && Pow(9) == 512 && Pow(10) == 1024
            && Pow(11) == 2048
  {
    assert Pow(3) == 8;
    assert Pow(5) == 32;
    assert Pow(7) == 128;
    assert Pow(9) == 512;
  }

  /** Every slot lies in its slab, after the header. */
  lemma SlotInside(a: nat, k: nat, x: nat)
    requires InRange(k) && IsSlot(a, k, x)
    ensures a + Pow(k) <= x && x + Pow(k) <= a + SLAB_INIT_SIZE
  {
    CountFills(k);
    var j: nat :| 1 <= j <= Count(k) && x == SlotAt(a, k, j);
    MulLe(1, j, Pow(k));
    MulLe(j + 1, Count(k) + 1, Pow(k));
    assert (j + 1) * Pow(k) == j * Pow(k) + Pow(k);
  }

  lemma MulLe(x: nat, y: nat, z: nat)
    requires x <= y
    ensures x * z <= y * z
  {
  }

  /** Different slots of a slab do not overlap. */
  lemma SlotsApart(a: nat, k: nat, x: nat, y: nat)
    requires IsSlot(a, k, x) && IsSlot(a, k, y) && x < y
    ensures x + Pow(k) <= y
  {
    var i: nat :| 1 <= i <= Count(k) && x == SlotAt(a, k, i);
    var j: nat :| 1 <= j <= Count(k) && y == SlotAt(a, k, j);
    if j <= i {
      MulLe(j, i, Pow(k));
    } else {
      MulLe(i + 1, j, Pow(k));
      assert (i + 1) * Pow(k) == i * Pow(k) + Pow(k);
    }
  }

  /** No slot is in two slabs. */
  lemma SlotOfOne(s: Slabs, a: nat, b: nat, x: nat)
    requires SlabsOk(s) && a in s.free && b in s.free && IsSlot(a, s.orderOf[a], x) && IsSlot(b, s.orderOf[b], x)
    ensures a == b
  {
    assert FreeOkAt(s, a) && FreeOkAt(s, b);
    hide Chain, Distinct, IsSlot, ClassesOk, FreeOk;
    SlotInside(a, s.orderOf[a], x);
    SlotInside(b, s.orderOf[b], x);
  }

  // Taking and returning slots.

  function Pop(s: Slabs, a: nat): Slabs
    requires Keyed(s) && a in s.free && s.free[a] != [] && s.head[a] in s.nextFree
  {
    s.(head := s.head[a := s.nextFree[s.head[a]]], free := s.free[a := s.free[a][1..]])
  }

  function Push(s: Slabs, a: nat, x: nat): Slabs
    requires Keyed(s) && a in s.free
  {
    s.(nextFree := s.nextFree[x := s.head[a]], head := s.head[a := x], free := s.free[a := [x] + s.free[a]])
  }

  lemma PopChain(next: map<nat, nat>, h: nat, q: seq<nat>)
    requires Chain(next, h, q) && q != [] && Distinct(q)
    ensures h == q[0] && h != 0 && h in next && Chain(next, next[h], q[1..]) && Distinct(q[1..]) && h !in q[1..]
  {
    var p := q[1..];
    assert LinkOk(next, q, 0);
    forall i: nat | i < |p|
      ensures LinkOk(next, p, i)
    {
      assert LinkOk(next, q, i + 1);
    }
  }

  lemma PushChain(next: map<nat, nat>, h: nat, q: seq<nat>, x: nat)
    requires Chain(next, h, q) && Distinct(q) && x !in q && x != 0
    ensures Chain(next[x := h], x, [x] + q) && Distinct([x] + q)
  {
    var p := [x] + q;
    var next' := next[x := h];
    forall i: nat | i < |p|
      ensures LinkOk(next', p, i)
    {
      assert i > 0 ==> LinkOk(next, q, i - 1);
    }
  }

  lemma ChainFrame(next: map<nat, nat>, next': map<nat, nat>, h: nat, q: seq<nat>)
    requires Chain(next, h, q) && forall x :: x in q && x in next ==> x in next' && next'[x] == next[x]
    ensures Chain(next', h, q)
  {
    forall i: nat | i < |q|
      ensures LinkOk(next', q, i)
    {
      assert LinkOk(next, q, i);
    }
  }

  lemma PopFree(s: Slabs, a: nat)
    requires Keyed(s) && FreeOk(s) && a in s.free && s.free[a] != []
    ensures s.head[a] == s.free[a][0] && s.head[a] in s.nextFree && s.head[a] != 0
    ensures Keyed(Pop(s, a)) && FreeOk(Pop(s, a))
  {
    assert FreeOkAt(s, a);
    PopChain(s.nextFree, s.head[a], s.free[a]);
    hide Chain, Distinct, IsSlot;
    var s' := Pop(s, a);
    assert FreeOkAt(s', a);
    forall b | b in s'.free && b != a
      ensures FreeOkAt(s', b)
    {
      assert FreeOkAt(s, b);
    }
    hide FreeOkAt;
  }

  /** Taking the first free slot of a slab keeps everything. */
  lemma PopKeeps(s: Slabs, a: nat)
    requires SlabsOk(s) && a in s.free && s.free[a] != []
    ensures s.head[a] == s.free[a][0] && s.head[a] in s.nextFree && s.head[a] != 0
    ensures SlabsOk(Pop(s, a))
  {
    PopFree(s, a);
    hide FreeOk, ClassesOk, Apart;
    PopRest(s, a);
  }

  lemma PopRest(s: Slabs, a: nat)
    requires Keyed(s) && ClassesOk(s) && Apart(s) && a in s.free && s.free[a] != [] && s.head[a] in s.nextFree
    ensures ClassesOk(Pop(s, a)) && Apart(Pop(s, a))
  {
    hide Chain, Distinct;
  }

  lemma PushAt(s: Slabs, a: nat, x: nat)
    requires Keyed(s) && a in s.free && FreeOkAt(s, a) && IsSlot(a, s.orderOf[a], x) && x !in s.free[a]
    ensures FreeOkAt(Push(s, a, x), a)
  {
    SlotInside(a, s.orderOf[a], x);
    PushChain(s.nextFree, s.head[a], s.free[a], x);
    hide Chain, Distinct, IsSlot;
  }

  lemma PushElsewhere(s: Slabs, a: nat, x: nat, b: nat)
    requires Keyed(s) && a in s.free && b in s.free && b != a && FreeOkAt(s, b) && x !in s.free[b]
    ensures FreeOkAt(Push(s, a, x), b)
  {
    ChainFrame(s.nextFree, Push(s, a, x).nextFree, s.head[b], s.free[b]);
    hide Chain, Distinct, IsSlot;
  }

  lemma NotFreeElsewhere(s: Slabs, a: nat, x: nat, b: nat)
    requires SlabsOk(s) && a in s.free && b in s.free && b != a && IsSlot(a, s.orderOf[a], x)
    ensures x !in s.free[b]
  {
    assert FreeOkAt(s, b);
    hide Chain, Distinct, IsSlot;
    if x in s.free[b] {
      SlotOfOne(s, a, b, x);
    }
  }

  lemma PushRest(s: Slabs, a: nat, x: nat)
    requires SlabsOk(s) && a in s.free
    ensures ClassesOk(Push(s, a, x)) && Apart(Push(s, a, x))
  {
    hide Chain, Distinct, FreeOkAt;
  }

  /** Giving back a slot that is not free puts it first on its slab's free list. */
  lemma PushKeeps(s: Slabs, a: nat, x: nat)
    requires SlabsOk(s) && a in s.free && IsSlot(a, s.orderOf[a], x) && x !in s.free[a]
    ensures SlabsOk(Push(s, a, x))
  {
    hide Chain, Distinct, IsSlot, FreeOkAt, ClassesOk, Apart;
    var s' := Push(s, a, x);
    PushRest(s, a, x);
    forall b | b in s'.free
      ensures FreeOkAt(s', b)
    {
      if b == a {
        PushAt(s, a, x);
      } else {
        NotFreeElsewhere(s, a, x, b);
        PushElsewhere(s, a, x, b);
      }
    }
  }

  // New slabs.

  /** The slots of a slab, in order of address. */
  ghost function AllSlots(a: nat, k: nat): seq<nat> {
    seq(if Count(k) >= 0 then Count(k) else 0, i requires 0 <= i => SlotAt(a, k, i + 1))
  }

  lemma AllSlotsExact(a: nat, k: nat)
    requires InRange(k)
    ensures Count(k) >= 1 && |AllSlots(a, k)| == Count(k)
    ensures Distinct(AllSlots(a, k)) && forall x :: x in AllSlots(a, k) <==> IsSlot(a, k, x)
  {
    CountFills(k);
    var q := AllSlots(a, k);
    forall i, j | 0 <= i < j < |q|
      ensures q[i] != q[j]
    {
      MulLe(i + 2, j + 1, Pow(k));
      assert (i + 2) * Pow(k) == (i + 1) * Pow(k) + Pow(k);
    }
    forall x | IsSlot(a, k, x)
      ensures x in q
    {
      var j: nat :| 1 <= j <= Count(k) && x == SlotAt(a, k, j);
      assert q[j - 1] == x;
    }
    forall x | x in q
      ensures IsSlot(a, k, x)
    {
      var i :| 0 <= i < |q| && q[i] == x;
      assert x == SlotAt(a, k, i + 1);
    }
  }

  /** A new slab, all free, becomes the first of its list. */
  function Add(s: Slabs, a: nat, k: nat, q: seq<nat>, next: map<nat, nat>): Slabs
    requires k < |s.first| && k < |s.classes| && q != []
  {
    s.(head := s.head[a := q[0]], nextSlab := s.nextSlab[a := s.first[k]], orderOf := s.orderOf[a := k],
      nextFree := next,
       first := s.first[k := a], free := s.free[a := q], classes := s.classes[k := [a] + s.classes[k]])
  }

  ghost predicate MayAdd(s: Slabs, a: nat, k: nat, q: seq<nat>, next: map<nat, nat>) {
    && InRange(k) && a > 0 && q != [] && Distinct(q) && Chain(next, q[0], q) && (forall x :: x in q ==> IsSlot(a, k, x))
    && (forall b :: b in s.free ==> a + SLAB_INIT_SIZE <= b || b + SLAB_INIT_SIZE <= a)
    && (forall x :: x in s.nextFree && (x <= a || a + SLAB_INIT_SIZE <= x) ==> x in next && next[x] == s.nextFree[x])
  }

  lemma AddFree(s: Slabs, a: nat, k: nat, q: seq<nat>, next: map<nat, nat>)
    requires Keyed(s) && FreeOk(s) && |s.first| == |s.classes| == SLAB_MAX_ORDER + 1 && MayAdd(s, a, k, q, next)
    ensures Keyed(Add(s, a, k, q, next)) && FreeOk(Add(s, a, k, q, next))
  {
    hide FreeOkAt, Distinct, IsSlot, Chain;
    AddAt(s, a, k, q, next);
    forall b | b in s.free && b != a
      ensures FreeOkAt(Add(s, a, k, q, next), b)
    {
      AddElsewhere(s, a, k, q, next, b);
    }
  }

  lemma AddAt(s: Slabs, a: nat, k: nat, q: seq<nat>, next: map<nat, nat>)
    requires k < |s.first| && k < |s.classes| && MayAdd(s, a, k, q, next)
    ensures FreeOkAt(Add(s, a, k, q, next), a)
  {
    hide Distinct, IsSlot, Chain;
  }

  lemma AddElsewhere(s: Slabs, a: nat, k: nat, q: seq<nat>, next: map<nat, nat>, b: nat)
    requires Keyed(s) && k < |s.first| && k < |s.classes| && MayAdd(s, a, k, q, next)
    requires b in s.free && b != a && FreeOkAt(s, b)
    ensures FreeOkAt(Add(s, a, k, q, next), b)
  {
    hide Distinct, IsSlot, Chain;
    forall x | x in s.free[b]
      ensures x <= a || a + SLAB_INIT_SIZE <= x
    {
      SlotInside(b, s.orderOf[b], x);
    }
    ChainFrame(s.nextFree, next, s.head[b], s.free[b]);
  }

  lemma AddClasses(s: Slabs, a: nat, k: nat, q: seq<nat>, next: map<nat, nat>)
    requires Keyed(s) && ClassesOk(s) && a !in s.free && a > 0 && InRange(k) && q != []
    ensures ClassesOk(Add(s, a, k, q, next))
  {
    var s' := Add(s, a, k, q, next);
    assert a !in s.classes[k];
    PushChain(s.nextSlab, s.first[k], s.classes[k], a);
    assert Chain(s'.nextSlab, s'.first[k], s'.classes[k]) && Distinct(s'.classes[k]);
    forall j: nat | InRange(j) && j != k
      ensures Chain(s'.nextSlab, s'.first[j], s'.classes[j])
    {
      assert a !in s.classes[j];
      ChainFrame(s.nextSlab, s'.nextSlab, s.first[j], s.classes[j]);
    }
    hide Chain, Distinct;
  }

  lemma AddKeeps(s: Slabs, a: nat, k: nat, q: seq<nat>, next: map<nat, nat>)
    requires SlabsOk(s) && MayAdd(s, a, k, q, next)
    ensures a !in s.free && SlabsOk(Add(s, a, k, q, next))
  {
    AddFree(s, a, k, q, next);
    AddClasses(s, a, k, q, next);
    hide Chain, Distinct, FreeOk, ClassesOk;
  }
}
