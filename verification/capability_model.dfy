/** Objects, the slots that refer to them, and the processes' slot tables, as a value. */
module CapabilityModel {
  import opened Sequences
  import SlotTables
  import opened Wrappers

  /** Slot id `id` of process `proc`. */
  datatype Ref = Ref(proc: nat, id: int)

  datatype Slot = Slot(place: Ref, rights: nat, owner: nat)

  /** `copies` are the slots on the object's list, in list order. */
  datatype Object = Object(kind: nat, refcount: int, copies: seq<nat>, freed: bool)

  /**
    * `table` is what the slot tables hold, `sizes` how many slots the table of each process has; `held` counts
    * references taken by obj_get and not yet put back. `wild` says that something was stored beside a slot table.
    */
  datatype Caps = Caps(objects: map<nat, Object>, slots: map<nat, Slot>, table: map<Ref, nat>, held: map<nat, nat>,
                       sizes: map<nat, nat>, wild: bool)

  /** r is a place in the slot table of a process. */
  predicate InTable(c: Caps, r: Ref) {
    r.proc in c.sizes && 0 <= r.id < c.sizes[r.proc]
  }

  /** A slot table entry leads to a slot that knows its place. */
  ghost predicate TableOk(c: Caps) {
    forall r :: r in c.table ==> InTable(c, r) && c.table[r] in c.slots && c.slots[c.table[r]].place == r
  }

  /** Every slot is in its place in the table and on the list of its object. */
  ghost predicate SlotsOk(c: Caps) {
    forall s :: s in c.slots ==>
      var x := c.slots[s];
      && x.place in c.table && c.table[x.place] == s
      && x.owner in c.objects && s in c.objects[x.owner].copies
  }

  /** An object's list holds slots of that object only, each once. */
  ghost predicate ListsOk(c: Caps) {
    forall o :: o in c.objects ==>
      Distinct(c.objects[o].copies) && forall s :: s in c.objects[o].copies ==> s in c.slots && c.slots[s].owner == o
  }

  /** The reference count is the number of slots plus the references held; a freed object has none. */
  ghost predicate CountsOk(c: Caps) {
    c.held.Keys == c.objects.Keys && forall o :: o in c.objects ==>
      var x := c.objects[o];
      x.refcount == |x.copies| + c.held[o] && (x.freed ==> x.refcount == 0)
  }

  ghost predicate Inv(c: Caps) {
    !c.wild && TableOk(c) && SlotsOk(c) && ListsOk(c) && CountsOk(c)
  }

  /** get_slot. */
  function Find(c: Caps, proc: nat, id: int): Option<nat> {
    if InTable(c, Ref(proc, id)) && Ref(proc, id) in c.table then Some(c.table[Ref(proc, id)]) else None
  }

  /** The least id from k on that is not in use; `size` if there is none below it. */
  function FirstFree(table: map<Ref, nat>, proc: nat, size: nat, k: nat): (n: nat)
    requires k <= size
    ensures k <= n <= size && (n < size ==> Ref(proc, n) !in table) && forall j :: k <= j < n ==> Ref(proc, j) in table
    decreases size - k
  {
    if k < size && Ref(proc, k) in table then FirstFree(table, proc, size, k + 1) else k
  }

  /** What alloc_slot_id returns; `memory` says whether a full table can be expanded. */
  function AllocId(c: Caps, proc: nat, memory: bool): int
    requires proc in c.sizes
  {
    var n := FirstFree(c.table, proc, c.sizes[proc], 0);
    if n < c.sizes[proc] || memory then n else -SlotTables.ENOMEM
  }

  /** alloc_slot_id expands a full table. */
  function Grow(c: Caps, proc: nat, memory: bool): Caps
    requires proc in c.sizes
  {
    var size := c.sizes[proc];
    if FirstFree(c.table, proc, size, 0) == size && memory
    then c.(sizes := c.sizes[proc := size + SlotTables.BASE_OBJECT_NUM])
    else c
  }

  /** Some id of the process is not in use. */
  ghost predicate Room(c: Caps, proc: nat)
    requires proc in c.sizes
  {
    exists k: nat :: k < c.sizes[proc] && Ref(proc, k) !in c.table
  }

  /** free_slot_id, which does not look whether there is such a slot. */
  function FreeSlotId(c: Caps, proc: nat, id: int): Caps {
    if InTable(c, Ref(proc, id)) then c.(table := c.table - {Ref(proc, id)}) else c.(wild := true)
  }

  /** Slot s comes into being and onto the list of its object, at place i. */
  function Link(c: Caps, s: nat, x: Slot, i: nat): Caps
    requires x.owner in c.objects && i <= |c.objects[x.owner].copies|
  {
    var o := c.objects[x.owner];
    c.(slots := c.slots[s := x], table := c.table[x.place := s], wild := c.wild || !InTable(c, x.place),
       objects := c.objects[x.owner := o.(copies := InsertAt(o.copies, i, s), refcount := o.refcount + 1)])
  }

  /** One reference less; the object is freed with the last. */
  function Dropped(o: Object): Object {
    o.(refcount := o.refcount - 1, freed := o.freed || o.refcount == 1)
  }

  function Unlink(c: Caps, s: nat): Caps
    requires s in c.slots && c.slots[s].owner in c.objects
  {
    var x := c.slots[s];
    var o := c.objects[x.owner];
    c.(slots := c.slots - {s}, table := c.table - {x.place},
       objects := c.objects[x.owner := Dropped(o).(copies := Remove(o.copies, s))])
  }

  ghost predicate MayLink(c: Caps, s: nat, x: Slot, i: nat) {
    && s !in c.slots && x.place !in c.table && x.owner in c.objects
    && i <= |c.objects[x.owner].copies| && !c.objects[x.owner].freed
  }

  lemma LinkTable(c: Caps, s: nat, x: Slot, i: nat)
    requires MayLink(c, s, x, i) && TableOk(c)
    ensures TableOk(Link(c, s, x, i)) <==> InTable(c, x.place)
  {
    assert Link(c, s, x, i).table[x.place] == s;
  }

  lemma LinkSlots(c: Caps, s: nat, x: Slot, i: nat)
    requires MayLink(c, s, x, i) && SlotsOk(c)
    requires forall y :: y in InsertAt(c.objects[x.owner].copies, i, s) <==> y in c.objects[x.owner].copies || y == s
    ensures SlotsOk(Link(c, s, x, i))
  {
    hide InsertAt;
  }

  lemma LinkLists(c: Caps, s: nat, x: Slot, i: nat)
    requires MayLink(c, s, x, i) && ListsOk(c)
    ensures ListsOk(Link(c, s, x, i))
    ensures forall y :: y in InsertAt(c.objects[x.owner].copies, i, s) <==> y in c.objects[x.owner].copies || y == s
  {
    InsertOk(c.objects[x.owner].copies, i, s);
    hide InsertAt, Distinct;
  }

  lemma LinkCounts(c: Caps, s: nat, x: Slot, i: nat)
    requires MayLink(c, s, x, i) && CountsOk(c)
    ensures CountsOk(Link(c, s, x, i))
  {
    assert |InsertAt(c.objects[x.owner].copies, i, s)| == |c.objects[x.owner].copies| + 1;
    hide InsertAt;
  }

  /** A new slot keeps the invariant exactly if its place is one in the table. */
  lemma LinkKeeps(c: Caps, s: nat, x: Slot, i: nat)
    requires Inv(c) && MayLink(c, s, x, i)
    ensures Inv(Link(c, s, x, i)) <==> InTable(c, x.place)
  {
    hide TableOk, SlotsOk, ListsOk, CountsOk, Distinct, InsertAt;
    LinkTable(c, s, x, i);
    LinkLists(c, s, x, i);
    LinkSlots(c, s, x, i);
    LinkCounts(c, s, x, i);
  }

  lemma UnlinkSlots(c: Caps, s: nat)
    requires SlotsOk(c) && s in c.slots
    requires forall y :: y in Remove(c.objects[c.slots[s].owner].copies, s) <==>
             y in c.objects[c.slots[s].owner].copies && y != s
    ensures SlotsOk(Unlink(c, s))
  {
    hide Remove;
  }

  lemma UnlinkLists(c: Caps, s: nat)
    requires SlotsOk(c) && ListsOk(c) && s in c.slots
    ensures ListsOk(Unlink(c, s))
    ensures forall y :: y in Remove(c.objects[c.slots[s].owner].copies, s) <==>
            y in c.objects[c.slots[s].owner].copies && y != s
    ensures |Remove(c.objects[c.slots[s].owner].copies, s)| == |c.objects[c.slots[s].owner].copies| - 1
  {
    RemoveOk(c.objects[c.slots[s].owner].copies, s);
    hide Remove, Distinct;
  }

  lemma UnlinkTable(c: Caps, s: nat)
    requires TableOk(c) && SlotsOk(c) && s in c.slots
    ensures TableOk(Unlink(c, s))
  {
    hide Remove;
  }

  lemma UnlinkCounts(c: Caps, s: nat)
    requires CountsOk(c) && SlotsOk(c) && s in c.slots
    requires |Remove(c.objects[c.slots[s].owner].copies, s)| == |c.objects[c.slots[s].owner].copies| - 1
    ensures CountsOk(Unlink(c, s))
  {
    assert c.slots[s].owner in c.objects;
    hide Remove, SlotsOk;
  }

  lemma UnlinkKeeps(c: Caps, s: nat)
    requires Inv(c) && s in c.slots
    ensures Inv(Unlink(c, s))
  {
    assert c.slots[s].owner in c.objects;
    hide TableOk, SlotsOk, ListsOk, CountsOk, Unlink, Distinct, Remove;
    UnlinkTable(c, s);
    UnlinkLists(c, s);
    UnlinkSlots(c, s);
    UnlinkCounts(c, s);
  }

  // Slot ids.

  /** alloc_slot_id gives an id exactly if one is free or the table can be expanded, and then one that is not in use. */
  lemma AllocIdOk(c: Caps, proc: nat, memory: bool)
    requires Inv(c) && proc in c.sizes
    ensures Inv(Grow(c, proc, memory))
    ensures AllocId(c, proc, memory) >= 0 <==> memory || Room(c, proc)
    ensures var r := Ref(proc, AllocId(c, proc, memory));
            r !in c.table && (r.id >= 0 ==> InTable(Grow(c, proc, memory), r))
    ensures AllocId(c, proc, memory) < 0 ==> Grow(c, proc, memory) == c
  {
    hide SlotsOk, ListsOk, CountsOk;
    var size := c.sizes[proc];
    assert Ref(proc, size) !in c.table;
    assert FirstFree(c.table, proc, size, 0) < size ==> Room(c, proc);
    GrowKeeps(c, proc, memory);
  }

  lemma GrowKeeps(c: Caps, proc: nat, memory: bool)
    requires Inv(c) && proc in c.sizes
    ensures Inv(Grow(c, proc, memory))
  {
    hide FirstFree, Distinct;
  }

  /** Giving back an id that no slot was installed for changes nothing. */
  lemma FreeUnused(c: Caps, proc: nat, id: int)
    requires Ref(proc, id) !in c.table
    ensures FreeSlotId(c, proc, id) == if InTable(c, Ref(proc, id)) then c else c.(wild := true)
  {
    assert c.table - {Ref(proc, id)} == c.table;
  }
}
