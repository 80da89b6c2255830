/** Capability operations: what they keep, and what revocation leaves behind. */
module Capability {
  import opened Sequences
  import opened Wrappers
  import opened CapabilityModel
  import SlotTables

  const ECAPBILITY: int := 11

  /** process_init: the slot table of a new process. */
  function ProcessInit(c: Caps, proc: nat): Caps {
    c.(sizes := c.sizes[proc := SlotTables.BASE_OBJECT_NUM])
  }

  /** obj_alloc, at the address kmalloc returned. */
  function ObjAlloc(c: Caps, o: Option<nat>, kind: nat): Caps {
    if o == None then c
    else c.(objects := c.objects[o.value := Object(kind, 0, [], false)], held := c.held[o.value := 0])
  }

  /** cap_alloc; `slot` is what kmalloc returned. */
  function CapAlloc(c: Caps, proc: nat, o: nat, rights: nat, memory: bool, slot: Option<nat>): Caps
    requires proc in c.sizes && o in c.objects
  {
    var id, c1 := AllocId(c, proc, memory), Grow(c, proc, memory);
    if id < 0 then c
    else if slot == None then FreeSlotId(c1, proc, id)
    else Link(c1, slot.value, Slot(Ref(proc, id), rights, o), 0)
  }

  function CapFree(c: Caps, proc: nat, id: int): Caps
    requires Inv(c)
  {
    if Find(c, proc, id) == None then c else Unlink(c, Find(c, proc, id).value)
  }

  /** A copy of slot s for place `at`. */
  function CopyOf(c: Caps, s: nat, at: Ref, newRights: Option<nat>): Slot
    requires s in c.slots
  {
    Slot(at, if newRights.Some? then newRights.value else c.slots[s].rights, c.slots[s].owner)
  }

  /** The place right after slot s on the list of its object. */
  function Behind(c: Caps, s: nat): (i: nat)
    requires Inv(c) && s in c.slots
    ensures i <= |c.objects[c.slots[s].owner].copies|
  {
    IndexOf(c.objects[c.slots[s].owner].copies, s) + 1
  }

  /** cap_copy. Of the errors of the id allocator only -1 is recognised. */
  function CapCopy(c: Caps, src: nat, dst: nat, id: int, newRights: Option<nat>, memory: bool, slot: Option<nat>): Caps
    requires Inv(c) && dst in c.sizes
  {
    var s, newId, c1 := Find(c, src, id), AllocId(c, dst, memory), Grow(c, dst, memory);
    if s == None || newId == -1 then c
    else if slot == None then FreeSlotId(c1, dst, newId)
    else Link(c1, slot.value, CopyOf(c, s.value, Ref(dst, newId), newRights), Behind(c, s.value))
  }

  /** What cap_copy returns. */
  function CopyResult(c: Caps, src: nat, dst: nat, id: int, memory: bool, slot: Option<nat>): int
    requires dst in c.sizes
  {
    if Find(c, src, id) == None then -ECAPBILITY
    else if AllocId(c, dst, memory) == -1 || slot == None then -SlotTables.ENOMEM
    else AllocId(c, dst, memory)
  }

  /** A reference taken by obj_get; `kind` is the type asked for, if any. */
  function Got(c: Caps, proc: nat, id: int, kind: Option<nat>): Option<nat>
    requires Inv(c)
  {
    var s := Find(c, proc, id);
    if s == None then None
    else
      var o := c.slots[s.value].owner;
      if kind.Some? && c.objects[o].kind != kind.value then None else Some(o)
  }

  function Taken(c: Caps, o: nat): Caps
    requires o in c.objects && o in c.held
  {
    c.(objects := c.objects[o := c.objects[o].(refcount := c.objects[o].refcount + 1)],
      held := c.held[o := c.held[o] + 1])
  }

  function ObjGet(c: Caps, proc: nat, id: int, kind: Option<nat>): Caps
    requires Inv(c)
  {
    var o := Got(c, proc, id, kind);
    if o == None then c else Taken(c, o.value)
  }

  function ObjPut(c: Caps, o: nat): Caps
    requires o in c.objects && o in c.held && c.held[o] > 0
  {
    c.(objects := c.objects[o := Dropped(c.objects[o])], held := c.held[o := c.held[o] - 1])
  }

  /** cap_free of each slot in turn. */
  function FreeAll(c: Caps, q: seq<nat>): Caps
    requires Inv(c)
    decreases |q|
  {
    if q == [] || q[0] !in c.slots then c
    else
      var r := c.slots[q[0]].place;
      CapFreeKeeps(c, r.proc, r.id);
      FreeAll(CapFree(c, r.proc, r.id), q[1..])
  }

  function ObjFree(c: Caps, o: nat): Caps
    requires Inv(c) && o in c.objects
  {
    if c.objects[o].refcount == 0 then c.(objects := c.objects[o := c.objects[o].(freed := true)])
    else FreeAll(c, c.objects[o].copies)
  }

  // What every operation keeps.

  lemma ProcessInitKeeps(c: Caps, proc: nat)
    requires Inv(c) && proc !in c.sizes
    ensures Inv(ProcessInit(c, proc))
  {
    hide Distinct;
  }

  lemma ObjAllocKeeps(c: Caps, o: Option<nat>, kind: nat)
    requires Inv(c) && (o.Some? ==> o.value !in c.objects)
    ensures Inv(ObjAlloc(c, o, kind))
  {
  }

  lemma CapAllocKeeps(c: Caps, proc: nat, o: nat, rights: nat, memory: bool, slot: Option<nat>)
    requires Inv(c) && proc in c.sizes && o in c.objects && c.objects[o].refcount == 0 && !c.objects[o].freed
    requires slot.Some? ==> slot.value !in c.slots
    ensures Inv(CapAlloc(c, proc, o, rights, memory, slot))
  {
    hide Inv, Link, AllocId, InTable;
    var id, c1 := AllocId(c, proc, memory), Grow(c, proc, memory);
    AllocIdOk(c, proc, memory);
    if id >= 0 && slot.Some? {
      LinkKeeps(c1, slot.value, Slot(Ref(proc, id), rights, o), 0);
    } else if id >= 0 {
      FreeUnused(c1, proc, id);
    }
  }

  lemma CapFreeKeeps(c: Caps, proc: nat, id: int)
    requires Inv(c)
    ensures Inv(CapFree(c, proc, id))
  {
    if Find(c, proc, id).Some? {
      UnlinkKeeps(c, Find(c, proc, id).value);
    }
  }

  /** A slot's object is alive. */
  lemma OwnerAlive(c: Caps, s: nat)
    requires Inv(c) && s in c.slots
    ensures var o := c.slots[s].owner;
            o in c.objects && !c.objects[o].freed && c.objects[o].refcount > 0
              && IndexOf(c.objects[o].copies, s) < |c.objects[o].copies|
  {
    assert s in c.objects[c.slots[s].owner].copies;
  }

  lemma FoundAlive(c: Caps, proc: nat, id: int)
    requires Inv(c)
    ensures var s := Find(c, proc, id);
            s.Some? ==>
              && s.value in c.slots && c.slots[s.value].place == Ref(proc, id)
              && var o := c.slots[s.value].owner; o in c.objects && o in c.held && !c.objects[o].freed
  {
    if Find(c, proc, id).Some? {
      OwnerAlive(c, Find(c, proc, id).value);
    }
  }

  /**
    * cap_copy keeps the invariant exactly if there is nothing to copy, or the table of dst has an unused id or can be
    * expanded. Otherwise the allocator's -ENOMEM is taken for an id: it is given back, or a slot installed for it,
    * beside the table.
    */
  lemma CapCopyKeepsExactly(c: Caps, src: nat, dst: nat, id: int, newRights: Option<nat>, memory: bool,
      slot: Option<nat>)
    requires Inv(c) && dst in c.sizes && (slot.Some? ==> slot.value !in c.slots)
    ensures Inv(CapCopy(c, src, dst, id, newRights, memory, slot)) <==>
            Find(c, src, id) == None || memory || Room(c, dst)
  {
    hide Inv, Link, AllocId, InTable, Find, Behind, Room;
    var s, newId, c1 := Find(c, src, id), AllocId(c, dst, memory), Grow(c, dst, memory);
    if s.Some? {
      AllocIdOk(c, dst, memory);
      NewIdInTable(c, dst, memory);
      FoundAlive(c, src, id);
      FreeUnused(c1, dst, newId);
      WildBreaks(c1);
      if slot.Some? {
        LinkKeeps(c1, slot.value, CopyOf(c, s.value, Ref(dst, newId), newRights), Behind(c, s.value));
      }
    }
  }

  lemma NewIdInTable(c: Caps, proc: nat, memory: bool)
    requires Inv(c) && proc in c.sizes
    ensures var newId := AllocId(c, proc, memory);
            && newId != -1 && (newId >= 0 <==> InTable(Grow(c, proc, memory), Ref(proc, newId)))
  {
    AllocIdOk(c, proc, memory);
  }

  lemma WildBreaks(c: Caps)
    ensures !Inv(c.(wild := true))
  {
  }

  /** A process whose 64 slots are all for one object. */
  function FullTable(): Caps {
    Caps(map[0 := Object(4, 64, seq(64, i => i), false)], map i: nat | i < 64 :: Slot(Ref(1, i), 7, 0),
         map r | r in set i: nat | i < 64 :: Ref(1, i) :: if r.id >= 0 then r.id else 0,
         map[0 := 0], map[1 := 64], false)
  }

  /**
    * An example: without memory to expand a full table the copy of slot 0 goes beside it, and so does giving up the
    * copy.
    */
  lemma CopyIntoFullTable()
    ensures var c := FullTable();
            && Inv(c) && Find(c, 1, 0) == Some(0) && AllocId(c, 1, false) == -SlotTables.ENOMEM
            && Ref(1, -3) in CapCopy(c, 1, 1, 0, None, false, Some(64)).table
            && CapCopy(c, 1, 1, 0, None, false, None).wild && !Inv(CapCopy(c, 1, 1, 0, None, false, Some(64)))
  {
    var c := FullTable();
    FullTableOk();
    hide FullTable, FirstFree, SlotsOk, ListsOk, CountsOk;
    assert FirstFree(c.table, 1, 64, 0) == 64;
  }

  lemma FullTableOk()
    ensures var c := FullTable();
            && Inv(c) && c.sizes == map[1 := 64]
            && forall i: nat :: i < 64 ==> Ref(1, i) in c.table && c.table[Ref(1, i)] == i
  {
    hide FullTable, Distinct;
    FullTableIs();
    var c := FullTable();
    assert ListsOk(c) && CountsOk(c);
    assert SlotsOk(c);
    assert TableOk(c);
  }

  lemma FullTableIs()
    ensures var c := FullTable();
            && !c.wild && c.sizes == map[1 := 64] && c.held == map[0 := 0] && c.objects.Keys == {0}
            && c.objects[0].refcount == 64 == |c.objects[0].copies| && !c.objects[0].freed
            && Distinct(c.objects[0].copies)
            && (forall i: nat :: i < 64 ==> i in c.objects[0].copies)
            && (forall s :: s in c.objects[0].copies ==> s < 64)
            && (forall i: nat :: i < 64 ==> Ref(1, i) in c.table && c.table[Ref(1, i)] == i)
            && (forall r :: r in c.table ==> r.proc == 1 && 0 <= r.id < 64)
            && forall s: nat :: (s in c.slots <==> s < 64) && (s in c.slots ==> c.slots[s] == Slot(Ref(1, s), 7, 0))
  {
    var c := FullTable();
    forall i: nat | i < 64
      ensures Ref(1, i) in c.table && c.table[Ref(1, i)] == i && i in c.objects[0].copies
    {
      assert c.objects[0].copies[i] == i;
    }
  }

  lemma ReferenceKeeps(c: Caps, o: nat)
    requires Inv(c) && o in c.objects && !c.objects[o].freed
    ensures o in c.held && Inv(Taken(c, o))
  {
    hide TableOk, SlotsOk, ListsOk;
    assert o in c.held && CountsOk(Taken(c, o));
    hide CountsOk;
    CountsAside(c, Taken(c, o));
  }

  /** What the counts of references do not matter to. */
  lemma CountsAside(c: Caps, c': Caps)
    requires TableOk(c) && SlotsOk(c) && ListsOk(c)
    requires c'.slots == c.slots && c'.table == c.table && c'.sizes == c.sizes && c'.objects.Keys == c.objects.Keys
    requires forall o :: o in c.objects ==> c'.objects[o].copies == c.objects[o].copies
    ensures TableOk(c') && SlotsOk(c') && ListsOk(c')
  {
    hide Distinct;
  }

  lemma ObjGetKeeps(c: Caps, proc: nat, id: int, kind: Option<nat>)
    requires Inv(c)
    ensures Inv(ObjGet(c, proc, id, kind))
  {
    if Got(c, proc, id, kind).Some? {
      OwnerAlive(c, Find(c, proc, id).value);
      hide TableOk, SlotsOk, ListsOk, CountsOk, Taken;
      ReferenceKeeps(c, Got(c, proc, id, kind).value);
    }
  }

  lemma ObjPutKeeps(c: Caps, o: nat)
    requires Inv(c) && o in c.objects && c.held[o] > 0
    ensures Inv(ObjPut(c, o))
  {
  }

  // Revocation.

  /** From c to c' every slot of o is gone; other slots, table entries and objects are as they were. */
  ghost predicate Cleared(c: Caps, c': Caps, o: nat) {
    && o in c.objects && c'.objects.Keys == c.objects.Keys
    && (forall s :: s in c'.slots <==> s in c.slots && c.slots[s].owner != o)
    && (forall s :: s in c'.slots ==> c'.slots[s] == c.slots[s])
    && (forall r :: r in c'.table <==> r in c.table && c.table[r] in c'.slots)
    && (forall r :: r in c'.table ==> c'.table[r] == c.table[r])
    && (forall p :: p in c.objects && p != o ==> c'.objects[p] == c.objects[p])
  }

  lemma NothingToClear(c: Caps, o: nat)
    requires Inv(c) && o in c.objects && c.objects[o].copies == []
    ensures Cleared(c, c, o)
  {
  }

  lemma HeadUnlinked(c: Caps, o: nat)
    requires Inv(c) && o in c.objects && c.objects[o].copies != []
    ensures var q := c.objects[o].copies;
            && q[0] in c.slots && c.slots[q[0]].owner == o
            && CapFree(c, c.slots[q[0]].place.proc, c.slots[q[0]].place.id) == Unlink(c, q[0])
            && Unlink(c, q[0]).objects == c.objects[o := Dropped(c.objects[o]).(copies := q[1..])]
  {
    var q := c.objects[o].copies;
    assert q[0] in q;
    assert Remove(q, q[0]) == q[1..];
  }

  lemma ClearedFirst(c: Caps, c': Caps, o: nat)
    requires Inv(c) && o in c.objects && c.objects[o].copies != [] && c.objects[o].copies[0] in c.slots
    requires c.slots[c.objects[o].copies[0]].owner == o
    requires Unlink(c, c.objects[o].copies[0]).objects ==
             c.objects[o := Dropped(c.objects[o]).(copies := c.objects[o].copies[1..])]
    requires Cleared(Unlink(c, c.objects[o].copies[0]), c', o)
    ensures Cleared(c, c', o)
  {
    hide Remove, ListsOk, CountsOk;
  }

  /** What is left of an object without slots: the references held. */
  function Bare(x: Object, held: nat): Object {
    x.(copies := [], refcount := held, freed := x.freed || (held == 0 && x.copies != []))
  }

  lemma {:induction false} FreeAllClears(c: Caps, o: nat)
    requires Inv(c) && o in c.objects
    ensures var c' := FreeAll(c, c.objects[o].copies);
            Inv(c') && Cleared(c, c', o) && c'.held == c.held && c'.objects[o] == Bare(c.objects[o], c.held[o])
    decreases |c.objects[o].copies|
  {
    var q := c.objects[o].copies;
    if q == [] {
      NothingToClear(c, o);
      assert c.objects[o] == Bare(c.objects[o], c.held[o]);
    } else {
      HeadUnlinked(c, o);
      UnlinkKeeps(c, q[0]);
      var c1 := Unlink(c, q[0]);
      assert c.objects[o].refcount == |q| + c.held[o];
      assert c1.held == c.held && c1.objects[o] == Dropped(c.objects[o]).(copies := q[1..]);
      hide Inv, Unlink, CapFree, Cleared;
      FreeAllClears(c1, o);
      ClearedFirst(c, FreeAll(c1, q[1..]), o);
    }
  }

  lemma GotAlive(c: Caps, proc: nat, id: int, kind: Option<nat>)
    requires Inv(c)
    ensures var o := Got(c, proc, id, kind);
            o.Some? ==> o.value in c.objects && !c.objects[o.value].freed && c.objects[o.value].refcount > 0
  {
    if Find(c, proc, id).Some? {
      OwnerAlive(c, Find(c, proc, id).value);
    }
  }

  /** With a reference of its own, free every slot of the object, then put the reference back. */
  function Revoked(c: Caps, o: nat): Caps
    requires Inv(c) && o in c.objects && !c.objects[o].freed
  {
    ReferenceKeeps(c, o);
    FreeAllClears(Taken(c, o), o);
    ObjPut(ObjFree(Taken(c, o), o), o)
  }

  /** cap_revoke. */
  function CapRevoke(c: Caps, proc: nat, id: int): Caps
    requires Inv(c)
  {
    GotAlive(c, proc, id, None);
    var o := Got(c, proc, id, None);
    if o == None then c else Revoked(c, o.value)
  }

  lemma ClearedAround(c: Caps, c2: Caps, o: nat)
    requires o in c.objects && o in c.held && Cleared(Taken(c, o), c2, o) && o in c2.held && c2.held[o] > 0
    ensures Cleared(c, ObjPut(c2, o), o)
  {
  }

  lemma PutBack(c: Caps, c2: Caps, o: nat)
    requires o in c.objects && o in c.held && o in c2.objects && !c.objects[o].freed
    requires c2.held == Taken(c, o).held && c2.objects[o] == Bare(Taken(c, o).objects[o], c.held[o] + 1)
    ensures ObjPut(c2, o).held == c.held
    ensures ObjPut(c2, o).objects[o] == c.objects[o].(copies := [], refcount := c.held[o], freed := c.held[o] == 0)
  {
  }

  lemma RevokedClears(c: Caps, o: nat)
    requires Inv(c) && o in c.objects && !c.objects[o].freed
    ensures var c' := Revoked(c, o);
            && Inv(c') && Cleared(c, c', o) && c'.held == c.held
            && c'.objects[o] == c.objects[o].(copies := [], refcount := c.held[o], freed := c.held[o] == 0)
  {
    ReferenceKeeps(c, o);
    var c1 := Taken(c, o);
    assert c1.objects[o].refcount != 0 && c1.held[o] == c.held[o] + 1;
    FreeAllClears(c1, o);
    var c2 := FreeAll(c1, c1.objects[o].copies);
    hide FreeAll, TableOk, SlotsOk, ListsOk, CountsOk, Cleared, Bare, Taken, ObjPut;
    ObjPutKeeps(c2, o);
    ClearedAround(c, c2, o);
    PutBack(c, c2, o);
  }

  /**
    * Revocation is complete: no slot of the object is left in any process, every other slot is where and what it was,
    * and the object is freed exactly if nobody else holds a reference.
    */
  lemma RevokeComplete(c: Caps, proc: nat, id: int)
    requires Inv(c) && Got(c, proc, id, None).Some?
    ensures var o, c' := Got(c, proc, id, None).value, CapRevoke(c, proc, id);
            && Inv(c') && Cleared(c, c', o) && c'.held == c.held
            && c'.objects[o] == c.objects[o].(copies := [], refcount := c.held[o], freed := c.held[o] == 0)
  {
    GotAlive(c, proc, id, None);
    hide Inv, Cleared, Revoked, Got;
    RevokedClears(c, Got(c, proc, id, None).value);
  }

  // Copying and moving.

  lemma UnlinkUndoesLink(c: Caps, s: nat, x: Slot, i: nat)
    requires Inv(c) && MayLink(c, s, x, i) && InTable(c, x.place) && c.objects[x.owner].refcount > 0
    ensures Unlink(Link(c, s, x, i), s) == c
  {
    assert s !in c.objects[x.owner].copies;
    RemoveInserted(c.objects[x.owner].copies, i, s);
    hide InsertAt, Remove, TableOk, SlotsOk, ListsOk, CountsOk, InTable;
    var c' := Link(c, s, x, i);
    assert c'.slots - {s} == c.slots && c'.table - {x.place} == c.table;
  }

  /** A copy that finds an id and memory, in full. */
  lemma CopyIsLink(c: Caps, src: nat, dst: nat, id: int, newRights: Option<nat>, memory: bool, slot: nat)
    requires Inv(c) && dst in c.sizes && slot !in c.slots && Find(c, src, id).Some? && (memory || Room(c, dst))
    ensures var c1, s, r := Grow(c, dst, memory), Find(c, src, id).value, Ref(dst, AllocId(c, dst, memory));
            && s in c.slots && c.slots[s].place == Ref(src, id)
            && Inv(c1) && c1 == c.(sizes := c1.sizes) && InTable(c1, r) && r.id >= 0
            && c.slots[s].owner in c.objects && c.objects[c.slots[s].owner].refcount > 0
            && MayLink(c1, slot, CopyOf(c, s, r, newRights), Behind(c, s))
            && Inv(CapCopy(c, src, dst, id, newRights, memory, Some(slot)))
            && CapCopy(c, src, dst, id, newRights, memory, Some(slot)) ==
               Link(c1, slot, CopyOf(c, s, r, newRights), Behind(c, s))
  {
    CapCopyKeepsExactly(c, src, dst, id, newRights, memory, Some(slot));
    AllocIdOk(c, dst, memory);
    OwnerAlive(c, Find(c, src, id).value);
    hide SlotsOk, ListsOk, CountsOk, AllocId, Behind, Room, FirstFree, Link;
  }

  /** Freeing a fresh copy gives back the system before the copy, but for a table that has grown. */
  lemma FreeUndoesCopy(c: Caps, src: nat, dst: nat, id: int, newRights: Option<nat>, memory: bool, slot: nat)
    requires Inv(c) && dst in c.sizes && slot !in c.slots && Find(c, src, id).Some? && (memory || Room(c, dst))
    ensures var c' := CapCopy(c, src, dst, id, newRights, memory, Some(slot));
            var r := CopyResult(c, src, dst, id, memory, Some(slot));
            r >= 0 && Inv(c') && Find(c', dst, r) == Some(slot) && CapFree(c', dst, r) == Grow(c, dst, memory)
  {
    hide Inv, Unlink, Link, Grow, InTable, MayLink, Room, AllocId, Behind, CapCopy;
    CopyIsLink(c, src, dst, id, newRights, memory, slot);
    var c1, s, r := Grow(c, dst, memory), Find(c, src, id).value, Ref(dst, AllocId(c, dst, memory));
    FoundLinked(c1, slot, CopyOf(c, s, r, newRights), Behind(c, s));
    UnlinkUndoesLink(c1, slot, CopyOf(c, s, r, newRights), Behind(c, s));
  }

  /** The slot just installed is found, and those installed before are. */
  lemma FoundLinked(c: Caps, s: nat, x: Slot, i: nat)
    requires MayLink(c, s, x, i) && InTable(c, x.place)
    ensures Find(Link(c, s, x, i), x.place.proc, x.place.id) == Some(s)
    ensures forall r: Ref :: r != x.place ==> Find(Link(c, s, x, i), r.proc, r.id) == Find(c, r.proc, r.id)
  {
    hide InsertAt;
  }

  /** cap_move. */
  function CapMove(c: Caps, src: nat, dst: nat, id: int, newRights: Option<nat>, memory: bool, slot: Option<nat>): Caps
    requires Inv(c) && dst in c.sizes && (slot.Some? ==> slot.value !in c.slots)
  {
    var c1 := CapCopy(c, src, dst, id, newRights, memory, slot);
    if CopyResult(c, src, dst, id, memory, slot) < 0 then c1
    else
      CapCopyKeepsExactly(c, src, dst, id, newRights, memory, slot);
      AllocIdOk(c, dst, memory);
      CapFree(c1, src, id)
  }

  /** cap_move keeps the invariant exactly when its copy does. */
  lemma CapMoveKeepsExactly(c: Caps, src: nat, dst: nat, id: int, newRights: Option<nat>, memory: bool,
      slot: Option<nat>)
    requires Inv(c) && dst in c.sizes && (slot.Some? ==> slot.value !in c.slots)
    ensures Inv(CapMove(c, src, dst, id, newRights, memory, slot)) <==>
            Find(c, src, id) == None || memory || Room(c, dst)
  {
    hide Inv, CapFree, CapCopy, CopyResult, Room, AllocId;
    CapCopyKeepsExactly(c, src, dst, id, newRights, memory, slot);
    CopyResultOk(c, src, dst, id, memory, slot);
    if CopyResult(c, src, dst, id, memory, slot) >= 0 {
      CapFreeKeeps(CapCopy(c, src, dst, id, newRights, memory, slot), src, id);
    }
  }

  /** cap_copy returns an id exactly if it made a slot there. */
  lemma CopyResultOk(c: Caps, src: nat, dst: nat, id: int, memory: bool, slot: Option<nat>)
    requires Inv(c) && dst in c.sizes
    ensures CopyResult(c, src, dst, id, memory, slot) >= 0 <==>
            Find(c, src, id).Some? && slot.Some? && (memory || Room(c, dst))
    ensures var r := CopyResult(c, src, dst, id, memory, slot); r >= 0 ==> r == AllocId(c, dst, memory)
  {
    AllocIdOk(c, dst, memory);
    hide Inv, AllocId, Room, Find;
  }

  /** From c to c' slot s was replaced by slot t = y, for the same object. */
  ghost predicate Replaced(c: Caps, c': Caps, s: nat, t: nat, y: Slot)
    requires s in c.slots
  {
    && c'.slots == (c.slots - {s})[t := y] && c'.table == (c.table - {c.slots[s].place})[y.place := t]
    && c'.held == c.held && c'.objects.Keys == c.objects.Keys
    && (forall o :: o in c.objects && o != y.owner ==> c'.objects[o] == c.objects[o])
    && y.owner in c.objects && c'.objects[y.owner] == c.objects[y.owner].(copies := c'.objects[y.owner].copies)
  }

  lemma LinkThenUnlink(c: Caps, s: nat, t: nat, y: Slot, i: nat)
    requires s in c.slots && s != t && MayLink(c, t, y, i) && c.slots[s].owner == y.owner && c.slots[s].place != y.place
    requires InTable(c, y.place) && c.objects[y.owner].refcount > 0
    ensures Replaced(c, Unlink(Link(c, t, y, i), s), s, t, y)
  {
    hide InsertAt, Remove, InTable;
  }

  /** Moving a capability: the object keeps its references, one slot less here and one more there. */
  lemma MoveTransfers(c: Caps, src: nat, dst: nat, id: int, newRights: Option<nat>, memory: bool, slot: nat)
    requires Inv(c) && dst in c.sizes && slot !in c.slots && Find(c, src, id).Some? && (memory || Room(c, dst))
    ensures var c', s := CapMove(c, src, dst, id, newRights, memory, Some(slot)), Find(c, src, id).value;
            && Inv(c') && s in c.slots && c.slots[s].place == Ref(src, id)
            && Replaced(Grow(c, dst, memory), c', s, slot, CopyOf(c, s, Ref(dst, AllocId(c, dst, memory)), newRights))
  {
    hide Inv, Unlink, Link, Grow, InTable, Find, MayLink, Room, AllocId, Behind, CapCopy, CopyResult, Replaced;
    CopyIsLink(c, src, dst, id, newRights, memory, slot);
    CopyResultOk(c, src, dst, id, memory, Some(slot));
    CapMoveKeepsExactly(c, src, dst, id, newRights, memory, Some(slot));
    var c1, s, r := Grow(c, dst, memory), Find(c, src, id).value, Ref(dst, AllocId(c, dst, memory));
    var y := CopyOf(c, s, r, newRights);
    SourceStays(c, c1, src, id, slot, y, Behind(c, s));
    LinkThenUnlink(c1, s, slot, y, Behind(c, s));
  }

  /** After the copy the source is where it was, at another place than the copy. */
  lemma SourceStays(c: Caps, c1: Caps, src: nat, id: int, t: nat, y: Slot, i: nat)
    requires Inv(c) && Inv(c1) && c1 == c.(sizes := c1.sizes) && Find(c, src, id).Some?
    requires MayLink(c1, t, y, i) && InTable(c1, y.place) && t !in c.slots
    ensures Find(Link(c1, t, y, i), src, id) == Find(c, src, id)
    ensures Find(c, src, id).value != t && Ref(src, id) != y.place
  {
    FoundLinked(c1, t, y, i);
    hide SlotsOk, ListsOk, CountsOk, Link;
  }

  // Accounting.

  ghost function SlotsOf(c: Caps, o: nat): set<nat> {
    set s | s in c.slots && c.slots[s].owner == o
  }

  lemma {:induction false} CardOfDistinct(q: seq<nat>, x: set<nat>)
    requires Distinct(q) && forall s :: s in x <==> s in q
    ensures |x| == |q|
    decreases |q|
  {
    if q == [] {
      assert x == {};
    } else {
      assert q == [q[0]] + q[1..];
      assert Distinct(q[1..]) && q[0] !in q[1..];
      CardOfDistinct(q[1..], x - {q[0]});
    }
  }

  /** The reference count is the number of slots for the object, in all processes together, plus the references held. */
  lemma Accounting(c: Caps, o: nat)
    requires Inv(c) && o in c.objects
    ensures c.objects[o].refcount == |SlotsOf(c, o)| + c.held[o]
    ensures forall s :: s in SlotsOf(c, o) <==> s in c.objects[o].copies
    ensures c.objects[o].freed ==> SlotsOf(c, o) == {} && c.held[o] == 0
  {
    CardOfDistinct(c.objects[o].copies, SlotsOf(c, o));
  }

  // Runs.

  /** `kmalloc` is what kmalloc returns for the object or slot, `memory` whether a full slot table can be expanded. */
  datatype Op =
    | Process(newProc: nat)
    | New(newObj: Option<nat>, newKind: nat)
    | Grant(proc: nat, obj: nat, rights: nat, memory: bool, slot: Option<nat>)
    | Free(proc: nat, id: int)
    | Copy(src: nat, dst: nat, id: int, newRights: Option<nat>, memory: bool, slot: Option<nat>)
    | Move(src: nat, dst: nat, id: int, newRights: Option<nat>, memory: bool, slot: Option<nat>)
    | Get(proc: nat, id: int, kind: Option<nat>)
    | Put(obj: nat)
    | FreeObject(obj: nat)
    | Revoke(proc: nat, id: int)

  /** What the callers of the operations respect, what kmalloc promises them, and what cap_copy and cap_move need. */
  ghost predicate Enabled(c: Caps, op: Op) {
    match op
    case Process(p) => p !in c.sizes
    case New(o, _) => o.Some? ==> o.value !in c.objects
    case Grant(proc, o, _, _, slot) =>
      && proc in c.sizes && o in c.objects && c.objects[o].refcount == 0 && !c.objects[o].freed
      && (slot.Some? ==> slot.value !in c.slots)
    case Copy(src, dst, id, _, memory, slot) => CopyEnabled(c, src, dst, id, memory, slot)
    case Move(src, dst, id, _, memory, slot) => CopyEnabled(c, src, dst, id, memory, slot)
    case Put(o) => o in c.objects && o in c.held && c.held[o] > 0
    case FreeObject(o) => o in c.objects && o in c.held && (c.objects[o].refcount == 0 || c.held[o] > 0)
    case _ => true
  }

  ghost predicate CopyEnabled(c: Caps, src: nat, dst: nat, id: int, memory: bool, slot: Option<nat>) {
    && dst in c.sizes && (slot.Some? ==> slot.value !in c.slots)
    && (Find(c, src, id) == None || memory || Room(c, dst))
  }

  function Step(c: Caps, op: Op): Caps
    requires Inv(c) && Enabled(c, op)
  {
    match op
    case Process(p) => ProcessInit(c, p)
    case New(o, kind) => ObjAlloc(c, o, kind)
    case Grant(proc, o, rights, memory, slot) => CapAlloc(c, proc, o, rights, memory, slot)
    case Free(proc, id) => CapFree(c, proc, id)
    case Copy(src, dst, id, newRights, memory, slot) => CapCopy(c, src, dst, id, newRights, memory, slot)
    case Move(src, dst, id, newRights, memory, slot) => CapMove(c, src, dst, id, newRights, memory, slot)
    case Get(proc, id, kind) => ObjGet(c, proc, id, kind)
    case Put(o) => ObjPut(c, o)
    case FreeObject(o) => ObjFree(c, o)
    case Revoke(proc, id) => CapRevoke(c, proc, id)
  }

  lemma StepKeeps(c: Caps, op: Op)
    requires Inv(c) && Enabled(c, op)
    ensures Inv(Step(c, op))
  {
    hide Inv, ProcessInit, ObjAlloc, CapAlloc, CapFree, CapCopy, CapMove, ObjGet, ObjPut, ObjFree, CapRevoke, Room;
    match op {
      case Process(p) => ProcessInitKeeps(c, p);
      case New(o, kind) => ObjAllocKeeps(c, o, kind);
      case Grant(proc, o, rights, memory, slot) => CapAllocKeeps(c, proc, o, rights, memory, slot);
      case Free(proc, id) => CapFreeKeeps(c, proc, id);
      case Copy(src, dst, id, newRights, memory, slot) => CapCopyKeepsExactly(c, src, dst, id, newRights, memory, slot);
      case Move(src, dst, id, newRights, memory, slot) => CapMoveKeepsExactly(c, src, dst, id, newRights, memory, slot);
      case Get(proc, id, kind) => ObjGetKeeps(c, proc, id, kind);
      case Put(o) => ObjPutKeeps(c, o);
      case FreeObject(o) => ObjFreeKeeps(c, o);
      case Revoke(proc, id) => RevokeKeeps(c, proc, id);
    }
  }

  /** An object without references may be freed. */
  lemma FreedKeeps(c: Caps, o: nat)
    requires Inv(c) && o in c.objects && c.objects[o].refcount == 0
    ensures Inv(c.(objects := c.objects[o := c.objects[o].(freed := true)]))
  {
    hide Distinct;
  }

  lemma ObjFreeKeeps(c: Caps, o: nat)
    requires Inv(c) && o in c.objects
    ensures Inv(ObjFree(c, o))
  {
    hide Inv, FreeAll, Cleared, Bare;
    if c.objects[o].refcount == 0 {
      FreedKeeps(c, o);
    } else {
      FreeAllClears(c, o);
    }
  }

  lemma RevokeKeeps(c: Caps, proc: nat, id: int)
    requires Inv(c)
    ensures Inv(CapRevoke(c, proc, id))
  {
    hide Inv, Revoked, Cleared;
    if Got(c, proc, id, None).Some? {
      RevokeComplete(c, proc, id);
    }
  }

  ghost predicate Runs(c: Caps, ops: seq<Op>)
    requires Inv(c)
    decreases |ops|
  {
    ops == [] || (Enabled(c, ops[0]) && (StepKeeps(c, ops[0]); Runs(Step(c, ops[0]), ops[1..])))
  }

  /** The accounts are right after every run. */
  ghost function After(c: Caps, ops: seq<Op>): (c': Caps)
    requires Inv(c) && Runs(c, ops)
    ensures Inv(c')
    decreases |ops|
  {
    if ops == [] then c
    else
      StepKeeps(c, ops[0]);
      After(Step(c, ops[0]), ops[1..])
  }
}
