/** The capability operations as the kernel runs them, on shared state updated in place. */
module CapSystem {
  import opened Sequences
  import opened Wrappers
  import opened CapabilityModel
  import opened Capability
  import opened SlotTables

  /** What cap_copy stores, in full. */
  lemma CopiedIs(c: Caps, src: nat, dst: nat, id: int, newRights: Option<nat>, memory: bool, t: nat)
    requires Inv(c) && dst in c.sizes && Find(c, src, id).Some? && AllocId(c, dst, memory) != -1
    ensures var s, r := Find(c, src, id).value, Ref(dst, AllocId(c, dst, memory));
            && s in c.slots && c.slots[s].owner in c.objects && s in c.objects[c.slots[s].owner].copies
            && var x := CopyOf(c, s, r, newRights);
               var c1, y := Grow(c, dst, memory), c.objects[x.owner].(refcount := c.objects[x.owner].refcount + 1);
               CapCopy(c, src, dst, id, newRights, memory, Some(t)) ==
               c1.(objects := c.objects[x.owner := y.(copies := InsertAt(y.copies, Behind(c, s), t))],
                   slots := c.slots[t := x], table := c.table[r := t], wild := c.wild || !InTable(c1, r))
  {
    FoundAlive(c, src, id);
    hide InsertAt, IndexOf, TableOk, SlotsOk, ListsOk, CountsOk, AllocId, FirstFree, InTable;
  }

  /** After the copy of a move the source is still there to be freed. */
  lemma MovedFound(c: Caps, src: nat, dst: nat, id: int, newRights: Option<nat>, memory: bool, slot: nat)
    requires Inv(c) && dst in c.sizes && slot !in c.slots && Find(c, src, id).Some? && (memory || Room(c, dst))
    ensures Find(Capability.CapCopy(c, src, dst, id, newRights, memory, Some(slot)), src, id).Some?
  {
    hide Inv, Link, Grow, InTable, Find, MayLink, Room, AllocId, Behind, Capability.CapCopy;
    CopyIsLink(c, src, dst, id, newRights, memory, slot);
    var c1, s, r := Grow(c, dst, memory), Find(c, src, id).value, Ref(dst, AllocId(c, dst, memory));
    SourceStays(c, c1, src, id, slot, CopyOf(c, s, r, newRights), Behind(c, s));
  }

  lemma FreeStep(c: Caps, q: seq<nat>)
    requires Inv(c) && q != [] && q[0] in c.slots
    ensures var r := c.slots[q[0]].place;
            Inv(CapFree(c, r.proc, r.id)) && FreeAll(c, q) == FreeAll(CapFree(c, r.proc, r.id), q[1..])
  {
    CapFreeKeeps(c, c.slots[q[0]].place.proc, c.slots[q[0]].place.id);
  }

  lemma FreeEnd(c: Caps)
    requires Inv(c)
    ensures FreeAll(c, []) == c
  {
  }

  class Kernel {
    var objects: map<nat, Object>
    var slots: map<nat, Slot>
    var table: map<Ref, nat>
    var sizes: map<nat, nat>
    /** References taken and not put back, and stores beside a slot table; the program keeps neither. */
    ghost var held: map<nat, nat>
    ghost var wild: bool

    ghost function View(): Caps
      reads this
    {
      Caps(objects, slots, table, held, sizes, wild)
    }

    constructor ()
      ensures View() == Caps(map[], map[], map[], map[], map[], false) && Inv(View())
    {
      objects, slots, table, held, sizes, wild := map[], map[], map[], map[], map[], false;
    }

    /** process_init. */
    method ProcessInit(proc: nat)
      requires Inv(View()) && proc !in sizes
      modifies this`sizes
      ensures View() == Capability.ProcessInit(old(View()), proc) && Inv(View())
    {
      ProcessInitKeeps(View(), proc);
      sizes := sizes[proc := BASE_OBJECT_NUM];
    }

    /** alloc_slot_id, in short: CapTables ties this to the bitmaps. */
    method AllocSlotId(proc: nat, memory: bool) returns (r: int)
      requires proc in sizes
      modifies this`sizes
      ensures View() == Grow(old(View()), proc, memory) && r == AllocId(old(View()), proc, memory)
    {
      var n := FirstFree(table, proc, sizes[proc], 0);
      if n == sizes[proc] {
        if !memory {
          return -ENOMEM;
        }
        sizes := sizes[proc := sizes[proc] + BASE_OBJECT_NUM];
      }
      return n;
    }

    /** free_slot_id. */
    method FreeSlotId(proc: nat, id: int)
      modifies this`table, this`wild
      ensures View() == CapabilityModel.FreeSlotId(old(View()), proc, id)
    {
      if proc in sizes && 0 <= id < sizes[proc] {
        table := table - {Ref(proc, id)};
      } else {
        wild := true;
      }
    }

    /** install_slot. */
    method InstallSlot(proc: nat, id: int, slot: nat)
      modifies this`table, this`wild
      ensures table == old(table)[Ref(proc, id) := slot]
      ensures wild == (old(wild) || !InTable(View(), Ref(proc, id)))
    {
      wild := wild || !InTable(View(), Ref(proc, id));
      table := table[Ref(proc, id) := slot];
    }

    /** get_slot. */
    method GetSlot(proc: nat, id: int) returns (slot: Option<nat>)
      ensures slot == Find(View(), proc, id)
    {
      if proc !in sizes || id < 0 || id >= sizes[proc] {
        return None;
      }
      slot := if Ref(proc, id) in table then Some(table[Ref(proc, id)]) else None;
    }

    /** obj_alloc; `address` is what kmalloc returned. */
    method ObjAlloc(address: Option<nat>, kind: nat) returns (obj: Option<nat>)
      requires Inv(View()) && (address.Some? ==> address.value !in objects)
      modifies this
      ensures View() == Capability.ObjAlloc(old(View()), address, kind) && Inv(View())
      ensures obj == address
    {
      ObjAllocKeeps(View(), address, kind);
      if address == None {
        return None;
      }
      objects := objects[address.value := Object(kind, 0, [], false)];
      held := held[address.value := 0];
      return address;
    }

    /** cap_alloc; `slot` is what kmalloc returned, `memory` whether a full table can be expanded. */
    method CapAlloc(proc: nat, o: nat, rights: nat, memory: bool, slot: Option<nat>) returns (r: int)
      requires Inv(View()) && proc in sizes && o in objects && objects[o].refcount == 0 && !objects[o].freed
      requires slot.Some? ==> slot.value !in slots
      modifies this
      ensures View() == Capability.CapAlloc(old(View()), proc, o, rights, memory, slot) && Inv(View())
      ensures var id := AllocId(old(View()), proc, memory); r == if id >= 0 && slot.Some? then id else -ENOMEM
    {
      hide Inv, InsertAt, AllocId, FirstFree;
      CapAllocKeeps(View(), proc, o, rights, memory, slot);
      AllocIdOk(View(), proc, memory);
      var id := AllocSlotId(proc, memory);
      if id < 0 {
        return -ENOMEM;
      }
      if slot == None {
        FreeSlotId(proc, id);
        return -ENOMEM;
      }
      slots := slots[slot.value := Slot(Ref(proc, id), rights, o)];
      var x := objects[o].(copies := InsertAt(objects[o].copies, 0, slot.value));
      x := x.(refcount := 1);
      objects := objects[o := x];
      InstallSlot(proc, id, slot.value);
      return id;
    }

    /** cap_free; a freed object is only marked, so that its list can still be updated. */
    method CapFree(proc: nat, id: int) returns (r: int)
      requires Inv(View())
      modifies this
      ensures View() == Capability.CapFree(old(View()), proc, id) && Inv(View())
      ensures r == if Find(old(View()), proc, id).Some? then 0 else -ECAPBILITY
    {
      hide Inv, Remove, InTable;
      CapFreeKeeps(View(), proc, id);
      FoundAlive(View(), proc, id);
      var slot := GetSlot(proc, id);
      if slot == None {
        return -ECAPBILITY;
      }
      var s := slot.value;
      var o := slots[s].owner;
      FreeSlotId(proc, id);
      var x := objects[o];
      var oldRefcount := x.refcount;
      x := x.(refcount := oldRefcount - 1);
      if oldRefcount == 1 {
        x := x.(freed := true);
      }
      x := x.(copies := Remove(x.copies, s));
      objects := objects[o := x];
      slots := slots - {s};
      return 0;
    }

    /** cap_copy. */
    method CapCopy(src: nat, dst: nat, id: int, newRights: Option<nat>, memory: bool, slot: Option<nat>)
      returns (r: int)
      requires Inv(View()) && dst in sizes && (slot.Some? ==> slot.value !in slots)
      modifies this
      ensures View() == Capability.CapCopy(old(View()), src, dst, id, newRights, memory, slot)
      ensures r == CopyResult(old(View()), src, dst, id, memory, slot)
    {
      hide Inv, InsertAt, AllocId, Find, FirstFree, IndexOf;
      ghost var c := View();
      var found := GetSlot(src, id);
      if found == None {
        return -ECAPBILITY;
      }
      AllocIdOk(c, dst, memory);
      var newId := AllocSlotId(dst, memory);
      if newId == -1 {
        return -ENOMEM;
      }
      if slot == None {
        FreeSlotId(dst, newId);
        return -ENOMEM;
      }
      CopiedIs(c, src, dst, id, newRights, memory, slot.value);
      StoreCopy(found.value, slot.value, dst, newId, newRights);
      return newId;
    }

    /** The stores of cap_copy. */
    method StoreCopy(s: nat, slot: nat, dst: nat, newId: int, newRights: Option<nat>)
      requires s in slots && slots[s].owner in objects && s in objects[slots[s].owner].copies
      modifies this`objects, this`slots, this`table, this`wild
      ensures var o, y := old(slots)[s].owner, old(objects[slots[s].owner]);
              objects == old(objects)[o := y.(refcount := y.refcount + 1,
                                              copies := InsertAt(y.copies, IndexOf(y.copies, s) + 1, slot))]
      ensures slots == old(slots)[slot := CopyOf(old(View()), s, Ref(dst, newId), newRights)]
      ensures table == old(table)[Ref(dst, newId) := slot] && wild == (old(wild) || !InTable(View(), Ref(dst, newId)))
    {
      var x := slots[s];
      var y := objects[x.owner].(refcount := objects[x.owner].refcount + 1);
      var rights := if newRights.Some? then newRights.value else x.rights;
      slots := slots[slot := Slot(Ref(dst, newId), rights, x.owner)];
      y := y.(copies := InsertAt(y.copies, IndexOf(y.copies, s) + 1, slot));
      objects := objects[x.owner := y];
      InstallSlot(dst, newId, slot);
    }

    /** cap_move. */
    method CapMove(src: nat, dst: nat, id: int, newRights: Option<nat>, memory: bool, slot: Option<nat>)
      returns (r: int)
      requires Inv(View()) && dst in sizes && (slot.Some? ==> slot.value !in slots)
      modifies this
      ensures View() == Capability.CapMove(old(View()), src, dst, id, newRights, memory, slot)
      ensures var q := CopyResult(old(View()), src, dst, id, memory, slot); r == if q < 0 then q else 0
    {
      hide Inv, Capability.CapCopy, Capability.CapFree, CopyResult, Room, Find;
      ghost var c := View();
      r := CapCopy(src, dst, id, newRights, memory, slot);
      if r < 0 {
        return r;
      }
      CapCopyKeepsExactly(c, src, dst, id, newRights, memory, slot);
      CopyResultOk(c, src, dst, id, memory, slot);
      if slot.Some? {
        MovedFound(c, src, dst, id, newRights, memory, slot.value);
      }
      r := CapFree(src, id);
    }

    /** get_opaque, for an id in range. */
    method ObjGet(proc: nat, id: int, kind: Option<nat>) returns (obj: Option<nat>)
      requires Inv(View())
      modifies this
      ensures View() == Capability.ObjGet(old(View()), proc, id, kind) && Inv(View())
      ensures obj == Got(old(View()), proc, id, kind)
    {
      hide TableOk, SlotsOk, ListsOk, CountsOk;
      ObjGetKeeps(View(), proc, id, kind);
      FoundAlive(View(), proc, id);
      var slot := GetSlot(proc, id);
      if slot == None {
        return None;
      }
      var o := slots[slot.value].owner;
      if kind.Some? && objects[o].kind != kind.value {
        return None;
      }
      objects := objects[o := objects[o].(refcount := objects[o].refcount + 1)];
      held := held[o := held[o] + 1];
      return Some(o);
    }

    /** obj_put. */
    method ObjPut(o: nat)
      requires Inv(View()) && o in objects && held[o] > 0
      modifies this
      ensures View() == Capability.ObjPut(old(View()), o) && Inv(View())
    {
      ObjPutKeeps(View(), o);
      hide Inv;
      var x := objects[o];
      var oldRefcount := x.refcount;
      x := x.(refcount := oldRefcount - 1);
      if oldRefcount == 1 {
        x := x.(freed := true);
      }
      objects := objects[o := x];
      held := held[o := held[o] - 1];
    }

    /** obj_free: the loop keeps the successor before it frees a slot. */
    method ObjFree(o: nat)
      requires Inv(View()) && o in objects && (objects[o].refcount == 0 || held[o] > 0)
      modifies this
      ensures View() == Capability.ObjFree(old(View()), o) && Inv(View())
    {
      hide TableOk, SlotsOk, ListsOk, CountsOk, Cleared, Bare, Unlink, Capability.CapFree, FreeAll;
      FreeAllClears(View(), o);
      if objects[o].refcount == 0 {
        FreedKeeps(View(), o);
        objects := objects[o := objects[o].(freed := true)];
        return;
      }
      ghost var c := View();
      ghost var q := objects[o].copies;
      ghost var k := 0;
      var iter := if objects[o].copies == [] then None else Some(objects[o].copies[0]);
      while iter.Some?
        invariant Inv(View()) && o in objects && k <= |q| && objects[o].copies == q[k..]
        invariant iter == if k < |q| then Some(q[k]) else None
        invariant FreeAll(View(), q[k..]) == FreeAll(c, q)
        decreases |q| - k
      {
        HeadUnlinked(View(), o);
        var copies := objects[o].copies;
        var next := if |copies| > 1 then Some(copies[1]) else None;
        var place := slots[iter.value].place;
        assert q[k..][1..] == q[k + 1..];
        FreeStep(View(), q[k..]);
        var r := CapFree(place.proc, place.id);
        iter := next;
        k := k + 1;
      }
      assert q[k..] == [];
      FreeEnd(View());
    }

    /** cap_revoke. */
    method CapRevoke(proc: nat, id: int) returns (r: int)
      requires Inv(View())
      modifies this
      ensures View() == Capability.CapRevoke(old(View()), proc, id) && Inv(View())
      ensures r == if Got(old(View()), proc, id, None).Some? then 0 else -ECAPBILITY
    {
      ghost var c := View();
      RevokeKeeps(c, proc, id);
      GotAlive(c, proc, id, None);
      var obj := ObjGet(proc, id, None);
      if obj == None {
        return -ECAPBILITY;
      }
      FreeAllClears(View(), obj.value);
      hide TableOk, SlotsOk, ListsOk, CountsOk, Cleared, FreeAll;
      ObjFree(obj.value);
      ObjPut(obj.value);
      return 0;
    }
  }
}
