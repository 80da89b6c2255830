/** What the capability operations leave behind, slot by slot. */
module CapabilityLaws {
  import opened Sequences
  import opened Wrappers
  import opened CapabilityModel
  import opened Capability
  import SlotTables

  /** From c to c' slot t came into being, with this place, these rights and this owner; no other slot changed. */
  ghost predicate Made(c: Caps, c': Caps, t: nat, place: Ref, rights: nat, owner: nat) {
    && t !in c.slots && c'.slots == c.slots[t := Slot(place, rights, owner)]
    && place !in c.table && c'.table == c.table[place := t]
    && c'.held == c.held && !c'.wild && c'.objects.Keys == c.objects.Keys
    && (forall o :: o in c.objects && o != owner ==> c'.objects[o] == c.objects[o])
    && owner in c.objects
    && c'.objects[owner] ==
       c.objects[owner].(refcount := c.objects[owner].refcount + 1, copies := c'.objects[owner].copies)
  }

  /** r is the least id that process p does not use; its table grows by 64 places if that is the next one. */
  ghost predicate LeastId(c: Caps, c': Caps, p: nat, r: int)
    requires p in c.sizes
  {
    && 0 <= r <= c.sizes[p] && Ref(p, r) !in c.table && (forall j: nat :: j < r ==> Ref(p, j) in c.table)
    && c'.sizes == if r < c.sizes[p] then c.sizes else c.sizes[p := c.sizes[p] + 64]
  }

  lemma LeastIdOk(c: Caps, p: nat, memory: bool)
    requires Inv(c) && p in c.sizes && AllocId(c, p, memory) >= 0
    ensures LeastId(c, Grow(c, p, memory), p, AllocId(c, p, memory))
    ensures Grow(c, p, memory) == c.(sizes := Grow(c, p, memory).sizes)
  {
    hide SlotsOk, ListsOk, CountsOk;
    assert Ref(p, c.sizes[p]) !in c.table;
  }

  lemma LinkMakes(c: Caps, t: nat, x: Slot, i: nat)
    requires Inv(c) && MayLink(c, t, x, i) && InTable(c, x.place)
    ensures Made(c, Link(c, t, x, i), t, x.place, x.rights, x.owner)
    ensures var q := c.objects[x.owner].copies; Link(c, t, x, i).objects[x.owner].copies == q[..i] + [t] + q[i..]
    ensures Link(c, t, x, i).sizes == c.sizes
  {
    hide TableOk, SlotsOk, ListsOk, CountsOk, InTable;
  }

  /** cap_alloc that finds an id and memory: a slot with the rights given, first on the list of the object. */
  lemma AllocMakes(c: Caps, p: nat, o: nat, rights: nat, memory: bool, t: nat)
    requires Inv(c) && p in c.sizes && o in c.objects && c.objects[o].refcount == 0 && !c.objects[o].freed
    requires t !in c.slots && (memory || Room(c, p))
    ensures var r, c' := AllocId(c, p, memory), CapAlloc(c, p, o, rights, memory, Some(t));
            && LeastId(c, c', p, r) && Made(c, c', t, Ref(p, r), rights, o)
            && c'.objects[o].copies == [t] + c.objects[o].copies
  {
    hide Inv, Link, AllocId, Grow, InTable, Room, Made;
    AllocIdOk(c, p, memory);
    LeastIdOk(c, p, memory);
    var r, c1 := AllocId(c, p, memory), Grow(c, p, memory);
    LinkMakes(c1, t, Slot(Ref(p, r), rights, o), 0);
    SameBase(c, c1, CapAlloc(c, p, o, rights, memory, Some(t)), t, Ref(p, r), rights, o);
    var q := c.objects[o].copies;
    assert q[..0] + [t] + q[0..] == [t] + q;
  }

  lemma SameBase(c: Caps, c1: Caps, c': Caps, t: nat, place: Ref, rights: nat, owner: nat)
    requires c1 == c.(sizes := c1.sizes) && Made(c1, c', t, place, rights, owner)
    ensures Made(c, c', t, place, rights, owner)
  {
  }

  /**
    * cap_copy that finds an id and memory: the copy has the new rights, if any are given, and those of the source
    * otherwise; it is for the same object, at the id returned, and right behind the source on the object's list.
    */
  lemma CopyMakes(c: Caps, src: nat, dst: nat, id: int, newRights: Option<nat>, memory: bool, t: nat, k: nat)
    requires Inv(c) && dst in c.sizes && t !in c.slots && (memory || Room(c, dst))
    requires Find(c, src, id).Some? && Find(c, src, id).value in c.slots
    requires var o := c.slots[Find(c, src, id).value].owner;
             o in c.objects && k < |c.objects[o].copies| && c.objects[o].copies[k] == Find(c, src, id).value
    ensures var r := CopyResult(c, src, dst, id, memory, Some(t));
            var c' := CapCopy(c, src, dst, id, newRights, memory, Some(t));
            var x := c.slots[Find(c, src, id).value];
            var q := c.objects[x.owner].copies;
            && LeastId(c, c', dst, r)
            && Made(c, c', t, Ref(dst, r), if newRights.Some? then newRights.value else x.rights, x.owner)
            && c'.objects[x.owner].copies == q[..k + 1] + [t] + q[k + 1..]
  {
    hide Inv, Link, AllocId, Grow, InTable, Room, Made, Find, CapCopy, MayLink, CopyResult;
    CopyIsLink(c, src, dst, id, newRights, memory, t);
    CopyResultOk(c, src, dst, id, memory, Some(t));
    LeastIdOk(c, dst, memory);
    var s, r, c1 := Find(c, src, id).value, AllocId(c, dst, memory), Grow(c, dst, memory);
    var x := CopyOf(c, s, Ref(dst, r), newRights);
    LinkMakes(c1, t, x, Behind(c, s));
    SameBase(c, c1, Link(c1, t, x, Behind(c, s)), t, x.place, x.rights, x.owner);
    BehindIs(c, s, k);
  }

  lemma BehindIs(c: Caps, s: nat, k: nat)
    requires Inv(c) && s in c.slots && c.slots[s].owner in c.objects
    requires var q := c.objects[c.slots[s].owner].copies; k < |q| && q[k] == s
    ensures Behind(c, s) == k + 1
  {
    assert Distinct(c.objects[c.slots[s].owner].copies);
  }

  /** From c to c' slot s was given up: its object has one reference less, and is freed with the last. */
  ghost predicate GivenUp(c: Caps, c': Caps, s: nat, k: nat)
    requires s in c.slots && c.slots[s].owner in c.objects && k < |c.objects[c.slots[s].owner].copies|
  {
    var x := c.slots[s];
    var o := c.objects[x.owner];
    && c'.slots == c.slots - {s} && c'.table == c.table - {x.place} && c'.sizes == c.sizes
    && c'.held == c.held && c'.wild == c.wild
    && c'.objects == c.objects[x.owner := Object(o.kind, o.refcount - 1, o.copies[..k] + o.copies[k + 1..],
                                                 o.freed || o.refcount == 1)]
  }

  /** A slot is found under an id exactly if it is in use and that is its place. */
  lemma FindExactly(c: Caps, p: nat, id: int, s: nat)
    requires Inv(c)
    ensures Find(c, p, id) == Some(s) <==> s in c.slots && c.slots[s].place == Ref(p, id)
  {
    hide ListsOk, CountsOk;
  }

  /** cap_free gives up exactly the slot found, or changes nothing. */
  lemma FreeMakes(c: Caps, p: nat, id: int, s: nat, k: nat)
    requires Inv(c)
    requires s in c.slots ==> c.slots[s].owner in c.objects && k < |c.objects[c.slots[s].owner].copies|
                              && c.objects[c.slots[s].owner].copies[k] == s
    ensures s in c.slots && c.slots[s].place == Ref(p, id) ==> GivenUp(c, CapFree(c, p, id), s, k)
    ensures (forall x :: x in c.slots ==> c.slots[x].place != Ref(p, id)) ==> CapFree(c, p, id) == c
  {
    FindExactly(c, p, id, s);
    if Find(c, p, id).Some? {
      FindExactly(c, p, id, Find(c, p, id).value);
    }
    if s in c.slots {
      RemovedAt(c, s, k);
    }
    hide Inv, Find, Remove;
  }

  lemma RemovedAt(c: Caps, s: nat, k: nat)
    requires Inv(c) && s in c.slots && c.slots[s].owner in c.objects
    requires var q := c.objects[c.slots[s].owner].copies; k < |q| && q[k] == s
    ensures var q := c.objects[c.slots[s].owner].copies; Remove(q, s) == q[..k] + q[k + 1..]
  {
    assert Distinct(c.objects[c.slots[s].owner].copies);
  }

  /** From c to c' slot s was replaced by slot t, at the same place k on the list of the object. */
  ghost predicate Moved(c: Caps, c': Caps, s: nat, k: nat, t: nat, place: Ref, rights: nat)
    requires s in c.slots && c.slots[s].owner in c.objects && k < |c.objects[c.slots[s].owner].copies|
  {
    var x := c.slots[s];
    var o := c.objects[x.owner];
    && c'.slots == (c.slots - {s})[t := Slot(place, rights, x.owner)]
    && c'.table == (c.table - {x.place})[place := t] && c'.held == c.held && !c'.wild
    && c'.objects == c.objects[x.owner := Object(o.kind, o.refcount, o.copies[..k] + [t] + o.copies[k + 1..], o.freed)]
  }

  lemma MadeThenGivenUp(c: Caps, c1: Caps, c': Caps, s: nat, k: nat, t: nat, place: Ref, rights: nat)
    requires s in c.slots && c.slots[s].owner in c.objects && k < |c.objects[c.slots[s].owner].copies|
    requires c.slots[s].place in c.table && c.objects[c.slots[s].owner].refcount > 0
    requires Made(c, c1, t, place, rights, c.slots[s].owner)
    requires var q := c.objects[c.slots[s].owner].copies;
             c1.objects[c.slots[s].owner].copies == q[..k + 1] + [t] + q[k + 1..]
    requires GivenUp(c1, c', s, k)
    ensures Moved(c, c', s, k, t, place, rights)
  {
    var x := c.slots[s];
    var q := c.objects[x.owner].copies;
    var q1 := q[..k + 1] + [t] + q[k + 1..];
    assert q1[..k] == q[..k] && q1[k + 1..] == [t] + q[k + 1..];
    assert q[..k] + ([t] + q[k + 1..]) == q[..k] + [t] + q[k + 1..];
    assert c1.slots - {s} == (c.slots - {s})[t := Slot(place, rights, x.owner)];
    assert c1.table - {x.place} == (c.table - {x.place})[place := t];
  }

  /**
    * cap_move that finds an id and memory: the slot at the old id is replaced by one with the new rights, if any are
    * given, and the old ones otherwise; it takes the old one's place on the list, and the reference count stays.
    */
  lemma MoveMakes(c: Caps, src: nat, dst: nat, id: int, newRights: Option<nat>, memory: bool, t: nat, k: nat)
    requires Inv(c) && dst in c.sizes && t !in c.slots && (memory || Room(c, dst))
    requires Find(c, src, id).Some? && Find(c, src, id).value in c.slots
    requires var o := c.slots[Find(c, src, id).value].owner;
             o in c.objects && k < |c.objects[o].copies| && c.objects[o].copies[k] == Find(c, src, id).value
    ensures var r := CopyResult(c, src, dst, id, memory, Some(t));
            var c' := CapMove(c, src, dst, id, newRights, memory, Some(t));
            var s := Find(c, src, id).value;
            && LeastId(c, c', dst, r) && c.slots[s].place == Ref(src, id)
            && Moved(c, c', s, k, t, Ref(dst, r), if newRights.Some? then newRights.value else c.slots[s].rights)
  {
    hide Inv, Grow, Room, Find, CapCopy, CapFree, LeastId, AllocId, Made, GivenUp, Moved, CopyResult;
    CopyMakes(c, src, dst, id, newRights, memory, t, k);
    CopyResultOk(c, src, dst, id, memory, Some(t));
    CapCopyKeepsExactly(c, src, dst, id, newRights, memory, Some(t));
    var s, r := Find(c, src, id).value, CopyResult(c, src, dst, id, memory, Some(t));
    FindExactly(c, src, id, s);
    OwnerAlive(c, s);
    var c1, rights := CapCopy(c, src, dst, id, newRights, memory, Some(t)),
                      if newRights.Some? then newRights.value else c.slots[s].rights;
    SlotPlaced(c, s);
    SourceKept(c, c1, s, k, t, Ref(dst, r), rights);
    FreeMakes(c1, src, id, s, k);
    MadeThenGivenUp(c, c1, CapFree(c1, src, id), s, k, t, Ref(dst, r), rights);
    SameSizes(c, c1, CapFree(c1, src, id), dst, r, s, k);
  }

  lemma SlotPlaced(c: Caps, s: nat)
    requires Inv(c) && s in c.slots
    ensures c.slots[s].place in c.table
  {
  }

  /** The copy leaves the source where it was, also on the list. */
  lemma SourceKept(c: Caps, c1: Caps, s: nat, k: nat, t: nat, place: Ref, rights: nat)
    requires s in c.slots && c.slots[s].owner in c.objects && k < |c.objects[c.slots[s].owner].copies|
    requires c.objects[c.slots[s].owner].copies[k] == s && Made(c, c1, t, place, rights, c.slots[s].owner)
    requires var q := c.objects[c.slots[s].owner].copies;
             c1.objects[c.slots[s].owner].copies == q[..k + 1] + [t] + q[k + 1..]
    ensures s in c1.slots && c1.slots[s] == c.slots[s] && c1.slots[s].owner in c1.objects
    ensures var q := c1.objects[c1.slots[s].owner].copies; k < |q| && q[k] == s
  {
  }

  lemma SameSizes(c: Caps, c1: Caps, c': Caps, p: nat, r: int, s: nat, k: nat)
    requires p in c.sizes && LeastId(c, c1, p, r)
    requires s in c1.slots && c1.slots[s].owner in c1.objects && k < |c1.objects[c1.slots[s].owner].copies|
    requires GivenUp(c1, c', s, k)
    ensures LeastId(c, c', p, r)
  {
  }

  // Operations that fail.

  /** Only the table of process p may have grown. */
  ghost predicate OnlyGrown(c: Caps, c': Caps, p: nat)
    requires p in c.sizes
  {
    c' == c.(sizes := c.sizes[p := c.sizes[p] + 64]) || c' == c
  }

  /** cap_alloc without an id or without memory for the slot makes nothing. */
  lemma AllocFails(c: Caps, p: nat, o: nat, rights: nat, memory: bool, slot: Option<nat>)
    requires Inv(c) && p in c.sizes && o in c.objects && (slot == None || !(memory || Room(c, p)))
    ensures OnlyGrown(c, CapAlloc(c, p, o, rights, memory, slot), p)
    ensures !(memory || Room(c, p)) ==> CapAlloc(c, p, o, rights, memory, slot) == c
  {
    hide Inv, Room, InTable;
    AllocIdOk(c, p, memory);
    FreeUnused(Grow(c, p, memory), p, AllocId(c, p, memory));
  }

  /** Nor does cap_copy; it reports ECAPBILITY if there is no such capability, and otherwise ENOMEM. */
  lemma CopyFails(c: Caps, src: nat, dst: nat, id: int, newRights: Option<nat>, memory: bool, slot: Option<nat>)
    requires Inv(c) && dst in c.sizes
    requires Find(c, src, id) == None || (slot == None && (memory || Room(c, dst)))
    ensures OnlyGrown(c, CapCopy(c, src, dst, id, newRights, memory, slot), dst)
    ensures Find(c, src, id) == None ==> CapCopy(c, src, dst, id, newRights, memory, slot) == c
    ensures CopyResult(c, src, dst, id, memory, slot) == if Find(c, src, id) == None then -11 else -3
  {
    hide Inv, Room, InTable, Find;
    AllocIdOk(c, dst, memory);
    FreeUnused(Grow(c, dst, memory), dst, AllocId(c, dst, memory));
  }

  // References.

  /** A slot gives access to its object, unless another type is asked for; without a slot there is no access. */
  lemma GotExactly(c: Caps, p: nat, id: int, kind: Option<nat>, s: nat)
    requires Inv(c)
    ensures s in c.slots && c.slots[s].place == Ref(p, id) ==>
              && c.slots[s].owner in c.objects
              && Got(c, p, id, kind) ==
                 if kind.Some? && kind.value != c.objects[c.slots[s].owner].kind then None else Some(c.slots[s].owner)
    ensures (forall x :: x in c.slots ==> c.slots[x].place != Ref(p, id)) ==> Got(c, p, id, kind) == None
  {
    FindExactly(c, p, id, s);
    if Find(c, p, id).Some? {
      FindExactly(c, p, id, Find(c, p, id).value);
    }
    if s in c.slots {
      OwnerAlive(c, s);
    }
    hide TableOk, SlotsOk, ListsOk, CountsOk, Find;
  }

  /** obj_get takes one reference, to what it found, and changes nothing else. */
  lemma GetMakes(c: Caps, p: nat, id: int, kind: Option<nat>)
    requires Inv(c)
    ensures var r, c' := Got(c, p, id, kind), ObjGet(c, p, id, kind);
            if r == None then c' == c
            else
              && r.value in c.objects && r.value in c.held && var x := c.objects[r.value];
              c' == c.(objects := c.objects[r.value := Object(x.kind, x.refcount + 1, x.copies, x.freed)],
                       held := c.held[r.value := c.held[r.value] + 1])
  {
    GotAlive(c, p, id, kind);
    hide TableOk, SlotsOk, ListsOk, Got;
  }

  /** obj_put undoes obj_get. */
  lemma PutUndoesGet(c: Caps, p: nat, id: int, kind: Option<nat>)
    requires Inv(c) && Got(c, p, id, kind).Some?
    ensures var o, c' := Got(c, p, id, kind).value, ObjGet(c, p, id, kind);
            o in c'.objects && o in c'.held && c'.held[o] > 0 && ObjPut(c', o) == c
  {
    GotAlive(c, p, id, kind);
    hide TableOk, SlotsOk, ListsOk, Got;
  }

  /** obj_put frees the object exactly if there is no slot for it and this was the last reference held. */
  lemma PutFreesLast(c: Caps, o: nat)
    requires Inv(c) && o in c.objects && o in c.held && c.held[o] > 0
    ensures var x, y := c.objects[o], ObjPut(c, o).objects[o];
            && y == x.(refcount := x.refcount - 1, freed := y.freed)
            && (y.freed <==> (forall s :: s in c.slots ==> c.slots[s].owner != o) && c.held[o] == 1)
  {
    hide TableOk;
    var q := c.objects[o].copies;
    if q != [] {
      assert q[0] in q;
      assert q[0] in c.slots && c.slots[q[0]].owner == o;
    }
  }

  /** obj_free takes every slot of the object away, and frees it exactly if nobody holds a reference. */
  lemma ObjFreeMakes(c: Caps, o: nat)
    requires Inv(c) && o in c.objects && o in c.held
    ensures var c' := ObjFree(c, o);
            && Cleared(c, c', o) && c'.held == c.held
            && c'.objects[o] == Object(c.objects[o].kind, c.held[o], [], c.held[o] == 0)
  {
    hide Inv, Cleared, FreeAll;
    if c.objects[o].refcount == 0 {
      NothingToFree(c, o);
    } else {
      FreeAllClears(c, o);
      SomethingToFree(c, o);
    }
  }

  lemma SomethingToFree(c: Caps, o: nat)
    requires Inv(c) && o in c.objects && c.objects[o].refcount != 0
    ensures o in c.held && !c.objects[o].freed && (c.held[o] == 0 ==> c.objects[o].copies != [])
  {
  }

  lemma NothingToFree(c: Caps, o: nat)
    requires Inv(c) && o in c.objects && c.objects[o].refcount == 0
    ensures o in c.held && c.held[o] == 0 && c.objects[o].copies == []
    ensures Cleared(c, c.(objects := c.objects[o := c.objects[o].(freed := true)]), o)
  {
  }

  /** A capability just allocated for a new object gives access to it as what it was allocated as, and nothing else. */
  lemma NewIsTyped(c: Caps, p: nat, o: nat, kind: nat, rights: nat, memory: bool, t: nat, asked: nat)
    requires Inv(c) && p in c.sizes && o !in c.objects && t !in c.slots && (memory || Room(c, p))
    ensures var c' := CapAlloc(ObjAlloc(c, Some(o), kind), p, o, rights, memory, Some(t));
            && Inv(c')
            && Got(c', p, AllocId(c, p, memory), Some(asked)) == if asked == kind then Some(o) else None
  {
    ObjAllocKeeps(c, Some(o), kind);
    var c1 := ObjAlloc(c, Some(o), kind);
    hide Inv, Room, AllocId, CapAlloc, Got;
    SameRoom(c, c1, p, memory);
    AllocMakes(c1, p, o, rights, memory, t);
    CapAllocKeeps(c1, p, o, rights, memory, Some(t));
    GotExactly(CapAlloc(c1, p, o, rights, memory, Some(t)), p, AllocId(c, p, memory), Some(asked), t);
  }

  lemma SameRoom(c: Caps, c1: Caps, p: nat, memory: bool)
    requires p in c.sizes && c1.sizes == c.sizes && c1.table == c.table
    ensures AllocId(c1, p, memory) == AllocId(c, p, memory) && (Room(c1, p) <==> Room(c, p))
  {
  }
}
