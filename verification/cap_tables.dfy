/**
  * The slot tables of all processes, as the id allocator keeps them, beside the capabilities that the kernel sees in
  * them.
  */
module CapTables {
  import opened Bitmaps
  import opened CapabilityModel
  import opened Capability
  import opened Sequences
  import opened SlotTables
  import opened Wrappers

  /** Table t of process p: its size, the ids in use and the slots are those of c, and the search for an id works. */
  ghost predicate Agrees(t: Table, c: Caps, p: nat) {
    && Shape(t) && FirstClear(t) && p in c.sizes && t.size == c.sizes[p]
    && (forall id: nat :: At(t.used, id) <==> Ref(p, id) in c.table)
    && forall id: nat :: id < t.size ==> t.slots[id] == Find(c, p, id)
  }

  /** The joint invariant. */
  ghost predicate Joint(ts: map<nat, Table>, c: Caps) {
    ts.Keys == c.sizes.Keys && forall p :: p in ts ==> Agrees(ts[p], c, p)
  }

  ghost predicate OnlyTable(ts: map<nat, Table>, ts': map<nat, Table>, p: nat) {
    && p in ts && ts'.Keys == ts.Keys && Shape(ts'[p])
    && forall q :: q in ts && q != p ==> ts'[q] == ts[q]
  }

  /** alloc_slot_id gave process p id r. */
  ghost predicate Took(ts: map<nat, Table>, ts': map<nat, Table>, p: nat, r: nat, stray: Word) {
    OnlyTable(ts, ts', p) && Allocated(ts[p], ts'[p], r, stray)
  }

  /** free_slot_id took id r of process p back. */
  ghost predicate Gave(ts: map<nat, Table>, ts': map<nat, Table>, p: nat, r: nat) {
    OnlyTable(ts, ts', p) && Released(ts[p], ts'[p], r)
  }

  /** install_slot. */
  function Installed(t: Table, id: nat, s: nat): Table {
    if id < |t.slots| then t.(slots := t.slots[id := Some(s)]) else t
  }

  /** The first k slots of q were given back, in order; tss are the tables after none, one, two, ... */
  ghost predicate GaveAll(tss: seq<map<nat, Table>>, c: Caps, q: seq<nat>) {
    && |tss| == |q| + 1
    && forall k :: 0 <= k < |q| ==>
         && q[k] in c.slots && c.slots[q[k]].place.id >= 0
         && Gave(tss[k], tss[k + 1], c.slots[q[k]].place.proc, c.slots[q[k]].place.id)
  }

  // What the bitmaps answer is what the capabilities expect.

  /** The answer of alloc_slot_id, as its bitmaps give it, is the id that the capability operations work with. */
  lemma IdAnswer(t: Table, c: Caps, p: nat, memory: bool, r: int)
    requires Inv(c) && Agrees(t, c, p)
    requires r >= 0 <==> memory || exists j: nat :: j < t.size && !At(t.used, j)
    requires if r >= 0 then Least(t.used, r) else r == -ENOMEM
    ensures r == AllocId(c, p, memory)
  {
    hide SlotsOk, ListsOk, CountsOk, Shape, FirstClear;
    var n := FirstFree(c.table, p, t.size, 0);
    assert Ref(p, t.size) !in c.table;
    assert !At(t.used, n);
    forall j: nat | j < n
      ensures At(t.used, j)
    {
      assert Ref(p, j) in c.table;
    }
  }

  lemma Alone(t: Table, c: Caps, c': Caps, p: nat)
    requires Agrees(t, c, p) && p in c'.sizes && c'.sizes[p] == c.sizes[p]
    requires forall id: int :: Ref(p, id) in c'.table <==> Ref(p, id) in c.table
    requires forall id: int :: Ref(p, id) in c.table ==> c'.table[Ref(p, id)] == c.table[Ref(p, id)]
    ensures Agrees(t, c', p)
  {
    hide FirstClear;
    forall id: nat | id < t.size
      ensures t.slots[id] == Find(c', p, id)
    {
      assert t.slots[id] == Find(c, p, id);
    }
  }

  /** The empty table of a new process agrees. */
  lemma InitJoint(ts: map<nat, Table>, c: Caps, p: nat, t: Table)
    requires Inv(c) && Joint(ts, c) && p !in c.sizes
    requires Shape(t) && t.size == BASE_OBJECT_NUM && FirstClear(t)
    requires (forall n: nat :: !At(t.used, n)) && forall id: nat :: id < t.size ==> t.slots[id] == None
    ensures Joint(ts[p := t], ProcessInit(c, p))
  {
    hide SlotsOk, ListsOk, CountsOk, Shape, FirstClear, Agrees;
    var c' := ProcessInit(c, p);
    forall q | q in ts
      ensures Agrees(ts[q], c', q)
    {
      Alone(ts[q], c, c', q);
    }
    NewAgrees(t, c, p);
  }

  lemma NewAgrees(t: Table, c: Caps, p: nat)
    requires Inv(c) && p !in c.sizes
    requires Shape(t) && t.size == BASE_OBJECT_NUM && FirstClear(t)
    requires (forall n: nat :: !At(t.used, n)) && forall id: nat :: id < t.size ==> t.slots[id] == None
    ensures Agrees(t, ProcessInit(c, p), p)
  {
    hide SlotsOk, ListsOk, CountsOk;
  }

  // Each use of the tables keeps the joint invariant.

  lemma TookSize(t: Table, t': Table, c: Caps, p: nat, memory: bool, stray: Word)
    requires Inv(c) && Agrees(t, c, p) && AllocId(c, p, memory) >= 0
    requires Shape(t') && Allocated(t, t', AllocId(c, p, memory), stray)
    ensures var r, c1 := AllocId(c, p, memory), Grow(c, p, memory);
            && c1 == c.(sizes := c.sizes[p := t'.size]) && r < t'.size && FirstClear(t')
            && (forall id: nat :: At(t'.used, id) <==> id == r || Ref(p, id) in c.table)
            && forall id: nat :: id < t'.size ==> t'.slots[id] == Find(c1, p, id)
  {
    hide SlotsOk, ListsOk, CountsOk;
    var c1 := Grow(c, p, memory);
    MarkKeepsFirst(t, t', AllocId(c, p, memory), stray);
    assert c1.sizes == c.sizes[p := t'.size];
    forall id: nat | id < t'.size
      ensures t'.slots[id] == Find(c1, p, id)
    {
      if id < t.size {
        assert t.slots[id] == Find(c, p, id);
      } else {
        assert Ref(p, id) !in c.table;
      }
    }
  }

  /** A new slot: allocate an id, install the slot. */
  lemma LinkJoint(ts: map<nat, Table>, ts': map<nat, Table>, c: Caps, p: nat, memory: bool, stray: Word, s: nat,
      x: Slot, i: nat)
    requires Inv(c) && Joint(ts, c) && p in c.sizes && AllocId(c, p, memory) >= 0
    requires Took(ts, ts', p, AllocId(c, p, memory), stray)
    requires x.place == Ref(p, AllocId(c, p, memory)) && MayLink(Grow(c, p, memory), s, x, i)
    ensures Joint(ts'[p := Installed(ts'[p], AllocId(c, p, memory), s)], Link(Grow(c, p, memory), s, x, i))
  {
    hide SlotsOk, ListsOk, CountsOk, AllocId, Grow, Allocated, FirstFree, InsertAt;
    var r, c1, t' := AllocId(c, p, memory), Grow(c, p, memory), ts'[p];
    TookSize(ts[p], t', c, p, memory, stray);
    var c2, t2 := Link(c1, s, x, i), Installed(t', r, s);
    forall q | q in ts && q != p
      ensures Agrees(ts[q], c2, q)
    {
      Alone(ts[q], c, c2, q);
    }
    LinkAgrees(t', c, c1, c2, p, r, s);
  }

  lemma LinkAgrees(t: Table, c: Caps, c1: Caps, c2: Caps, p: nat, r: nat, s: nat)
    requires Shape(t) && FirstClear(t) && r < t.size && c1.table == c.table
    requires p in c1.sizes && c1.sizes[p] == t.size && c2.sizes == c1.sizes && c2.table == c.table[Ref(p, r) := s]
    requires forall id: nat :: At(t.used, id) <==> id == r || Ref(p, id) in c.table
    requires forall id: nat :: id < t.size ==> t.slots[id] == Find(c1, p, id)
    ensures Agrees(Installed(t, r, s), c2, p)
  {
    hide At;
    var t2 := Installed(t, r, s);
    forall id: nat | id < t2.size
      ensures t2.slots[id] == Find(c2, p, id)
    {
      assert id != r ==> t.slots[id] == Find(c1, p, id);
    }
  }

  /** No memory for the slot: the id just allocated is given back, and the table may have grown. */
  lemma UnusedJoint(ts: map<nat, Table>, t1: map<nat, Table>, ts': map<nat, Table>, c: Caps, p: nat, memory: bool,
      stray: Word)
    requires Inv(c) && Joint(ts, c) && p in c.sizes && AllocId(c, p, memory) >= 0
    requires Took(ts, t1, p, AllocId(c, p, memory), stray) && Gave(t1, ts', p, AllocId(c, p, memory))
    ensures Joint(ts', FreeSlotId(Grow(c, p, memory), p, AllocId(c, p, memory)))
  {
    hide Inv, AllocId, Grow, Allocated, Released, FirstFree, InTable, Room, Shape, FirstClear;
    var r, c1 := AllocId(c, p, memory), Grow(c, p, memory);
    TookSize(ts[p], t1[p], c, p, memory, stray);
    AllocIdOk(c, p, memory);
    FreeUnused(c1, p, r);
    forall q | q in ts && q != p
      ensures Agrees(ts[q], c1, q)
    {
      Alone(ts[q], c, c1, q);
    }
    UnusedAgrees(t1[p], ts'[p], c1, p, r);
  }

  lemma UnusedAgrees(t: Table, t': Table, c: Caps, p: nat, r: nat)
    requires Shape(t) && FirstClear(t) && Shape(t') && Released(t, t', r) && Ref(p, r) !in c.table
    requires p in c.sizes && c.sizes[p] == t.size
    requires forall id: nat :: At(t.used, id) <==> id == r || Ref(p, id) in c.table
    requires forall id: nat :: id < t.size ==> t.slots[id] == Find(c, p, id)
    ensures Agrees(t', c, p)
  {
    assert !At(t.full, 0) ==> !At(t'.full, 0);
    assert t.slots[r] == Find(c, p, r);
  }

  /** A slot less: give its id back. */
  lemma UnlinkJoint(ts: map<nat, Table>, ts': map<nat, Table>, c: Caps, s: nat)
    requires Inv(c) && Joint(ts, c) && s in c.slots && c.slots[s].place.id >= 0
    requires Gave(ts, ts', c.slots[s].place.proc, c.slots[s].place.id)
    ensures Joint(ts', Unlink(c, s))
  {
    hide SlotsOk, ListsOk, CountsOk, TableOk, Released, FirstClear, Shape, InTable, Agrees;
    UnlinkedPlace(c, s);
    var r, c' := c.slots[s].place, Unlink(c, s);
    forall q | q in ts && q != r.proc
      ensures Agrees(ts[q], c', q)
    {
      Alone(ts[q], c, c', q);
    }
    UnlinkAgrees(ts[r.proc], ts'[r.proc], c, c', r);
  }

  lemma UnlinkedPlace(c: Caps, s: nat)
    requires Inv(c) && s in c.slots
    ensures c.slots[s].owner in c.objects && c.slots[s].place in c.table && InTable(c, c.slots[s].place)
    ensures var c' := Unlink(c, s);
            c'.sizes == c.sizes && c'.table == c.table - {c.slots[s].place}
  {
  }

  lemma UnlinkAgrees(t: Table, t': Table, c: Caps, c': Caps, r: Ref)
    requires r.id >= 0 && Agrees(t, c, r.proc) && Shape(t') && Released(t, t', r.id)
    requires c'.sizes == c.sizes && c'.table == c.table - {r}
    ensures Agrees(t', c', r.proc)
  {
    assert !At(t.full, 0) ==> !At(t'.full, 0);
    forall id: nat | id < t'.size
      ensures t'.slots[id] == Find(c', r.proc, id)
    {
      assert t.slots[id] == Find(c, r.proc, id);
    }
  }

  /** Freeing a list of slots, one after the other. */
  lemma {:induction false} FreeAllJoint(tss: seq<map<nat, Table>>, c: Caps, o: nat)
    requires Inv(c) && o in c.objects && |tss| > 0 && Joint(tss[0], c) && GaveAll(tss, c, c.objects[o].copies)
    ensures Joint(tss[|tss| - 1], FreeAll(c, c.objects[o].copies))
    decreases |tss|
  {
    hide Inv, Joint, Unlink, Gave, CapFree, FreeAll, GaveAll;
    var q := c.objects[o].copies;
    if q != [] {
      FirstGave(tss, c, o);
      FreeAllJoint(tss[1..], Unlink(c, q[0]), o);
    } else {
      NoneGave(tss, c);
    }
  }

  lemma NoneGave(tss: seq<map<nat, Table>>, c: Caps)
    requires Inv(c) && GaveAll(tss, c, [])
    ensures |tss| == 1 && FreeAll(c, []) == c
  {
  }

  lemma FirstGave(tss: seq<map<nat, Table>>, c: Caps, o: nat)
    requires Inv(c) && o in c.objects && c.objects[o].copies != [] && |tss| > 0
    requires Joint(tss[0], c) && GaveAll(tss, c, c.objects[o].copies)
    ensures var q := c.objects[o].copies;
            && |tss| > 1 && q[0] in c.slots && c.slots[q[0]].owner == o && var c' := Unlink(c, q[0]);
               && Inv(c') && o in c'.objects && c'.objects[o].copies == q[1..] && Joint(tss[1], c')
               && GaveAll(tss[1..], c', q[1..]) && FreeAll(c, q) == FreeAll(c', q[1..])
  {
    hide SlotsOk, CountsOk, TableOk, Joint, Unlink, Gave, CapFree;
    var q := c.objects[o].copies;
    HeadUnlinked(c, o);
    UnlinkKeeps(c, q[0]);
    UnlinkJoint(tss[0], tss[1], c, q[0]);
    UnlinkedSlots(c, q[0]);
    RestGave(tss, c, q, Unlink(c, q[0]));
  }

  lemma UnlinkedSlots(c: Caps, s: nat)
    requires s in c.slots && c.slots[s].owner in c.objects
    ensures Unlink(c, s).slots == c.slots - {s}
  {
  }

  lemma RestGave(tss: seq<map<nat, Table>>, c: Caps, q: seq<nat>, c': Caps)
    requires GaveAll(tss, c, q) && q != [] && c'.slots == c.slots - {q[0]}
    requires forall k :: 0 < k < |q| ==> q[k] != q[0]
    ensures GaveAll(tss[1..], c', q[1..])
  {
    hide Gave;
    var ts, p := tss[1..], q[1..];
    forall k | 0 <= k < |p|
      ensures && p[k] in c'.slots && c'.slots[p[k]].place.id >= 0
              && Gave(ts[k], ts[k + 1], c'.slots[p[k]].place.proc, c'.slots[p[k]].place.id)
    {
      assert p[k] == q[k + 1] && ts[k] == tss[k + 1] && ts[k + 1] == tss[k + 2];
    }
  }

  // Whole operations.

  lemma SameTables(ts: map<nat, Table>, c: Caps, c': Caps)
    requires Joint(ts, c) && c'.table == c.table && c'.sizes == c.sizes
    ensures Joint(ts, c')
  {
    forall p | p in ts
      ensures Agrees(ts[p], c', p)
    {
      Alone(ts[p], c, c', p);
    }
  }

  /** cap_copy: the id and the slot it stores in the table of dst are those of the copy. */
  lemma CopyJoint(ts: map<nat, Table>, ts': map<nat, Table>, c: Caps, src: nat, dst: nat, id: int,
      newRights: Option<nat>,
                  memory: bool, slot: nat, stray: Word)
    requires Inv(c) && Joint(ts, c) && dst in c.sizes && slot !in c.slots && Find(c, src, id).Some?
    requires memory || Room(c, dst)
    ensures var r := AllocId(c, dst, memory);
            r >= 0 && (Took(ts, ts', dst, r, stray) ==>
              Joint(ts'[dst := Installed(ts'[dst], r, slot)], CapCopy(c, src, dst, id, newRights, memory, Some(slot))))
  {
    hide Inv, Joint, Took, Link, Grow, InTable, Find, MayLink, Room, AllocId, Behind, CapCopy, Installed;
    CopyIsLink(c, src, dst, id, newRights, memory, slot);
    var s, r := Find(c, src, id).value, AllocId(c, dst, memory);
    if Took(ts, ts', dst, r, stray) {
      LinkJoint(ts, ts', c, dst, memory, stray, slot, CopyOf(c, s, Ref(dst, r), newRights), Behind(c, s));
    }
  }

  /**
    * cap_revoke: giving back the ids of the object's slots, in whatever processes, leaves the tables of the revoked
    * state.
    */
  lemma RevokeJoint(tss: seq<map<nat, Table>>, c: Caps, proc: nat, id: int)
    requires Inv(c) && Got(c, proc, id, None).Some? && |tss| > 0 && Joint(tss[0], c)
    requires Got(c, proc, id, None).value in c.objects
    requires GaveAll(tss, c, c.objects[Got(c, proc, id, None).value].copies)
    ensures Joint(tss[|tss| - 1], CapRevoke(c, proc, id))
  {
    GotAlive(c, proc, id, None);
    hide Inv, Joint, Revoked, Got, GaveAll;
    RevokedJoint(tss, c, Got(c, proc, id, None).value);
  }

  lemma RevokedJoint(tss: seq<map<nat, Table>>, c: Caps, o: nat)
    requires Inv(c) && o in c.objects && !c.objects[o].freed && |tss| > 0 && Joint(tss[0], c)
    requires GaveAll(tss, c, c.objects[o].copies)
    ensures Joint(tss[|tss| - 1], Revoked(c, o))
  {
    hide *;
    RevokedTables(c, o);
    var c1 := Taken(c, o);
    SameTables(tss[0], c, c1);
    SameGaveAll(tss, c, c1, c.objects[o].copies);
    FreeAllJoint(tss, c1, o);
    SameTables(tss[|tss| - 1], FreeAll(c1, c.objects[o].copies), Revoked(c, o));
  }

  lemma SameGaveAll(tss: seq<map<nat, Table>>, c: Caps, c': Caps, q: seq<nat>)
    requires GaveAll(tss, c, q) && c'.slots == c.slots
    ensures GaveAll(tss, c', q)
  {
    hide Gave;
  }

  /** The temporary reference changes no table. */
  lemma RevokedTables(c: Caps, o: nat)
    requires Inv(c) && o in c.objects && !c.objects[o].freed
    ensures o in c.held && var c1, q := Taken(c, o), c.objects[o].copies;
            && Inv(c1) && o in c1.objects && c1.table == c.table && c1.sizes == c.sizes && c1.slots == c.slots
            && c1.objects[o].copies == q && FreeAll(c1, q).table == Revoked(c, o).table
            && FreeAll(c1, q).sizes == Revoked(c, o).sizes
  {
    hide TableOk, SlotsOk, ListsOk, CountsOk, FreeAll, Cleared, Bare, Taken;
    HeldOk(c, o);
    ReferenceKeeps(c, o);
    TakenIs(c, o);
    FreeAllClears(Taken(c, o), o);
  }

  lemma HeldOk(c: Caps, o: nat)
    requires Inv(c) && o in c.objects
    ensures o in c.held && c.objects[o].refcount >= 0
  {
    hide TableOk, SlotsOk, ListsOk;
  }

  lemma TakenIs(c: Caps, o: nat)
    requires o in c.objects && o in c.held && c.objects[o].refcount >= 0
    ensures var c1 := Taken(c, o);
            && o in c1.objects && o in c1.held && c1.held[o] > 0 && c1.objects[o].refcount != 0
            && c1.objects[o].copies == c.objects[o].copies
            && c1.table == c.table && c1.sizes == c.sizes && c1.slots == c.slots
  {
  }

  // Runs.

  /** What the capability operations call of the slot tables; `id` is the id answered or given. */
  datatype Call =
    | InitTable(proc: nat)
    | AllocSlot(proc: nat, id: int)
    | FreeSlot(proc: nat, id: int)
    | InstallSlot(proc: nat, id: int, slot: nat)

  ghost predicate NewTable(t: Table) {
    && Shape(t) && t.size == BASE_OBJECT_NUM && FirstClear(t)
    && (forall n: nat :: !At(t.used, n)) && forall id: nat :: id < t.size ==> t.slots[id] == None
  }

  /** The call is done from ts to ts'; alloc_slot_id may read any stray word. */
  ghost predicate Done(ts: map<nat, Table>, a: Call, ts': map<nat, Table>) {
    match a
    case InitTable(p) => p in ts' && NewTable(ts'[p]) && ts' == ts[p := ts'[p]]
    case AllocSlot(p, id) => id >= 0 && exists stray :: Took(ts, ts', p, id, stray)
    case FreeSlot(p, id) => id >= 0 && Gave(ts, ts', p, id)
    case InstallSlot(p, id, s) => id >= 0 && p in ts && ts' == ts[p := Installed(ts[p], id, s)]
  }

  /** tss are the tables before, between and after the calls. */
  ghost predicate Trace(tss: seq<map<nat, Table>>, calls: seq<Call>) {
    |tss| == |calls| + 1 && forall k :: 0 <= k < |calls| ==> Done(tss[k], calls[k], tss[k + 1])
  }

  /** Allocate an id and install the slot, or give the id back if there is no memory for a slot. */
  function NewSlot(c: Caps, p: nat, memory: bool, slot: Option<nat>): seq<Call>
    requires p in c.sizes
  {
    var id := AllocId(c, p, memory);
    if id < 0 then [] else [AllocSlot(p, id), if slot == None then FreeSlot(p, id) else InstallSlot(p, id, slot.value)]
  }

  /** Give back the ids of the slots of q, in order. */
  function Gives(c: Caps, q: seq<nat>): seq<Call>
    requires forall s :: s in q ==> s in c.slots
  {
    seq(|q|, k requires 0 <= k < |q| => var r := c.slots[q[k]].place; FreeSlot(r.proc, r.id))
  }

  /** The calls of an operation, in order. */
  function Calls(c: Caps, op: Capability.Op): seq<Call>
    requires Inv(c) && Enabled(c, op)
  {
    match op
    case Process(p) => [InitTable(p)]
    case Grant(p, _, _, memory, slot) => NewSlot(c, p, memory, slot)
    case Free(p, id) => if Find(c, p, id) == None then [] else [FreeSlot(p, id)]
    case Copy(src, dst, id, _, memory, slot) => if Find(c, src, id) == None then [] else NewSlot(c, dst, memory, slot)
    case Move(src, dst, id, _, memory, slot) =>
      if Find(c, src, id) == None then []
      else if slot == None then NewSlot(c, dst, memory, slot)
      else NewSlot(c, dst, memory, slot) + [FreeSlot(src, id)]
    case FreeObject(o) => if c.objects[o].refcount == 0 then [] else Gives(c, c.objects[o].copies)
    case Revoke(p, id) =>
      var o := Got(c, p, id, None);
      if o == None then [] else Gives(c, c.objects[o.value].copies)
    case _ => []
  }

  lemma GivesGaveAll(tss: seq<map<nat, Table>>, c: Caps, o: nat)
    requires Inv(c) && o in c.objects
    requires (forall s :: s in c.objects[o].copies ==> s in c.slots) && Trace(tss, Gives(c, c.objects[o].copies))
    ensures GaveAll(tss, c, c.objects[o].copies)
  {
    hide Inv, Gave;
    var q := c.objects[o].copies;
    forall k | 0 <= k < |q|
      ensures && q[k] in c.slots && c.slots[q[k]].place.id >= 0
              && Gave(tss[k], tss[k + 1], c.slots[q[k]].place.proc, c.slots[q[k]].place.id)
    {
      assert Done(tss[k], Gives(c, q)[k], tss[k + 1]);
    }
  }

  lemma NewSlotTrace(tss: seq<map<nat, Table>>, c: Caps, p: nat, memory: bool, slot: Option<nat>)
    returns (stray: Word)
    requires p in c.sizes && AllocId(c, p, memory) >= 0 && Trace(tss, NewSlot(c, p, memory, slot))
    ensures var id := AllocId(c, p, memory);
            && |tss| == 3 && p in tss[1] && Took(tss[0], tss[1], p, id, stray)
            && (slot == None ==> Gave(tss[1], tss[2], p, id))
            && (slot.Some? ==> tss[2] == tss[1][p := Installed(tss[1][p], id, slot.value)])
  {
    hide Allocated, Released, Installed, AllocId, Shape;
    var id, calls := AllocId(c, p, memory), NewSlot(c, p, memory, slot);
    assert Done(tss[0], calls[0], tss[1]);
    assert Done(tss[1], calls[1], tss[2]);
    stray :| Took(tss[0], tss[1], p, id, stray);
  }

  lemma NoSlotTrace(tss: seq<map<nat, Table>>, c: Caps, p: nat, memory: bool, slot: Option<nat>)
    requires p in c.sizes && AllocId(c, p, memory) < 0 && Trace(tss, NewSlot(c, p, memory, slot))
    ensures |tss| == 1
  {
  }

  lemma GrantJoint(tss: seq<map<nat, Table>>, c: Caps, p: nat, o: nat, rights: nat, memory: bool, slot: Option<nat>)
    requires Inv(c) && Enabled(c, Grant(p, o, rights, memory, slot))
    requires Trace(tss, NewSlot(c, p, memory, slot)) && Joint(tss[0], c)
    ensures Joint(tss[|tss| - 1], CapAlloc(c, p, o, rights, memory, slot))
  {
    hide Inv, Joint, Trace, NewSlot, Took, Gave, AllocId, Grow, Link, Room, InTable, Installed;
    AllocIdOk(c, p, memory);
    var id := AllocId(c, p, memory);
    if id < 0 {
      NoSlotTrace(tss, c, p, memory, slot);
    } else {
      var stray := NewSlotTrace(tss, c, p, memory, slot);
      if slot == None {
        UnusedJoint(tss[0], tss[1], tss[2], c, p, memory, stray);
      } else {
        GrowOnly(c, p, memory);
        LinkJoint(tss[0], tss[1], c, p, memory, stray, slot.value, Slot(Ref(p, id), rights, o), 0);
      }
    }
  }

  lemma GrowOnly(c: Caps, p: nat, memory: bool)
    requires p in c.sizes
    ensures var c1 := Grow(c, p, memory);
            c1 == c.(sizes := c1.sizes)
  {
  }

  lemma CopyCallsJoint(tss: seq<map<nat, Table>>, c: Caps, src: nat, dst: nat, id: int, newRights: Option<nat>,
      memory: bool, slot: Option<nat>)
    requires Inv(c) && CopyEnabled(c, src, dst, id, memory, slot) && Find(c, src, id).Some?
    requires Trace(tss, NewSlot(c, dst, memory, slot)) && Joint(tss[0], c)
    ensures Joint(tss[|tss| - 1], CapCopy(c, src, dst, id, newRights, memory, slot))
  {
    hide Inv, Joint, Trace, NewSlot, Took, Gave, AllocId, Grow, Link, Room, InTable, Installed, Find, Behind, CopyOf;
    AllocIdOk(c, dst, memory);
    var stray := NewSlotTrace(tss, c, dst, memory, slot);
    if slot == None {
      UnusedJoint(tss[0], tss[1], tss[2], c, dst, memory, stray);
    } else {
      CopyJoint(tss[0], tss[1], c, src, dst, id, newRights, memory, slot.value, stray);
    }
  }

  lemma FreeJoint(ts: map<nat, Table>, ts': map<nat, Table>, c: Caps, p: nat, id: int)
    requires Inv(c) && Joint(ts, c) && Find(c, p, id).Some? && Done(ts, FreeSlot(p, id), ts')
    ensures Joint(ts', CapFree(c, p, id))
  {
    FoundAlive(c, p, id);
    hide Inv, Joint, Gave, Find, Unlink;
    UnlinkJoint(ts, ts', c, Find(c, p, id).value);
  }

  lemma MoveJoint(tss: seq<map<nat, Table>>, c: Caps, src: nat, dst: nat, id: int, newRights: Option<nat>,
      memory: bool, slot: nat)
    requires Inv(c) && CopyEnabled(c, src, dst, id, memory, Some(slot)) && Find(c, src, id).Some?
    requires Trace(tss, NewSlot(c, dst, memory, Some(slot)) + [FreeSlot(src, id)]) && Joint(tss[0], c)
    ensures Joint(tss[|tss| - 1], CapMove(c, src, dst, id, newRights, memory, Some(slot)))
  {
    hide Inv, Joint, Done, AllocId, Grow, Link, Room, InTable, Find, CapCopy, CapFree, CopyResult, Behind, MayLink;
    CopyIsLink(c, src, dst, id, newRights, memory, slot);
    CopyResultOk(c, src, dst, id, memory, Some(slot));
    var n, c1 := |tss| - 1, CapCopy(c, src, dst, id, newRights, memory, Some(slot));
    TraceLast(tss, NewSlot(c, dst, memory, Some(slot)), FreeSlot(src, id));
    CopyCallsJoint(tss[..n], c, src, dst, id, newRights, memory, Some(slot));
    var s, r := Find(c, src, id).value, Ref(dst, AllocId(c, dst, memory));
    SourceStays(c, Grow(c, dst, memory), src, id, slot, CopyOf(c, s, r, newRights), Behind(c, s));
    FreeJoint(tss[n - 1], tss[n], c1, src, id);
  }

  lemma TraceLast(tss: seq<map<nat, Table>>, calls: seq<Call>, a: Call)
    requires Trace(tss, calls + [a])
    ensures |tss| >= 2 && Trace(tss[..|tss| - 1], calls) && Done(tss[|tss| - 2], a, tss[|tss| - 1])
  {
    hide Done;
    var all := calls + [a];
    assert forall k :: 0 <= k < |calls| ==> all[k] == calls[k];
    assert all[|calls|] == a;
  }

  lemma FreeOpJoint(tss: seq<map<nat, Table>>, c: Caps, p: nat, id: int)
    requires Inv(c) && Trace(tss, Calls(c, Capability.Free(p, id))) && Joint(tss[0], c)
    ensures Joint(tss[|tss| - 1], CapFree(c, p, id))
  {
    hide Inv, Joint, Done, Unlink;
    if Find(c, p, id).Some? {
      assert Done(tss[0], Calls(c, Capability.Free(p, id))[0], tss[1]);
      FreeJoint(tss[0], tss[1], c, p, id);
    }
  }

  lemma ObjFreeJoint(tss: seq<map<nat, Table>>, c: Caps, o: nat)
    requires Inv(c) && Enabled(c, FreeObject(o)) && Trace(tss, Calls(c, FreeObject(o))) && Joint(tss[0], c)
    ensures Joint(tss[|tss| - 1], ObjFree(c, o))
  {
    hide Joint, Done, FreeAll, Gives;
    if c.objects[o].refcount == 0 {
      SameTables(tss[0], c, ObjFree(c, o));
    } else {
      GivesGaveAll(tss, c, o);
      FreeAllJoint(tss, c, o);
    }
  }

  lemma RevokeOpJoint(tss: seq<map<nat, Table>>, c: Caps, p: nat, id: int)
    requires Inv(c) && Trace(tss, Calls(c, Revoke(p, id))) && Joint(tss[0], c)
    ensures Joint(tss[|tss| - 1], CapRevoke(c, p, id))
  {
    hide Joint, Done, Gives, Revoked;
    if Got(c, p, id, None).Some? {
      GivesGaveAll(tss, c, Got(c, p, id, None).value);
      RevokeJoint(tss, c, p, id);
    }
  }

  lemma StartJoint(ts: map<nat, Table>, ts': map<nat, Table>, c: Caps, p: nat)
    requires Inv(c) && Joint(ts, c) && p !in c.sizes && Done(ts, InitTable(p), ts')
    ensures Joint(ts', ProcessInit(c, p))
  {
    hide Inv, Joint;
    InitJoint(ts, c, p, ts'[p]);
  }

  lemma CopyOpJoint(tss: seq<map<nat, Table>>, c: Caps, src: nat, dst: nat, id: int, newRights: Option<nat>,
      memory: bool, slot: Option<nat>)
    requires Inv(c) && CopyEnabled(c, src, dst, id, memory, slot)
    requires Trace(tss, Calls(c, Copy(src, dst, id, newRights, memory, slot))) && Joint(tss[0], c)
    ensures Joint(tss[|tss| - 1], CapCopy(c, src, dst, id, newRights, memory, slot))
  {
    hide Inv, Joint, NewSlot, Done, Room;
    if Find(c, src, id).Some? {
      CopyCallsJoint(tss, c, src, dst, id, newRights, memory, slot);
    }
  }

  lemma MoveOpJoint(tss: seq<map<nat, Table>>, c: Caps, src: nat, dst: nat, id: int, newRights: Option<nat>,
      memory: bool, slot: Option<nat>)
    requires Inv(c) && CopyEnabled(c, src, dst, id, memory, slot)
    requires Trace(tss, Calls(c, Move(src, dst, id, newRights, memory, slot))) && Joint(tss[0], c)
    ensures Joint(tss[|tss| - 1], CapMove(c, src, dst, id, newRights, memory, slot))
  {
    hide Inv, Joint, NewSlot, Done, Room;
    if Find(c, src, id).Some? && slot.Some? {
      MoveJoint(tss, c, src, dst, id, newRights, memory, slot.value);
    } else {
      CopyResultOk(c, src, dst, id, memory, slot);
      CopyOpJoint(tss, c, src, dst, id, newRights, memory, slot);
    }
  }

  /** Every operation, whether it succeeds or fails, keeps all slot tables in agreement with the capabilities. */
  lemma OpJoint(tss: seq<map<nat, Table>>, c: Caps, op: Capability.Op)
    requires Inv(c) && Enabled(c, op) && Trace(tss, Calls(c, op)) && Joint(tss[0], c)
    ensures Joint(tss[|tss| - 1], Step(c, op))
  {
    hide Inv, Joint, Done, NewSlot, Gives, CapAlloc, CapFree, CapCopy, CapMove, ObjFree, CapRevoke;
    match op
    case Process(p) =>
      assert Done(tss[0], InitTable(p), tss[1]);
      StartJoint(tss[0], tss[1], c, p);
    case Grant(p, o, rights, memory, slot) => GrantJoint(tss, c, p, o, rights, memory, slot);
    case Free(p, id) => FreeOpJoint(tss, c, p, id);
    case Copy(src, dst, id, newRights, memory, slot) => CopyOpJoint(tss, c, src, dst, id, newRights, memory, slot);
    case Move(src, dst, id, newRights, memory, slot) => MoveOpJoint(tss, c, src, dst, id, newRights, memory, slot);
    case FreeObject(o) => ObjFreeJoint(tss, c, o);
    case Revoke(p, id) => RevokeOpJoint(tss, c, p, id);
    case New(o, kind) => SameTables(tss[0], c, ObjAlloc(c, o, kind));
    case Get(p, id, kind) => SameTables(tss[0], c, ObjGet(c, p, id, kind));
    case Put(o) => SameTables(tss[0], c, ObjPut(c, o));
  }

  /** The calls of a run. */
  ghost function RunCalls(c: Caps, ops: seq<Capability.Op>): seq<Call>
    requires Inv(c) && Runs(c, ops)
    decreases |ops|
  {
    if ops == [] then []
    else
      StepKeeps(c, ops[0]);
      Calls(c, ops[0]) + RunCalls(Step(c, ops[0]), ops[1..])
  }

  lemma TraceSplit(tss: seq<map<nat, Table>>, a: seq<Call>, b: seq<Call>)
    requires Trace(tss, a + b)
    ensures |tss| == |a| + |b| + 1 && Trace(tss[..|a| + 1], a) && Trace(tss[|a|..], b)
  {
    hide Done;
    var all := a + b;
    assert forall k :: 0 <= k < |a| ==> all[k] == a[k];
    forall k | 0 <= k < |b|
      ensures Done(tss[|a|..][k], b[k], tss[|a|..][k + 1])
    {
      assert all[|a| + k] == b[k] && Done(tss[|a| + k], all[|a| + k], tss[|a| + k + 1]);
    }
  }

  /** After every run of operations the slot tables, bitmaps included, agree with the capabilities. */
  lemma {:induction false} RunJoint(tss: seq<map<nat, Table>>, c: Caps, ops: seq<Capability.Op>)
    requires Inv(c) && Runs(c, ops) && Trace(tss, RunCalls(c, ops)) && Joint(tss[0], c)
    ensures Joint(tss[|tss| - 1], After(c, ops))
    decreases |ops|
  {
    hide Inv, Joint, Trace, Enabled, Step, Calls;
    OneMore(tss, RunCalls(c, ops));
    if ops != [] {
      StepKeeps(c, ops[0]);
      var c1, n := Step(c, ops[0]), |Calls(c, ops[0])|;
      TraceSplit(tss, Calls(c, ops[0]), RunCalls(c1, ops[1..]));
      OpJoint(tss[..n + 1], c, ops[0]);
      RunJoint(tss[n..], c1, ops[1..]);
    }
  }

  lemma OneMore(tss: seq<map<nat, Table>>, calls: seq<Call>)
    requires Trace(tss, calls)
    ensures |tss| == |calls| + 1
  {
  }
}
