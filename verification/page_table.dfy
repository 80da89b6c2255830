/** The four-level translation tables: walk, map and unmap over physical memory. */
module PageTable {
  import opened Wrappers
  import opened Pow2
  import opened Bits
  import opened PageTableModel

  const PAGE_SIZE: nat := 0x1000
  const ENOMAPPING: int := 14
  const NORMAL_PTP: int := 0
  const BLOCK_PTP: int := 1
  const USER_PTE: int := 0
  /** No value of the source, which stops when it finds no page for a new table. */
  const STOPPED: int := -1000

  /** What a last-level descriptor says about its page: its frame, and what code at EL0 may do with it. */
  datatype Mapping = Mapping(pfn: nat, readable: bool, writable: bool, executable: bool)

  /** Bit 6 opens the page to EL0, bit 7 makes it read-only, and bit 54 forbids EL0 to execute it. */
  function View(w: nat): Mapping {
    Mapping(Field(w, 12, 36), Field(w, 6, 1) == 1, Field(w, 6, 1) == 1 && Field(w, 7, 1) == 0, Field(w, 54, 1) == 0)
  }

  predicate Writable(flags: nat) { Bit(flags, 1) }
  predicate Executable(flags: nat) { Bit(flags, 2) }
  function AccessBits(flags: nat): nat { if Writable(flags) then 1 else 3 }
  function NeverBit(flags: nat): nat { if Executable(flags) then 0 else 1 }

  function SetPteFlags(w: nat, flags: nat, kind: int): nat {
    var w := SetField(w, 6, 2, AccessBits(flags));
    var w := SetField(w, 54, 1, NeverBit(flags));
    var w := if kind == USER_PTE then SetField(w, 53, 1, 1) else w;
    var w := SetField(w, 10, 1, 1);
    var w := SetField(w, 8, 2, 3);
    SetField(w, 2, 3, 4)
  }

  /** The descriptor that mapping a page leaves in its entry. */
  function LeafWord(w: nat, flags: nat, pa: nat): nat {
    SetField(SetPteFlags(w, flags, USER_PTE), 12, 36, pa / PAGE_SIZE)
  }

  /** A user page descriptor: accessed, inner shareable, normal memory, never executed by the kernel. */
  predicate UserPage(w: nat) {
    && IsValid(w) && IsTable(w)
    && Field(w, 2, 3) == 4 && Field(w, 8, 2) == 3 && Field(w, 10, 1) == 1 && Field(w, 53, 1) == 1
  }

  /**
   * w is a user page descriptor for the frame of pa, which EL0 may read, may write exactly if VMR_WRITE (2) is
   * among the flags, and may execute exactly if VMR_EXEC (4) is.
   */
  predicate Maps(w: nat, pa: nat, flags: nat) {
    UserPage(w) && View(w) == Mapping(Field(pa, 12, 36), true, flags / 2 % 2 == 1, flags / 4 % 2 == 1)
  }

  lemma SmallFields()
    ensures Field(1, 0, 2) == 1 && Field(3, 0, 2) == 3 && Field(1, 0, 1) == 1 && Field(0, 0, 1) == 0
            && Field(4, 0, 3) == 4
  {
  }

  /** w without its n low bits. */
  function Shifted(w: nat, n: nat): nat {
    if n == 0 then w else Shifted(w / 2, n - 1)
  }

  lemma {:induction false} FieldOfShift(w: nat, lo: nat, len: nat)
    ensures Field(Shifted(w, lo), 0, len) == Field(w, lo, len)
  {
    if lo == 0 {
    } else {
      FieldOfShift(w / 2, lo - 1, len);
    }
  }

  lemma ShiftFour(w: nat, n: nat)
    requires n >= 4
    ensures Shifted(w, n) == Shifted(w / 16, n - 4)
  {
    assert Shifted(w, n) == Shifted(w / 2, n - 1) == Shifted(w / 4, n - 2);
    assert Shifted(w / 4, n - 2) == Shifted(w / 8, n - 3) == Shifted(w / 16, n - 4);
  }

  lemma ShiftNone(w: nat)
    ensures Shifted(w, 0) == w
  {
  }

  lemma FrameField(pa: nat)
    ensures Field(pa / PAGE_SIZE, 0, 36) == Field(pa, 12, 36)
  {
    hide Field, Shifted;
    FieldOfShift(pa, 12, 36);
    ShiftFour(pa, 12);
    ShiftFour(pa / 16, 8);
    ShiftFour(pa / 256, 4);
    ShiftNone(pa / PAGE_SIZE);
  }

  /** Each flag store leaves the other fields of the descriptor alone. */
  lemma FlagFields(w: nat, flags: nat)
    ensures var r := SetPteFlags(w, flags, USER_PTE);
            && Field(r, 6, 1) == 1 && (Field(r, 7, 1) == 0 <==> flags / 2 % 2 == 1)
            && (Field(r, 54, 1) == 0 <==> flags / 4 % 2 == 1)
            && Field(r, 53, 1) == 1 && Field(r, 10, 1) == 1 && Field(r, 8, 2) == 3 && Field(r, 2, 3) == 4
            && Field(r, 0, 1) == Field(w, 0, 1) && Field(r, 1, 1) == Field(w, 1, 1)
  {
    SmallFields();
    hide Field, SetField, Writable, Executable;
    var a := SetField(w, 6, 2, AccessBits(flags));
    var b := SetField(a, 54, 1, NeverBit(flags));
    var c := SetField(b, 53, 1, 1);
    var d := SetField(c, 10, 1, 1);
    var e := SetField(d, 8, 2, 3);
    GetSet(w, 6, 2, AccessBits(flags));
    GetSet(a, 54, 1, NeverBit(flags));
    GetSet(b, 53, 1, 1);
    GetSet(c, 10, 1, 1);
    GetSet(d, 8, 2, 3);
    GetSet(e, 2, 3, 4);
    GetOther(e, 2, 3, 4, 8, 2);
    GetOther(d, 8, 2, 3, 10, 1);
    GetOther(e, 2, 3, 4, 10, 1);
    GetOther(c, 10, 1, 1, 53, 1);
    GetOther(d, 8, 2, 3, 53, 1);
    GetOther(e, 2, 3, 4, 53, 1);
    GetOther(b, 53, 1, 1, 54, 1);
    GetOther(c, 10, 1, 1, 54, 1);
    GetOther(d, 8, 2, 3, 54, 1);
    GetOther(e, 2, 3, 4, 54, 1);
    GetOther(a, 54, 1, NeverBit(flags), 6, 2);
    GetOther(b, 53, 1, 1, 6, 2);
    GetOther(c, 10, 1, 1, 6, 2);
    GetOther(d, 8, 2, 3, 6, 2);
    GetOther(e, 2, 3, 4, 6, 2);
    LowBits(w, a, b, c, d, e, flags, 0);
    LowBits(w, a, b, c, d, e, flags, 1);
    AccessFields(SetField(e, 2, 3, 4), flags);
  }

  /** The values stored for the permissions, bit by bit. */
  lemma AccessFields(r: nat, flags: nat)
    ensures Field(r, 6, 2) == Field(AccessBits(flags), 0, 2) ==>
              Field(r, 6, 1) == 1 && (Field(r, 7, 1) == 0 <==> flags / 2 % 2 == 1)
    ensures Field(r, 54, 1) == Field(NeverBit(flags), 0, 1) ==>
              (Field(r, 54, 1) == 0 <==> flags / 4 % 2 == 1)
  {
    SmallFields();
    FlagBits(flags);
    FieldSplit(r, 6, 1, 1);
    FieldBound(r, 6, 1);
    FieldBound(r, 7, 1);
    PowDouble(0);
    hide Field;
  }

  /** VMR_WRITE is 2 and VMR_EXEC is 4. */
  lemma FlagBits(flags: nat)
    ensures Writable(flags) <==> flags / 2 % 2 == 1
    ensures Executable(flags) <==> flags / 4 % 2 == 1
  {
    assert flags / 2 / 2 == flags / 4;
  }

  lemma LowBits(w: nat, a: nat, b: nat, c: nat, d: nat, e: nat, flags: nat, at: nat)
    requires at < 2
    requires a == SetField(w, 6, 2, AccessBits(flags)) && b == SetField(a, 54, 1, NeverBit(flags))
    requires c == SetField(b, 53, 1, 1) && d == SetField(c, 10, 1, 1) && e == SetField(d, 8, 2, 3)
    ensures Field(SetField(e, 2, 3, 4), at, 1) == Field(w, at, 1)
  {
    hide Field, SetField, Writable, Executable;
    GetOther(w, 6, 2, AccessBits(flags), at, 1);
    GetOther(a, 54, 1, NeverBit(flags), at, 1);
    GetOther(b, 53, 1, 1, at, 1);
    GetOther(c, 10, 1, 1, at, 1);
    GetOther(d, 8, 2, 3, at, 1);
    GetOther(e, 2, 3, 4, at, 1);
  }

  /** Whatever valid entry it starts from, mapping leaves the frame and the permissions asked for. */
  lemma LeafWordFields(w: nat, flags: nat, pa: nat)
    requires IsValid(w) && IsTable(w)
    ensures Maps(LeafWord(w, flags, pa), pa, flags)
  {
    hide Field, SetField, SetPteFlags;
    FlagFields(w, flags);
    FrameField(pa);
    var r := SetPteFlags(w, flags, USER_PTE);
    var v := pa / PAGE_SIZE;
    GetSet(r, 12, 36, v);
    GetOther(r, 12, 36, v, 6, 1);
    GetOther(r, 12, 36, v, 7, 1);
    GetOther(r, 12, 36, v, 54, 1);
    GetOther(r, 12, 36, v, 53, 1);
    GetOther(r, 12, 36, v, 10, 1);
    GetOther(r, 12, 36, v, 8, 2);
    GetOther(r, 12, 36, v, 2, 3);
    GetOther(r, 12, 36, v, 0, 1);
    GetOther(r, 12, 36, v, 1, 1);
  }

  /** The nine index bits the code takes from an address are those of its page number. */
  lemma IndexOfPage(va: nat, level: nat)
    requires level <= 3
    ensures Index(va, level) == VpnIndex(Vpn(va), level)
  {
    hide Field;
    FieldSplit9(va, 12, 27);
    FieldSplit9(va, 21, 18);
    FieldSplit9(va, 30, 9);
    FieldBound9(va, 39);
    var p0, p1, p2, p3 := Field(va, 39, 9), Field(va, 30, 18), Field(va, 21, 27), Field(va, 12, 36);
    assert Prefix(p3, 4) == p3;
    assert Prefix(p3, 3) == p2;
    assert Prefix(p3, 2) == p1;
    assert Prefix(p3, 1) == p0;
  }

  lemma FieldSplit9(w: nat, lo: nat, n: nat)
    ensures Field(w, lo, 9 + n) / 512 == Field(w, lo + 9, n)
    ensures Field(w, lo, 9 + n) % 512 == Field(w, lo, 9)
  {
    FieldSplit(w, lo, 9, n);
    FieldBound9(w, lo);
    PowNine();
    hide Field, Pow;
    DivUnique(Field(w, lo, 9 + n), 512, Field(w, lo + 9, n), Field(w, lo, 9));
  }

  lemma FieldBound9(w: nat, lo: nat)
    ensures Field(w, lo, 9) < 512
  {
    FieldBound(w, lo, 9);
    PowNine();
    hide Field, Pow;
  }

  lemma PowNine()
    ensures Pow(9) == 512
  {
    PowDouble(8);
    PowDouble(6);
    PowDouble(4);
    PowDouble(2);
    PowDouble(0);
  }

  lemma PageNumberBound(va: nat)
    ensures Vpn(va) < VPN_LIMIT
  {
    hide Field;
    FieldSplit9(va, 12, 27);
    FieldSplit9(va, 21, 18);
    FieldSplit9(va, 30, 9);
    FieldBound9(va, 39);
  }

  lemma LeafWordTable(w: nat, flags: nat, pa: nat)
    requires IsValid(w) && IsTable(w)
    ensures IsValid(LeafWord(w, flags, pa)) && IsTable(LeafWord(w, flags, pa))
  {
    LeafWordFields(w, flags, pa);
    hide LeafWord, View, IsValid, IsTable, Field;
  }

  lemma ClearedInvalid(w: nat)
    ensures !IsValid(SetField(w, 0, 1, 0))
  {
    GetSet(w, 0, 1, 0);
    BitValues();
    hide Field, SetField;
  }

  lemma StoreTwice(mem: Memory, f: nat, i: nat, v: nat, w: nat)
    requires f in mem && i < |mem[f]|
    ensures f in Store(mem, f, i, v) && i < |Store(mem, f, i, v)[f]| && Store(mem, f, i, v)[f][i] == v
    ensures Store(Store(mem, f, i, v), f, i, w) == Store(mem, f, i, w)
  {
    assert mem[f][i := v][i := w] == mem[f][i := w];
  }

  lemma WholePrefix(vpn: nat)
    ensures Prefix(vpn, 4) == vpn
  {
  }

  lemma EntryIsOk(mem: Memory, root: nat, tab: Tables, k: (nat, nat), i: nat)
    requires Tree(mem, root, tab) && k in tab && i < PTP_ENTRIES
    ensures EntryOk(mem, tab, k, i)
  {
  }

  /** Number of pages that the range functions process: ROUND_UP(len, PAGE_SIZE) / PAGE_SIZE. */
  function PageCount(len: nat): nat {
    (len + PAGE_SIZE - 1) / PAGE_SIZE
  }

  /** The last of the n pages from va that has page number vpn, as its position in the range. */
  function LastHit(va: nat, n: nat, vpn: nat): Option<nat>
  {
    if n == 0 then None
    else if Vpn(va + (n - 1) * PAGE_SIZE) == vpn then Some(n - 1)
    else LastHit(va, n - 1, vpn)
  }

  /** A page that the range hit last at position k is mapped there; a page it did not hit is as before. */
  ghost predicate Mapped(now: Option<nat>, before: Option<nat>, hit: Option<nat>, pa: nat, flags: nat) {
    match hit
    case None => now == before
    case Some(k) => now.Some? && Maps(now.value, pa + k * PAGE_SIZE, flags)
  }

  /** A page that the range hit translates no more; a page it did not hit is as before. */
  function Unmapped(before: Option<nat>, hit: Option<nat>): Option<nat> {
    if hit.Some? then None else before
  }

  lemma NothingUnmapped(va: nat, vpn: nat, before: Option<nat>)
    ensures Unmapped(before, LastHit(va, 0, vpn)) == before
  {
  }

  lemma UnmappedStep(va: nat, i: nat, vpn: nat, now: Option<nat>, mid: Option<nat>, before: Option<nat>)
    requires mid == Unmapped(before, LastHit(va, i, vpn))
    requires now == if vpn == Vpn(va + i * PAGE_SIZE) then None else mid
    ensures now == Unmapped(before, LastHit(va, i + 1, vpn))
  {
  }

  lemma NothingMapped(va: nat, pa: nat, flags: nat, vpn: nat, before: Option<nat>)
    ensures Mapped(before, before, LastHit(va, 0, vpn), pa, flags)
  {
  }

  lemma MappedStep(va: nat, pa: nat, flags: nat, i: nat, vpn: nat, now: Option<nat>, mid: Option<nat>,
      before: Option<nat>)
    requires Mapped(mid, before, LastHit(va, i, vpn), pa, flags)
    requires vpn != Vpn(va + i * PAGE_SIZE) ==> now == mid
    requires vpn == Vpn(va + i * PAGE_SIZE) ==> now.Some? && Maps(now.value, pa + i * PAGE_SIZE, flags)
    ensures Mapped(now, before, LastHit(va, i + 1, vpn), pa, flags)
  {
    hide Vpn, Maps;
  }

  class Translation {
    const root: nat
    var mem: Memory
    var free: seq<nat>
    ghost var tab: Tables

    ghost predicate FreeFrames()
      reads this
    {
      && (forall i :: 0 <= i < |free| ==> free[i] !in mem && Field(free[i], 0, 36) == free[i])
      && (forall i, j :: 0 <= i < j < |free| ==> free[i] != free[j])
    }

    ghost predicate Valid()
      reads this
    {
      Tree(mem, root, tab) && FreeFrames()
    }

    /** The flat map: the descriptor that translates a page, found by walking the memory. */
    function Lookup(vpn: nat): Option<nat>
      reads this
    {
      Walk(mem, root, 0, vpn)
    }

    lemma LookupIsLeaf()
      requires Valid()
      ensures forall vpn: nat :: vpn < VPN_LIMIT ==> Lookup(vpn) == Leaf(mem, tab, vpn)
    {
      forall vpn: nat | vpn < VPN_LIMIT
        ensures Lookup(vpn) == Leaf(mem, tab, vpn)
      {
        RootWalk(mem, root, tab, vpn);
      }
    }

    /** An address space without mappings: a zeroed root table. */
    constructor (root: nat, free: seq<nat>)
      requires root !in free
      requires forall i :: 0 <= i < |free| ==> Field(free[i], 0, 36) == free[i]
      requires forall i, j :: 0 <= i < j < |free| ==> free[i] != free[j]
      ensures Valid() && this.root == root && this.free == free
      ensures forall vpn: nat :: vpn < VPN_LIMIT ==> Lookup(vpn) == None
    {
      this.root, this.free := root, free;
      mem := map[root := Zeros()];
      tab := map[(0, 0) := root];
      new;
      BitValues();
      hide IsValid, IsTable;
      forall vpn: nat | vpn < VPN_LIMIT
        ensures Lookup(vpn) == None
      {
        RootWalk(mem, root, tab, vpn);
      }
    }

    /**
     * Finds the entry of `va` in a table page. A missing next-level page is allocated on request, at
     * the last level as at the others. BLOCK_PTP reports an entry that is not a table.
     */
    method GetNextPtp(cur: Option<nat>, level: nat, va: nat, alloc: bool) returns (err: int, next: nat, entry: nat)
      requires level <= 3
      requires cur.Some? ==> cur.value in mem && |mem[cur.value]| == PTP_ENTRIES
      modifies `mem, `free
      ensures cur == None ==> err == -ENOMAPPING && mem == old(mem) && free == old(free)
      ensures cur.Some? ==> entry == Index(va, level) && entry < PTP_ENTRIES
      ensures cur.Some? ==>
        var w := old(mem[cur.value][entry]);
        if IsValid(w) then
          mem == old(mem) && free == old(free) && next == Next(w) && err == if IsTable(w) then NORMAL_PTP else BLOCK_PTP
        else if !alloc then
          mem == old(mem) && free == old(free) && err == -ENOMAPPING
        else if old(free) == [] then
          mem == old(mem) && free == [] && err == STOPPED
        else
          && mem == Linked(old(mem), cur.value, entry, old(free[0])) && free == old(free[1..])
          && next == Next(TableWord(old(free[0]))) && err == NORMAL_PTP
    {
      next, entry := 0, 0;
      if cur == None {
        return -ENOMAPPING, next, entry;
      }
      IndexOfPage(va, level);
      TableWordFields(if |free| > 0 then free[0] else 0);
      hide Field, Index, Vpn, VpnIndex, IsValid, IsTable, Next, TableWord;
      entry := Index(va, level);
      var frame := cur.value;
      if !IsValid(mem[frame][entry]) {
        if !alloc {
          return -ENOMAPPING, next, entry;
        }
        if free == [] {
          return STOPPED, next, entry;
        }
        var page := free[0];
        free := free[1..];
        mem := mem[page := Zeros()];
        mem := Store(mem, frame, entry, TableWord(page));
      }
      next := Next(mem[frame][entry]);
      err := if IsTable(mem[frame][entry]) then NORMAL_PTP else BLOCK_PTP;
    }

    /** One step down from a table above the last level, allocating the next table when missing. */
    method StepDown(frame: nat, level: nat, va: nat) returns (err: int, next: nat)
      requires Valid() && level < 3
      requires (level, Prefix(Vpn(va), level)) in tab && tab[(level, Prefix(Vpn(va), level))] == frame
      modifies this
      ensures Valid() && |free| >= old(|free|) - 1
      ensures err == NORMAL_PTP || (err == STOPPED && old(free) == [])
      ensures err == NORMAL_PTP ==>
        (level + 1, Prefix(Vpn(va), level + 1)) in tab && tab[(level + 1, Prefix(Vpn(va), level + 1))] == next
      ensures forall vpn: nat :: Leaf(mem, tab, vpn) == old(Leaf(mem, tab, vpn))
    {
      hide IsValid, IsTable, Next, TableWord, Entries, Unshared, Leaf, Index, Vpn, VpnIndex, Prefix;
      var entry;
      ghost var k, m, t := (level, Prefix(Vpn(va), level)), mem, tab;
      err, next, entry := GetNextPtp(Some(frame), level, va, true);
      IndexOfPage(va, level);
      PrefixStep(Vpn(va), level);
      EntryIsOk(m, root, t, k, entry);
      if err == STOPPED {
        return;
      }
      if !IsValid(m[frame][entry]) {
        ghost var page := old(free[0]);
        TableWordFields(page);
        LinkTable(m, root, t, k, entry, page);
        tab := tab[Child(k, entry) := page];
      }
    }

    /**
     * The last-level entry of `va`, made valid if need be. `base` is the memory without the store to
     * that entry: it translates every page as before.
     */
    method LeafEntry(frame: nat, va: nat) returns (err: int, entry: nat, ghost base: Memory)
      requires Valid()
      requires (3, Prefix(Vpn(va), 3)) in tab && tab[(3, Prefix(Vpn(va), 3))] == frame
      modifies `mem, `free
      ensures err == NORMAL_PTP || (err == STOPPED && old(free) == [] == free && mem == old(mem))
      ensures |free| >= old(|free|) - 1 && FreeFrames() && mem.Keys == base.Keys
      ensures Tree(base, root, tab) && forall vpn: nat :: Leaf(base, tab, vpn) == old(Leaf(mem, tab, vpn))
      ensures entry < PTP_ENTRIES && Vpn(va) == Prefix(Vpn(va), 3) * PTP_ENTRIES + entry
      ensures frame in base && |base[frame]| == PTP_ENTRIES && frame in mem && |mem[frame]| == PTP_ENTRIES
      ensures err == NORMAL_PTP ==>
        mem == Store(base, frame, entry, mem[frame][entry]) && IsValid(mem[frame][entry]) && IsTable(mem[frame][entry])
    {
      hide IsValid, IsTable, Next, TableWord, Entries, Unshared, Leaf, Index, Vpn, VpnIndex, Prefix;
      ghost var m := mem;
      var next;
      err, next, entry := GetNextPtp(Some(frame), 3, va, true);
      IndexOfPage(va, 3);
      PrefixStep(Vpn(va), 3);
      assert Prefix(Vpn(va), 4) == Vpn(va) by {
        WholePrefix(Vpn(va));
      }
      ghost var k := (3, Prefix(Vpn(va), 3));
      EntryIsOk(m, root, tab, k, entry);
      base := m;
      if err == STOPPED {
        return;
      }
      if !IsValid(m[frame][entry]) {
        TableWordFields(old(free[0]));
        StoreElsewhere(m, root, tab, old(free[0]), Zeros());
        base := m[old(free[0]) := Zeros()];
      } else {
        assert m[frame][entry := m[frame][entry]] == m[frame];
      }
    }

    /** Maps the page of `va` to the frame of `pa`, whether or not it was mapped before. */
    method MapPage(frame: nat, va: nat, pa: nat, flags: nat) returns (err: int)
      requires Valid()
      requires (3, Prefix(Vpn(va), 3)) in tab && tab[(3, Prefix(Vpn(va), 3))] == frame
      modifies `mem, `free
      ensures Valid() && |free| >= old(|free|) - 1
      ensures err == NORMAL_PTP || (err == STOPPED && old(free) == [] && mem == old(mem))
      ensures forall vpn: nat :: vpn != Vpn(va) ==> Leaf(mem, tab, vpn) == old(Leaf(mem, tab, vpn))
      ensures err == NORMAL_PTP ==> Leaf(mem, tab, Vpn(va)).Some? && Maps(Leaf(mem, tab, Vpn(va)).value, pa, flags)
    {
      hide IsValid, IsTable, Next, TableWord, Entries, Unshared, Leaf, Vpn, Prefix, SetPteFlags, View, UserPage;
      var entry;
      ghost var base;
      err, entry, base := LeafEntry(frame, va);
      if err == STOPPED {
        return;
      }
      ghost var w := mem[frame][entry];
      mem := Store(mem, frame, entry, SetPteFlags(mem[frame][entry], flags, USER_PTE));
      mem := Store(mem, frame, entry, SetField(mem[frame][entry], 12, 36, pa / PAGE_SIZE));
      LeafWordFields(w, flags, pa);
      LeafWordTable(w, flags, pa);
      StoreTwice(base, frame, entry, w, SetPteFlags(w, flags, USER_PTE));
      StoreTwice(base, frame, entry, SetPteFlags(w, flags, USER_PTE), LeafWord(w, flags, pa));
      assert mem == Store(base, frame, entry, LeafWord(w, flags, pa));
      StoreLeaf(base, root, tab, Prefix(Vpn(va), 3), entry, LeafWord(w, flags, pa));
    }

    /** Clears the valid bit of the entry of `va`, which is allocated first if it was not there. */
    method UnmapPage(frame: nat, va: nat) returns (err: int)
      requires Valid()
      requires (3, Prefix(Vpn(va), 3)) in tab && tab[(3, Prefix(Vpn(va), 3))] == frame
      modifies `mem, `free
      ensures Valid() && |free| >= old(|free|) - 1
      ensures err == NORMAL_PTP || (err == STOPPED && old(free) == [] && mem == old(mem))
      ensures forall vpn: nat :: vpn != Vpn(va) ==> Leaf(mem, tab, vpn) == old(Leaf(mem, tab, vpn))
      ensures err == NORMAL_PTP ==> Leaf(mem, tab, Vpn(va)) == None
    {
      hide IsValid, IsTable, Next, TableWord, Entries, Unshared, Leaf, Vpn, Prefix;
      var entry;
      ghost var base;
      err, entry, base := LeafEntry(frame, va);
      if err == STOPPED {
        return;
      }
      ghost var w := mem[frame][entry];
      mem := Store(mem, frame, entry, SetField(mem[frame][entry], 0, 1, 0));
      ClearedInvalid(w);
      StoreTwice(base, frame, entry, w, SetField(w, 0, 1, 0));
      assert mem == Store(base, frame, entry, SetField(w, 0, 1, 0));
      StoreLeaf(base, root, tab, Prefix(Vpn(va), 3), entry, SetField(w, 0, 1, 0));
    }

    /** The last-level table page of `va`, allocated with its ancestors when missing. */
    method TableFor(va: nat) returns (err: int, frame: nat)
      requires Valid()
      modifies this
      ensures Valid() && |free| >= old(|free|) - 3
      ensures err == NORMAL_PTP || (err == STOPPED && old(|free|) < 3)
      ensures err == NORMAL_PTP ==> (3, Prefix(Vpn(va), 3)) in tab && tab[(3, Prefix(Vpn(va), 3))] == frame
      ensures forall vpn: nat :: Leaf(mem, tab, vpn) == old(Leaf(mem, tab, vpn))
    {
      PageNumberBound(va);
      PrefixZero(Vpn(va));
      assert tab[(0, 0)] == root;
      hide Tree, Pages, Leaf, Vpn, Prefix, FreeFrames;
      err, frame := StepDown(root, 0, va);
      if err == STOPPED {
        return;
      }
      err, frame := StepDown(frame, 1, va);
      if err == STOPPED {
        return;
      }
      err, frame := StepDown(frame, 2, va);
    }

    /**
     * Maps [va, va + len) page by page: every page of the range that the count covers translates to
     * its frame with the permissions asked for, and no other translation changes. Address bits above
     * the 48 translated ones are ignored, so of two pages with one page number the later wins. Where it stops
     * for want of pages, the first `done` pages are mapped; four free pages for each page are enough.
     */
    method MapRange(va: nat, pa: nat, len: nat, flags: nat) returns (err: int, ghost done: nat)
      requires Valid()
      modifies this
      ensures Valid() && (err == 0 || err == STOPPED) && (old(|free|) >= 4 * PageCount(len) ==> err == 0)
      ensures if err == 0 then done == PageCount(len) else done < PageCount(len)
      ensures forall vpn: nat :: vpn < VPN_LIMIT ==>
        Mapped(Lookup(vpn), old(Lookup(vpn)), LastHit(va, done, vpn), pa, flags)
    {
      hide Entries, Unshared, Leaf, Vpn, Prefix, FreeFrames, Lookup, Mapped, LastHit, Maps;
      ghost var m0, t0 := mem, tab;
      LookupIsLeaf();
      var pageNum := PageCount(len);
      var i, v, p := 0, va, pa;
      forall vpn: nat
        ensures Mapped(Leaf(mem, tab, vpn), Leaf(m0, t0, vpn), LastHit(va, 0, vpn), pa, flags)
      {
        NothingMapped(va, pa, flags, vpn, Leaf(m0, t0, vpn));
      }
      while i < pageNum
        invariant i <= pageNum && v == va + i * PAGE_SIZE && p == pa + i * PAGE_SIZE
        invariant Valid() && |free| >= old(|free|) - 4 * i
        invariant forall vpn: nat :: Mapped(Leaf(mem, tab, vpn), Leaf(m0, t0, vpn), LastHit(va, i, vpn), pa, flags)
      {
        ghost var m1, t1 := mem, tab;
        var e, frame := TableFor(v);
        if e == STOPPED {
          LookupIsLeaf();
          return STOPPED, i;
        }
        e := MapPage(frame, v, p, flags);
        if e == STOPPED {
          LookupIsLeaf();
          return STOPPED, i;
        }
        forall vpn: nat
          ensures Mapped(Leaf(mem, tab, vpn), Leaf(m0, t0, vpn), LastHit(va, i + 1, vpn), pa, flags)
        {
          MappedStep(va, pa, flags, i, vpn, Leaf(mem, tab, vpn), Leaf(m1, t1, vpn), Leaf(m0, t0, vpn));
        }
        i, v, p := i + 1, v + PAGE_SIZE, p + PAGE_SIZE;
      }
      LookupIsLeaf();
      err, done := 0, i;
    }

    /**
     * Unmaps [va, va + len) page by page, mapped or not: no page of the range that the count covers
     * translates any more, and no other translation changes. It stops for want of pages as MapRange does.
     */
    method UnmapRange(va: nat, len: nat) returns (err: int, ghost done: nat)
      requires Valid()
      modifies this
      ensures Valid() && (err == 0 || err == STOPPED) && (old(|free|) >= 4 * PageCount(len) ==> err == 0)
      ensures if err == 0 then done == PageCount(len) else done < PageCount(len)
      ensures forall vpn: nat :: vpn < VPN_LIMIT ==>
        Lookup(vpn) == Unmapped(old(Lookup(vpn)), LastHit(va, done, vpn))
    {
      hide Entries, Unshared, Leaf, Vpn, Prefix, FreeFrames, Lookup, Unmapped, LastHit;
      ghost var m0, t0 := mem, tab;
      LookupIsLeaf();
      var pageNum := PageCount(len);
      var i, v := 0, va;
      forall vpn: nat
        ensures Leaf(mem, tab, vpn) == Unmapped(Leaf(m0, t0, vpn), LastHit(va, 0, vpn))
      {
        NothingUnmapped(va, vpn, Leaf(m0, t0, vpn));
      }
      while i < pageNum
        invariant i <= pageNum && v == va + i * PAGE_SIZE
        invariant Valid() && |free| >= old(|free|) - 4 * i
        invariant forall vpn: nat :: Leaf(mem, tab, vpn) == Unmapped(Leaf(m0, t0, vpn), LastHit(va, i, vpn))
      {
        ghost var m1, t1 := mem, tab;
        var e, frame := TableFor(v);
        if e == STOPPED {
          LookupIsLeaf();
          return STOPPED, i;
        }
        e := UnmapPage(frame, v);
        if e == STOPPED {
          LookupIsLeaf();
          return STOPPED, i;
        }
        forall vpn: nat
          ensures Leaf(mem, tab, vpn) == Unmapped(Leaf(m0, t0, vpn), LastHit(va, i + 1, vpn))
        {
          UnmappedStep(va, i, vpn, Leaf(mem, tab, vpn), Leaf(m1, t1, vpn), Leaf(m0, t0, vpn));
        }
        i, v := i + 1, v + PAGE_SIZE;
      }
      LookupIsLeaf();
      err, done := 0, i;
    }

    /**
     * The physical address of `va` and the position of its descriptor. The error is returned exactly
     * for pages that the flat map does not translate.
     */
    method Query(va: nat) returns (err: int, pa: nat, entry: (nat, nat))
      requires Valid()
      modifies `mem, `free
      ensures mem == old(mem) && free == old(free)
      ensures err == (if Lookup(Vpn(va)) == None then -ENOMAPPING else 0)
      ensures err == 0 ==>
        && entry.0 in mem && entry.1 < |mem[entry.0]| && Lookup(Vpn(va)) == Some(mem[entry.0][entry.1])
        && pa == View(mem[entry.0][entry.1]).pfn * PAGE_SIZE + va % PAGE_SIZE
    {
      PageNumberBound(va);
      PrefixZero(Vpn(va));
      hide Leaf, Entries, Unshared, Prefix, Vpn, IsValid, IsTable, Next, Index, VpnIndex, FreeFrames;
      var cur, next, index := root, root, 0;
      pa, entry := 0, (0, 0);
      var i := 0;
      while i <= 3
        invariant i <= 4 && mem == old(mem) && free == old(free)
        invariant i <= 3 ==> (i, Prefix(Vpn(va), i)) in tab && tab[(i, Prefix(Vpn(va), i))] == cur
        invariant i <= 3 ==> Lookup(Vpn(va)) == Walk(mem, cur, i, Vpn(va))
        invariant i == 4 ==> entry.0 in mem && entry.1 < |mem[entry.0]|
        invariant i == 4 ==> Lookup(Vpn(va)) == Some(mem[entry.0][entry.1]) && next == Next(mem[entry.0][entry.1])
      {
        WalkStep(cur, i, va);
        hide Lookup, Tree, Walk;
        err, next, index := GetNextPtp(Some(cur), i, va, false);
        if err < 0 {
          return err, pa, entry;
        }
        assert err != BLOCK_PTP;
        entry := (cur, index);
        cur := next;
        i := i + 1;
      }
      pa := next * PAGE_SIZE + va % PAGE_SIZE;
      err := 0;
      assert View(mem[entry.0][entry.1]).pfn == next by {
        NextIsFrame(mem[entry.0][entry.1]);
      }
    }

    /** One level of the walk, at the table page of this level. */
    lemma WalkStep(cur: nat, i: nat, va: nat)
      requires Valid() && i <= 3
      requires (i, Prefix(Vpn(va), i)) in tab && tab[(i, Prefix(Vpn(va), i))] == cur
      ensures cur in mem && |mem[cur]| == PTP_ENTRIES && Index(va, i) < PTP_ENTRIES
      ensures var w := mem[cur][Index(va, i)];
              && (IsValid(w) ==> IsTable(w))
              && Walk(mem, cur, i, Vpn(va)) == (if !IsValid(w) then None else if i == 3 then Some(w)
                 else Walk(mem, Next(w), i + 1, Vpn(va)))
              && (IsValid(w) && i < 3 ==>
                    (i + 1, Prefix(Vpn(va), i + 1)) in tab && tab[(i + 1, Prefix(Vpn(va), i + 1))] == Next(w))
    {
      IndexOfPage(va, i);
      EntryIsOk(mem, root, tab, (i, Prefix(Vpn(va), i)), Index(va, i));
      PrefixStep(Vpn(va), i);
      hide Leaf, Entries, Unshared, Prefix, Vpn, IsValid, IsTable, Next, Index, VpnIndex, FreeFrames;
    }
  }

  lemma NextIsFrame(w: nat)
    ensures View(w).pfn == Next(w)
  {
  }

  lemma PowLarge()
    ensures Pow(36) == VPN_LIMIT && Pow(12) == PAGE_SIZE
  {
    PowDouble(1);
    PowDouble(3);
    PowDouble(5);
    PowDouble(7);
    PowDouble(9);
    PowDouble(11);
    PowDouble(13);
    PowDouble(15);
    PowDouble(17);
    PowDouble(19);
    PowDouble(21);
    PowDouble(23);
    PowDouble(25);
    PowDouble(27);
    PowDouble(29);
    PowDouble(31);
    PowDouble(33);
    PowDouble(35);
  }

  /** Below 2^48 the page number is the address divided by the page size. */
  lemma PageNumber(va: nat)
    requires va < VPN_LIMIT * PAGE_SIZE
    ensures Vpn(va) == va / PAGE_SIZE
  {
    hide Pow, Field;
    FieldDiv(va, 12, 36);
    PowLarge();
    assert va / PAGE_SIZE < VPN_LIMIT;
  }

  /** Some byte of [va, va + len) lies in page vpn. */
  predicate Touches(va: nat, len: nat, vpn: nat) {
    va < (vpn + 1) * PAGE_SIZE && vpn * PAGE_SIZE < va + len
  }

  /** The pages processed are consecutive from the page of va. */
  lemma {:induction false} HitsAreConsecutive(va: nat, n: nat, vpn: nat)
    requires va + n * PAGE_SIZE <= VPN_LIMIT * PAGE_SIZE + PAGE_SIZE - 1
    ensures LastHit(va, n, vpn) ==
            if va / PAGE_SIZE <= vpn < va / PAGE_SIZE + n then Some(vpn - va / PAGE_SIZE) else None
    decreases n
  {
    hide Vpn;
    if n == 0 {
    } else {
      PageNumber(va + (n - 1) * PAGE_SIZE);
      PageShift(va, n - 1);
      HitsAreConsecutive(va, n - 1, vpn);
    }
  }

  lemma PageShift(va: nat, n: nat)
    ensures (va + n * PAGE_SIZE) / PAGE_SIZE == va / PAGE_SIZE + n
  {
  }

  /**
   * Below 2^48 the range functions process exactly the pages that [va, va + len) meets if and only
   * if the offset of va does not push the range over one more page boundary than its length alone.
   * A page-aligned va always qualifies.
   */
  lemma RangeCoversExactly(va: nat, len: nat)
    requires len > 0 && va + len <= VPN_LIMIT * PAGE_SIZE
    ensures (forall vpn: nat :: LastHit(va, PageCount(len), vpn).Some? <==> Touches(va, len, vpn))
            <==> va % PAGE_SIZE + (len - 1) % PAGE_SIZE < PAGE_SIZE
  {
    var n := PageCount(len);
    assert n == (len - 1) / PAGE_SIZE + 1;
    forall vpn: nat
      ensures LastHit(va, n, vpn).Some? <==> va / PAGE_SIZE <= vpn < va / PAGE_SIZE + n
    {
      HitsAreConsecutive(va, n, vpn);
    }
    hide LastHit;
    var last := (va + len - 1) / PAGE_SIZE;
    assert forall vpn: nat :: Touches(va, len, vpn) <==> va / PAGE_SIZE <= vpn <= last;
    assert last == va / PAGE_SIZE + n - 1 <==> va % PAGE_SIZE + (len - 1) % PAGE_SIZE < PAGE_SIZE;
    hide PageCount;
    if last != va / PAGE_SIZE + n - 1 {
      assert Touches(va, len, last) && !LastHit(va, n, last).Some?;
    }
  }

  /** An example: two bytes from address 0xFFF on meet pages 0 and 1, and page 1 is not processed. */
  lemma TwoBytesMissAPage()
    ensures Touches(0xFFF, 2, 1) && LastHit(0xFFF, PageCount(2), 1) == None
            && LastHit(0xFFF, PageCount(2), 0) == Some(0)
  {
    HitsAreConsecutive(0xFFF, 1, 1);
    HitsAreConsecutive(0xFFF, 1, 0);
  }

  /** What Query answers for a page that MapRange processed: it finds a descriptor, which leads to the page's frame. */
  lemma MappedPage(va: nat, pa: nat, n: nat, flags: nat, x: nat, now: Option<nat>, before: Option<nat>)
    requires va + n * PAGE_SIZE <= VPN_LIMIT * PAGE_SIZE && pa + n * PAGE_SIZE <= VPN_LIMIT * PAGE_SIZE
    requires va / PAGE_SIZE <= x / PAGE_SIZE < va / PAGE_SIZE + n
    requires Mapped(now, before, LastHit(va, n, Vpn(x)), pa, flags)
    ensures now.Some? && View(now.value).pfn == pa / PAGE_SIZE + (x / PAGE_SIZE - va / PAGE_SIZE)
  {
    hide Vpn, LastHit, Field;
    var k := x / PAGE_SIZE - va / PAGE_SIZE;
    InSpace(va, n, x);
    PageNumber(x);
    HitsAreConsecutive(va, n, Vpn(x));
    InSpace(pa, n, pa + k * PAGE_SIZE);
    PageNumber(pa + k * PAGE_SIZE);
    PageShift(pa, k);
    VpnIsField(pa + k * PAGE_SIZE);
  }

  lemma InSpace(a: nat, n: nat, x: nat)
    requires a + n * PAGE_SIZE <= VPN_LIMIT * PAGE_SIZE && x / PAGE_SIZE < a / PAGE_SIZE + n
    ensures x < VPN_LIMIT * PAGE_SIZE
  {
  }

  lemma VpnIsField(a: nat)
    ensures Vpn(a) == Field(a, 12, 36)
  {
  }

  /**
   * After a range of `len` bytes was mapped, a query of byte d of it answers physical byte d, if and only if the two
   * ranges start at the same offset in their pages; so for page-aligned ranges it always does. `now` is what the flat
   * map holds after MapRange for the page of that byte, and `before` what it held before.
   */
  lemma MapThenQuery(va: nat, pa: nat, len: nat, flags: nat, d: nat, now: Option<nat>, before: Option<nat>)
    requires va + PageCount(len) * PAGE_SIZE <= VPN_LIMIT * PAGE_SIZE
    requires pa + PageCount(len) * PAGE_SIZE <= VPN_LIMIT * PAGE_SIZE
    requires d < len && va % PAGE_SIZE + (len - 1) % PAGE_SIZE < PAGE_SIZE
    requires Mapped(now, before, LastHit(va, PageCount(len), Vpn(va + d)), pa, flags)
    ensures now.Some?
    ensures View(now.value).pfn * PAGE_SIZE + (va + d) % PAGE_SIZE == pa + d <==> va % PAGE_SIZE == pa % PAGE_SIZE
  {
    hide Vpn, LastHit, Mapped, View;
    assert (va + d) / PAGE_SIZE < va / PAGE_SIZE + PageCount(len);
    MappedPage(va, pa, PageCount(len), flags, va + d, now, before);
  }
}
