/** Translation tables in physical memory as values, and the flat map they represent. */
module PageTableModel {
  import opened Wrappers
  import opened Pow2
  import opened Bits

  const PTP_ENTRIES: nat := 512
  const VPN_LIMIT: nat := 0x10_0000_0000

  /** Physical frames that hold tables, each 512 descriptors. */
  type Memory = map<nat, seq<nat>>

  /** The table page of each level and index prefix: (0, 0) is the root. */
  type Tables = map<(nat, nat), nat>

  predicate IsValid(w: nat) { Bit(w, 0) }
  predicate IsTable(w: nat) { Bit(w, 1) }
  function Next(w: nat): nat { Field(w, 12, 36) }

  function Vpn(va: nat): nat { Field(va, 12, 36) }

  /** GET_Lx_INDEX: nine bits of the address for each level. */
  function Index(va: nat, level: nat): nat
    requires level <= 3
  {
    Field(va, 39 - 9 * level, 9)
  }

  /** The indices of levels below `level`, as one number; all four make up the page number. */
  function Prefix(vpn: nat, level: nat): nat
    requires level <= 4
    decreases 4 - level
  {
    if level == 4 then vpn else Prefix(vpn, level + 1) / PTP_ENTRIES
  }

  function VpnIndex(vpn: nat, level: nat): (i: nat)
    requires level <= 3
    ensures i < PTP_ENTRIES
  {
    Prefix(vpn, level + 1) % PTP_ENTRIES
  }

  /** The walk: the level-3 descriptor for a page, if every level on the way is valid. */
  function Walk(mem: Memory, frame: nat, level: nat, vpn: nat): Option<nat>
    requires level <= 3
    decreases 3 - level
  {
    if frame !in mem || |mem[frame]| != PTP_ENTRIES then None
    else
      var w := mem[frame][VpnIndex(vpn, level)];
      if !IsValid(w) then None
      else if level == 3 then Some(w)
      else Walk(mem, Next(w), level + 1, vpn)
  }

  ghost predicate Pages(mem: Memory, tab: Tables) {
    forall k :: k in tab ==> k.0 <= 3 && tab[k] in mem && |mem[tab[k]]| == PTP_ENTRIES
  }

  function Child(k: (nat, nat), i: nat): (nat, nat) {
    (k.0 + 1, k.1 * PTP_ENTRIES + i)
  }

  /** An entry above the last level is valid iff it points to the table of its prefix. */
  ghost predicate EntryOk(mem: Memory, tab: Tables, k: (nat, nat), i: nat)
    requires Pages(mem, tab) && k in tab && i < PTP_ENTRIES
  {
    var w := mem[tab[k]][i];
    && (IsValid(w) ==> IsTable(w))
    && (k.0 < 3 ==> (IsValid(w) <==> Child(k, i) in tab))
    && (k.0 < 3 && IsValid(w) ==> Next(w) == tab[Child(k, i)])
  }

  ghost predicate Entries(mem: Memory, tab: Tables)
    requires Pages(mem, tab)
  {
    forall k, i :: k in tab && 0 <= i < PTP_ENTRIES ==> EntryOk(mem, tab, k, i)
  }

  /** Different prefixes have different tables: the tables form a tree. */
  ghost predicate Unshared(tab: Tables) {
    forall k, k' :: k in tab && k' in tab && tab[k] == tab[k'] ==> k == k'
  }

  ghost predicate Tree(mem: Memory, root: nat, tab: Tables) {
    && Pages(mem, tab) && Entries(mem, tab) && Unshared(tab)
    && (0, 0) in tab && tab[(0, 0)] == root
    && forall k :: k in tab && k.0 > 0 ==> (k.0 - 1, k.1 / PTP_ENTRIES) in tab
  }

  /** What the tree holds for a page, read off its last-level table. */
  ghost function Leaf(mem: Memory, tab: Tables, vpn: nat): Option<nat>
    requires Pages(mem, tab)
  {
    if (3, vpn / PTP_ENTRIES) !in tab then None
    else
      var w := mem[tab[(3, vpn / PTP_ENTRIES)]][vpn % PTP_ENTRIES];
      if IsValid(w) then Some(w) else None
  }

  lemma PrefixStep(vpn: nat, level: nat)
    requires level <= 3
    ensures Prefix(vpn, level + 1) == Prefix(vpn, level) * PTP_ENTRIES + VpnIndex(vpn, level)
  {
  }

  lemma PrefixZero(vpn: nat)
    requires vpn < VPN_LIMIT
    ensures Prefix(vpn, 0) == 0
  {
    assert Prefix(vpn, 3) == vpn / 512;
    assert Prefix(vpn, 2) == vpn / 512 / 512;
    assert Prefix(vpn, 1) == vpn / 512 / 512 / 512;
  }

  lemma ChildParent(p: nat, i: nat)
    requires i < PTP_ENTRIES
    ensures (p * PTP_ENTRIES + i) / PTP_ENTRIES == p && (p * PTP_ENTRIES + i) % PTP_ENTRIES == i
  {
  }

  /** The walk from the root finds exactly what the tree holds. */
  lemma {:induction false} WalkIsLeaf(mem: Memory, root: nat, tab: Tables, level: nat, vpn: nat)
    requires Tree(mem, root, tab) && level <= 3 && (level, Prefix(vpn, level)) in tab
    ensures Walk(mem, tab[(level, Prefix(vpn, level))], level, vpn) == Leaf(mem, tab, vpn)
    decreases 3 - level
  {
    var k := (level, Prefix(vpn, level));
    var i := VpnIndex(vpn, level);
    assert EntryOk(mem, tab, k, i);
    PrefixStep(vpn, level);
    if level == 3 {
      assert Prefix(vpn, 3) == vpn / PTP_ENTRIES && i == vpn % PTP_ENTRIES;
    } else if IsValid(mem[tab[k]][i]) {
      assert Child(k, i) == (level + 1, Prefix(vpn, level + 1));
      WalkIsLeaf(mem, root, tab, level + 1, vpn);
    } else {
      NoDescendant(mem, root, tab, level + 1, vpn);
    }
  }

  /** Without a table for a prefix there is none for anything below it. */
  lemma {:induction false} NoDescendant(mem: Memory, root: nat, tab: Tables, level: nat, vpn: nat)
    requires Tree(mem, root, tab) && level <= 3 && (level, Prefix(vpn, level)) !in tab
    ensures Leaf(mem, tab, vpn) == None
    decreases 3 - level
  {
    if level < 3 {
      PrefixStep(vpn, level);
      assert Prefix(vpn, level + 1) / PTP_ENTRIES == Prefix(vpn, level);
      NoDescendant(mem, root, tab, level + 1, vpn);
    } else {
      assert Prefix(vpn, 3) == vpn / PTP_ENTRIES;
    }
  }

  lemma RootWalk(mem: Memory, root: nat, tab: Tables, vpn: nat)
    requires Tree(mem, root, tab) && vpn < VPN_LIMIT
    ensures Walk(mem, root, 0, vpn) == Leaf(mem, tab, vpn)
  {
    PrefixZero(vpn);
    WalkIsLeaf(mem, root, tab, 0, vpn);
  }

  function Store(mem: Memory, frame: nat, i: nat, w: nat): Memory
    requires frame in mem && i < |mem[frame]|
  {
    var page: seq<nat> := mem[frame][i := w];
    mem[frame := page]
  }

  function Zeros(): (s: seq<nat>)
    ensures |s| == PTP_ENTRIES && forall i :: 0 <= i < PTP_ENTRIES ==> s[i] == 0
  {
    seq<nat>(PTP_ENTRIES, i => 0)
  }

  /** The descriptor get_next_ptp stores for a new table page. */
  function TableWord(frame: nat): nat {
    SetField(SetField(SetField(0, 0, 1, 1), 1, 1, 1), 12, 36, frame)
  }

  lemma BitValues()
    ensures Field(1, 0, 1) == 1 && Field(0, 0, 1) == 0
    ensures !IsValid(0) && !IsTable(0)
  {
  }

  lemma TableWordFields(frame: nat)
    ensures IsValid(TableWord(frame)) && IsTable(TableWord(frame)) && Next(TableWord(frame)) == Field(frame, 0, 36)
  {
    hide Field, SetField;
    BitValues();
    var a := SetField(0, 0, 1, 1);
    var b := SetField(a, 1, 1, 1);
    GetSet(0, 0, 1, 1);
    GetSet(a, 1, 1, 1);
    GetSet(b, 12, 36, frame);
    GetOther(a, 1, 1, 1, 0, 1);
    GetOther(b, 12, 36, frame, 0, 1);
    GetOther(b, 12, 36, frame, 1, 1);
  }

  /** Memory after get_next_ptp allocated frame g for entry i of table page f. */
  function Linked(mem: Memory, f: nat, i: nat, g: nat): Memory
    requires f in mem && |mem[f]| == PTP_ENTRIES && i < PTP_ENTRIES
  {
    Store(mem[g := Zeros()], f, i, TableWord(g))
  }

  /** A new empty table below the last level but one changes no translation and keeps the tree. */
  lemma LinkTable(mem: Memory, root: nat, tab: Tables, k: (nat, nat), i: nat, g: nat)
    requires Tree(mem, root, tab) && k in tab && k.0 < 3 && i < PTP_ENTRIES
    requires !IsValid(mem[tab[k]][i]) && g !in mem && Field(g, 0, 36) == g
    ensures var mem' := Linked(mem, tab[k], i, g);
            var tab' := tab[Child(k, i) := g];
            Tree(mem', root, tab') && forall vpn :: Leaf(mem', tab', vpn) == Leaf(mem, tab, vpn)
  {
    var mem' := Linked(mem, tab[k], i, g);
    var c := Child(k, i);
    var tab' := tab[c := g];
    assert EntryOk(mem, tab, k, i);
    LinkPages(mem, tab, k, i, g);
    ChildInjective(k, i, k, i);
    hide IsValid, IsTable, Next, TableWord, Linked, EntryOk, Child;
    forall x, j | x in tab' && 0 <= j < PTP_ENTRIES
      ensures EntryOk(mem', tab', x, j)
    {
      LinkEntry(mem, root, tab, k, i, g, x, j);
    }
    forall vpn
      ensures Leaf(mem', tab', vpn) == Leaf(mem, tab, vpn)
    {
      LinkLeaf(mem, root, tab, k, i, g, vpn);
    }
    hide Leaf;
  }

  lemma LinkPages(mem: Memory, tab: Tables, k: (nat, nat), i: nat, g: nat)
    requires Pages(mem, tab) && k in tab && k.0 < 3 && i < PTP_ENTRIES && g !in mem
    ensures Pages(Linked(mem, tab[k], i, g), tab[Child(k, i) := g])
  {
  }

  lemma LinkedAt(mem: Memory, f: nat, i: nat, g: nat, x: nat, j: nat)
    requires f in mem && |mem[f]| == PTP_ENTRIES && i < PTP_ENTRIES && g !in mem
    requires x in mem && |mem[x]| == PTP_ENTRIES && j < PTP_ENTRIES
    ensures var mem' := Linked(mem, f, i, g);
            x in mem' && |mem'[x]| == PTP_ENTRIES && mem'[x][j] == if x == f && j == i then TableWord(g) else mem[x][j]
  {
  }

  lemma LinkNewEntry(mem: Memory, root: nat, tab: Tables, k: (nat, nat), i: nat, g: nat, j: nat)
    requires Tree(mem, root, tab) && k in tab && k.0 < 3 && i < PTP_ENTRIES && j < PTP_ENTRIES
    requires !IsValid(mem[tab[k]][i]) && g !in mem
    requires Pages(Linked(mem, tab[k], i, g), tab[Child(k, i) := g])
    ensures EntryOk(Linked(mem, tab[k], i, g), tab[Child(k, i) := g], Child(k, i), j)
  {
    var c := Child(k, i);
    BitValues();
    hide IsValid, IsTable, Next, TableWord;
    assert EntryOk(mem, tab, k, i);
    ChildParent(c.1, j);
    assert Child(c, j) in tab ==> c in tab;
  }

  lemma LinkOldEntry(mem: Memory, root: nat, tab: Tables, k: (nat, nat), i: nat, g: nat, x: (nat, nat), j: nat)
    requires Tree(mem, root, tab) && k in tab && k.0 < 3 && i < PTP_ENTRIES && j < PTP_ENTRIES
    requires !IsValid(mem[tab[k]][i]) && g !in mem && Field(g, 0, 36) == g
    requires Pages(Linked(mem, tab[k], i, g), tab[Child(k, i) := g])
    requires x in tab && x != Child(k, i)
    ensures EntryOk(Linked(mem, tab[k], i, g), tab[Child(k, i) := g], x, j)
  {
    TableWordFields(g);
    LinkedAt(mem, tab[k], i, g, tab[x], j);
    hide IsValid, IsTable, Next, TableWord, Linked;
    ChildInjective(k, i, x, j);
    hide Child;
    assert EntryOk(mem, tab, x, j);
    assert tab[x] == tab[k] ==> x == k;
    hide Entries, Unshared, Pages;
  }

  lemma ChildInjective(k: (nat, nat), i: nat, x: (nat, nat), j: nat)
    requires i < PTP_ENTRIES && j < PTP_ENTRIES
    ensures Child(k, i) == Child(x, j) ==> k == x && i == j
    ensures (Child(k, i).0 - 1, Child(k, i).1 / PTP_ENTRIES) == k && Child(k, i).0 == k.0 + 1
  {
    ChildParent(k.1, i);
    ChildParent(x.1, j);
  }

  lemma LinkEntry(mem: Memory, root: nat, tab: Tables, k: (nat, nat), i: nat, g: nat, x: (nat, nat), j: nat)
    requires Tree(mem, root, tab) && k in tab && k.0 < 3 && i < PTP_ENTRIES
    requires !IsValid(mem[tab[k]][i]) && g !in mem && Field(g, 0, 36) == g
    requires x in tab[Child(k, i) := g] && j < PTP_ENTRIES
    ensures Pages(Linked(mem, tab[k], i, g), tab[Child(k, i) := g])
    ensures EntryOk(Linked(mem, tab[k], i, g), tab[Child(k, i) := g], x, j)
  {
    LinkPages(mem, tab, k, i, g);
    if x == Child(k, i) {
      LinkNewEntry(mem, root, tab, k, i, g, j);
    } else {
      LinkOldEntry(mem, root, tab, k, i, g, x, j);
    }
  }

  lemma LinkLeaf(mem: Memory, root: nat, tab: Tables, k: (nat, nat), i: nat, g: nat, vpn: nat)
    requires Tree(mem, root, tab) && k in tab && k.0 < 3 && i < PTP_ENTRIES
    requires !IsValid(mem[tab[k]][i]) && g !in mem && Field(g, 0, 36) == g
    ensures Pages(Linked(mem, tab[k], i, g), tab[Child(k, i) := g])
    ensures Leaf(Linked(mem, tab[k], i, g), tab[Child(k, i) := g], vpn) == Leaf(mem, tab, vpn)
  {
    LinkPages(mem, tab, k, i, g);
    BitValues();
    assert EntryOk(mem, tab, k, i);
    hide IsValid, IsTable, Next, TableWord, Entries;
  }

  /** A store to a last-level entry changes the translation of its own page and of no other. */
  lemma StoreLeaf(mem: Memory, root: nat, tab: Tables, p: nat, i: nat, w: nat)
    requires Tree(mem, root, tab) && (3, p) in tab && i < PTP_ENTRIES && (IsValid(w) ==> IsTable(w))
    ensures var mem' := Store(mem, tab[(3, p)], i, w);
            && Tree(mem', root, tab)
            && (forall vpn :: vpn != p * PTP_ENTRIES + i ==> Leaf(mem', tab, vpn) == Leaf(mem, tab, vpn))
            && Leaf(mem', tab, p * PTP_ENTRIES + i) == if IsValid(w) then Some(w) else None
  {
    var f := tab[(3, p)];
    var mem' := Store(mem, f, i, w);
    ChildParent(p, i);
    hide IsValid, IsTable, Next;
    forall x, j | x in tab && 0 <= j < PTP_ENTRIES
      ensures EntryOk(mem', tab, x, j)
    {
      assert EntryOk(mem, tab, x, j);
    }
    forall vpn: nat | vpn != p * PTP_ENTRIES + i
      ensures Leaf(mem', tab, vpn) == Leaf(mem, tab, vpn)
    {
      assert vpn == vpn / PTP_ENTRIES * PTP_ENTRIES + vpn % PTP_ENTRIES;
    }
  }

  /** A frame that no table uses may be given any content. */
  lemma StoreElsewhere(mem: Memory, root: nat, tab: Tables, g: nat, page: seq<nat>)
    requires Tree(mem, root, tab) && g !in mem
    ensures Tree(mem[g := page], root, tab)
    ensures forall vpn :: Leaf(mem[g := page], tab, vpn) == Leaf(mem, tab, vpn)
  {
    var mem' := mem[g := page];
    hide IsValid, IsTable, Next;
    forall x, j | x in tab && 0 <= j < PTP_ENTRIES
      ensures EntryOk(mem', tab, x, j)
    {
      assert EntryOk(mem, tab, x, j);
    }
  }
}
