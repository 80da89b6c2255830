/** The capability slot table: slots, the bitmap of used ids, and the summary bitmap over it. */
module SlotTables {
  import opened Wrappers
  import opened Bitmaps

  const ENOMEM: int := 3
  const BASE_OBJECT_NUM: nat := 64

  /** A slot table as a value; a slot is named by a number. */
  datatype Table = Table(size: nat, used: seq<Word>, full: seq<Word>, slots: seq<Option<nat>>)

  ghost predicate Shape(t: Table) {
    && t.size > 0 && t.size == 64 * |t.used| && |t.slots| == t.size
    && |t.full| == BitsToLongs(|t.used|)
  }

  /** The documented meaning of the summary: a set bit promises that its word of ids is used up. */
  ghost predicate Documented(t: Table) {
    forall i: nat :: At(t.full, i) ==> i < |t.used| && AllOnes(t.used[i])
  }

  /** What a summary would be good for: a set bit for exactly the words that are used up. */
  ghost predicate SummaryExact(t: Table) {
    forall i: nat :: i < |t.used| ==> (At(t.full, i) <==> AllOnes(t.used[i]))
  }

  /** The first bit of the summary is 0, so that a search through the summary ends there. */
  ghost predicate FirstClear(t: Table) {
    !At(t.full, 0)
  }

  ghost predicate NothingMarked(t: Table) {
    forall i: nat :: !At(t.full, i)
  }

  /** n is the least id not in use; beyond the table no id is in use. */
  ghost predicate Least(used: seq<Word>, n: nat) {
    !At(used, n) && forall j: nat :: j < n ==> At(used, j)
  }

  /**
    * Whether the test after an allocation in word w succeeds. It reads word w of the summary, and `stray` beyond its
    * end.
    */
  ghost predicate Marks(full: seq<Word>, length: nat, w: nat, stray: Word) {
    if w < |full| then AllOnes(full[w]) else w >= length && AllOnes(stray)
  }

  /** From t to t' id r was marked as in use, if need be after one expansion. */
  ghost predicate Stored(t: Table, t': Table, r: nat, stray: Word) {
    && t'.size == (if r < t.size then t.size else t.size + BASE_OBJECT_NUM)
    && t'.slots == t.slots + seq(t'.size - t.size, i => None)
    && (forall n: nat :: At(t'.used, n) <==> n == r || At(t.used, n))
    && (forall i: nat :: At(t'.full, i) <==> At(t.full, i) || (i == r / 64 && Marks(t.full, |t'.full|, r / 64, stray)))
  }

  /** From t to t' the least id not in use, r, was allocated. */
  ghost predicate Allocated(t: Table, t': Table, r: nat, stray: Word) {
    Least(t.used, r) && Stored(t, t', r, stray)
  }

  /** From t to t' id r was given back. */
  ghost predicate Released(t: Table, t': Table, r: nat) {
    && r < t.size == |t.slots| && t'.size == t.size && t'.slots == t.slots[r := None]
    && (forall n: nat :: At(t'.used, n) <==> n != r && At(t.used, n))
    && (forall i: nat :: At(t'.full, i) <==> i != r / 64 && At(t.full, i))
  }

  ghost predicate Expanded(t: Table, t': Table) {
    && t'.size == t.size + BASE_OBJECT_NUM && t'.slots == t.slots + seq(BASE_OBJECT_NUM, i => None)
    && (forall n: nat :: At(t'.used, n) <==> At(t.used, n)) && (forall i: nat :: At(t'.full, i) <==> At(t.full, i))
  }

  lemma WordFull(used: seq<Word>, w: nat)
    requires w < |used|
    ensures AllOnes(used[w]) <==> forall n: nat :: 64 * w <= n < 64 * w + 64 ==> At(used, n)
  {
    if forall n: nat :: 64 * w <= n < 64 * w + 64 ==> At(used, n) {
      forall i | 0 <= i < 64
        ensures used[w][i]
      {
        PlaceOf(w, i);
        assert At(used, 64 * w + i);
      }
    }
    if AllOnes(used[w]) {
      forall n: nat | 64 * w <= n < 64 * w + 64
        ensures At(used, n)
      {
        PlaceOf(w, n - 64 * w);
      }
    }
  }

  /** What the allocations of slot_table_init yield. */
  datatype Memory = Memory(slots: bool, bmp: bool, full: bool)

  predicate Enough(m: Memory) {
    m.slots && m.bmp && m.full
  }

  class SlotTable {
    var size: nat
    var slots: array<Option<nat>>
    var fullBmp: array<Word>
    var slotsBmp: array<Word>

    ghost function View(): Table
      reads this, slots, fullBmp, slotsBmp
    {
      Table(size, slotsBmp[..], fullBmp[..], slots[..])
    }

    ghost predicate Valid()
      reads this, slots, fullBmp, slotsBmp
    {
      Shape(View()) && slotsBmp != fullBmp
    }

    /** The table of slot_table_init, once its three arrays are allocated. */
    constructor (wanted: nat)
      requires wanted > 0
      ensures Valid() && fresh(slots) && fresh(fullBmp) && fresh(slotsBmp)
      ensures wanted <= size < wanted + BASE_OBJECT_NUM
      ensures forall i :: 0 <= i < size ==> slots[i] == None
      ensures slotsBmp[..] == seq(slotsBmp.Length, i => ZERO) && fullBmp[..] == seq(fullBmp.Length, i => ZERO)
      ensures FirstClear(View())
    {
      var n := (wanted + BASE_OBJECT_NUM - 1) / BASE_OBJECT_NUM * BASE_OBJECT_NUM;
      size := n;
      slots := new Option<nat>[n](i => None);
      slotsBmp := new Word[BitsToLongs(n)](i => ZERO);
      fullBmp := new Word[BitsToLongs(BitsToLongs(n))](i => ZERO);
    }

    /** expand_slot_table. */
    method Expand(memory: Memory) returns (r: int)
      requires Valid()
      modifies this
      ensures Valid() && (r == 0 <==> Enough(memory)) && (!Enough(memory) ==> r == -ENOMEM)
      ensures if Enough(memory) then Expanded(old(View()), View()) else unchanged(this)
      ensures old(FirstClear(View())) ==> FirstClear(View())
      ensures Enough(memory) ==> fresh(slots) && fresh(slotsBmp) && fresh(fullBmp)
    {
      ghost var t := View();
      var oldSize := size;
      var init := SlotTableInit(oldSize + BASE_OBJECT_NUM, memory);
      if init == None {
        return -ENOMEM;
      }
      var newTable := init.value;
      CopyWords(newTable.slotsBmp, slotsBmp, BitsToLongs(oldSize));
      CopyWords(newTable.fullBmp, fullBmp, BitsToLongs(BitsToLongs(oldSize)));
      CopySlots(newTable.slots, slots, oldSize);
      size := oldSize + BASE_OBJECT_NUM;
      slots, slotsBmp, fullBmp := newTable.slots, newTable.slotsBmp, newTable.fullBmp;
      return 0;
    }

    /** The search of alloc_slot_id, through the summary first. */
    method FindFreeId() returns (idx: nat, found: bool)
      requires Valid() && FirstClear(View())
      ensures found ==> idx < size && Least(slotsBmp[..], idx)
      ensures !found ==> forall j: nat :: j < size ==> At(slotsBmp[..], j)
    {
      var bmpSize := size;
      var fullBmpSize := BitsToLongs(bmpSize);
      idx := FindNextBitHelper(fullBmp, fullBmpSize, 0, true);
      assert !At(fullBmp[..], 0);
      assert idx == 0;
      if idx >= fullBmpSize {
        return idx, false;
      }
      idx := FindNextBitHelper(slotsBmp, bmpSize, idx * BITS_PER_LONG, true);
      return idx, idx < bmpSize;
    }

    /** The stores of alloc_slot_id. */
    method MarkId(idx: nat, stray: Word)
      requires Valid() && idx < size && Least(slotsBmp[..], idx) && FirstClear(View())
      modifies slotsBmp, fullBmp
      ensures Valid() && Allocated(old(View()), View(), idx, stray) && FirstClear(View())
    {
      ghost var full := fullBmp[..];
      SetBit(idx, slotsBmp);
      assert fullBmp[..] == full;
      var w := idx / BITS_PER_LONG;
      var word: Word := if w < fullBmp.Length then fullBmp[w] else stray;
      if word == seq(64, i => true) {
        assert w / 64 < fullBmp.Length;
        SetBit(w, fullBmp);
      }
      MarkKeepsFirst(old(View()), View(), idx, stray);
    }

    /** alloc_slot_id: the least id not in use; the table is expanded at most once. */
    method AllocSlotId(memory: Memory, stray: Word) returns (r: int)
      requires Valid() && FirstClear(View())
      modifies this, slotsBmp, fullBmp
      ensures Valid() && FirstClear(View())
      ensures r >= 0 <==> Enough(memory) || exists j: nat :: j < old(size) && !At(old(slotsBmp[..]), j)
      ensures r >= 0 ==> Allocated(old(View()), View(), r, stray)
      ensures r < 0 ==> r == -ENOMEM && View() == old(View())
      ensures slotsBmp == old(slotsBmp) || fresh(slotsBmp)
      ensures fullBmp == old(fullBmp) || fresh(fullBmp)
      ensures slots == old(slots) || fresh(slots)
    {
      ghost var t := View();
      ghost var expanded := false;
      var idx: nat;
      while true
        invariant Valid() && FirstClear(View())
        invariant expanded ==> Enough(memory) && Expanded(t, View())
        invariant expanded ==> fresh(slots) && fresh(slotsBmp) && fresh(fullBmp)
        invariant expanded ==> forall j: nat :: j < t.size ==> At(t.used, j)
        invariant !expanded ==>
                    View() == t && slots == old(slots) && slotsBmp == old(slotsBmp) && fullBmp == old(fullBmp)
        decreases !expanded
      {
        var found;
        idx, found := FindFreeId();
        if found {
          break;
        }
        assert !expanded by {
          NotAfterExpansion(t, View(), expanded);
        }
        var e := Expand(memory);
        if e < 0 {
          return e;
        }
        expanded := true;
      }
      ghost var t1 := View();
      assert !expanded ==> !At(t.used, idx);
      MarkId(idx, stray);
      if expanded {
        ExpandedThenAllocated(t, t1, View(), idx, stray);
      }
      return idx;
    }

    /** free_slot_id. */
    method FreeSlotId(id: nat)
      requires Valid() && id < size
      modifies slots, slotsBmp, fullBmp
      ensures Valid() && Released(old(View()), View(), id)
      ensures old(FirstClear(View())) ==> FirstClear(View())
    {
      ghost var full := fullBmp[..];
      ClearBit(id, slotsBmp);
      assert fullBmp[..] == full;
      ClearBit(id / BITS_PER_LONG, fullBmp);
      slots[id] := None;
    }

    /** get_slot: NULL outside the table. */
    method GetSlot(id: int) returns (slot: Option<nat>)
      requires Valid()
      ensures slot == if 0 <= id < size then slots[id] else None
    {
      if id < 0 || id >= size {
        return None;
      }
      return slots[id];
    }

    /** install_slot, for an id in use. */
    method InstallSlot(id: nat, slot: nat)
      requires Valid() && id < size && At(slotsBmp[..], id)
      modifies slots
      ensures Valid() && View() == old(View()).(slots := old(slots[..])[id := Some(slot)])
    {
      slots[id] := Some(slot);
    }
  }

  /** slot_table_init: without memory for one of its arrays it frees the others and fails. */
  method SlotTableInit(wanted: nat, memory: Memory) returns (r: Option<SlotTable>)
    requires wanted > 0
    ensures r.Some? <==> Enough(memory)
    ensures r.Some? ==> fresh(r.value) && fresh(r.value.slots) && fresh(r.value.fullBmp) && fresh(r.value.slotsBmp)
    ensures r.Some? ==> r.value.Valid() && wanted <= r.value.size < wanted + BASE_OBJECT_NUM
    ensures r.Some? ==> forall i :: 0 <= i < r.value.size ==> r.value.slots[i] == None
    ensures r.Some? ==> r.value.slotsBmp[..] == seq(r.value.slotsBmp.Length, i => ZERO)
                        && r.value.fullBmp[..] == seq(r.value.fullBmp.Length, i => ZERO)
  {
    if !memory.slots {
      return None;
    }
    if !memory.bmp {
      return None;
    }
    if !memory.full {
      return None;
    }
    var table := new SlotTable(wanted);
    return Some(table);
  }

  /**
    * The first bit of the summary stays 0, whatever is read beyond its end: an allocation in word 0 looks at the first
    * word of the summary itself, which is not all ones.
    */
  lemma MarkKeepsFirst(t: Table, t': Table, r: nat, stray: Word)
    requires Shape(t) && FirstClear(t) && Stored(t, t', r, stray)
    ensures FirstClear(t')
  {
    if r / 64 == 0 {
      assert !t.full[0][0];
    }
  }

  lemma NotAfterExpansion(t: Table, t': Table, expanded: bool)
    requires Shape(t) && (expanded ==> Expanded(t, t')) && forall j: nat :: j < t'.size ==> At(t'.used, j)
    ensures !expanded
  {
    assert !At(t.used, t.size);
  }

  lemma ExpandedThenAllocated(t: Table, t1: Table, t': Table, r: nat, stray: Word)
    requires Shape(t) && Shape(t1) && Expanded(t, t1) && Allocated(t1, t', r, stray) && r < t1.size
    requires forall j: nat :: j < t.size ==> At(t.used, j)
    ensures Allocated(t, t', r, stray)
  {
    assert !At(t.used, t.size);
    assert r == t.size;
  }

  /** memcpy of the first n words. */
  method CopyWords(dst: array<Word>, src: array<Word>, n: nat)
    requires dst != src && n == src.Length <= dst.Length
    requires forall i :: n <= i < dst.Length ==> dst[i] == ZERO
    modifies dst
    ensures forall i: nat :: At(dst[..], i) <==> At(src[..], i)
    ensures dst[..] == src[..] + old(dst[n..])
  {
    forall i | 0 <= i < n {
      dst[i] := src[i];
    }
  }

  method CopySlots(dst: array<Option<nat>>, src: array<Option<nat>>, n: nat)
    requires dst != src && n == src.Length <= dst.Length
    requires forall i :: n <= i < dst.Length ==> dst[i] == None
    modifies dst
    ensures dst[..] == src[..] + seq(dst.Length - n, i => None)
  {
    forall i | 0 <= i < n {
      dst[i] := src[i];
    }
  }

  // The search for an id, whatever the summary says.

  /** What find_next_zero_bit answers: the first 0 from `start` on, or `size` if there is none below that. */
  ghost predicate FirstZero(p: seq<Word>, size: nat, start: nat, r: nat) {
    r <= size && (r < size ==> start <= r && !At(p, r)) && forall n: nat :: start <= n < r ==> At(p, n)
  }

  /** The two searches: e is what the search of the summary answers, r what the search of the bitmap from there on. */
  ghost predicate Searched(t: Table, e: nat, r: nat) {
    && FirstZero(t.full, BitsToLongs(t.size), 0, e)
    && if e < BitsToLongs(t.size) then FirstZero(t.used, t.size, 64 * e, r) else r == t.size
  }

  /** The table after an expansion. */
  function Larger(t: Table): Table {
    Table(t.size + BASE_OBJECT_NUM, t.used + [ZERO],
          t.full + seq(BitsToLongs(|t.used| + 1) - BitsToLongs(|t.used|), i => ZERO),
          t.slots + seq(BASE_OBJECT_NUM, i => None))
  }

  ghost predicate Found(t: Table, r: nat) {
    r < t.size && exists e: nat :: Searched(t, e, r)
  }

  ghost predicate NotFound(t: Table) {
    exists e: nat :: Searched(t, e, t.size)
  }

  /** What alloc_slot_id answers with memory at hand: what the searches find, at once or after one expansion. */
  ghost predicate Answer(t: Table, r: nat) {
    Found(t, r) || (NotFound(t) && Found(Larger(t), r))
  }

  lemma LargerOk(t: Table)
    requires Shape(t)
    ensures Shape(Larger(t)) && Expanded(t, Larger(t))
  {
    var t1 := Larger(t);
    forall n: nat
      ensures At(t1.used, n) <==> At(t.used, n)
      ensures At(t1.full, n) <==> At(t.full, n)
    {
    }
  }

  lemma SearchIsLeast(t: Table, e: nat, r: nat)
    requires Shape(t) && FirstClear(t) && Searched(t, e, r)
    ensures e == 0 && (r < t.size ==> Least(t.used, r))
    ensures r == t.size ==> forall j: nat :: j < t.size ==> At(t.used, j)
  {
    assert !At(t.full, 0);
  }

  /** While the first bit of the summary is 0, the searches answer the least id not in use, and no other. */
  lemma AnswerExactly(t: Table, r: nat)
    requires Shape(t) && FirstClear(t)
    ensures Answer(t, r) <==> Least(t.used, r)
  {
    var t1 := Larger(t);
    LargerOk(t);
    if Answer(t, r) {
      if Found(t, r) {
        var e: nat :| Searched(t, e, r);
        SearchIsLeast(t, e, r);
      } else {
        var e: nat, e1: nat :| Searched(t, e, t.size) && Searched(t1, e1, r);
        SearchIsLeast(t, e, t.size);
        SearchIsLeast(t1, e1, r);
      }
    }
    if Least(t.used, r) {
      assert !At(t.used, t.size);
      if r < t.size {
        assert Searched(t, 0, r);
      } else {
        assert r == t.size && Searched(t, 0, t.size) && Searched(t1, 0, r);
      }
    }
  }

  // The summary bitmap over runs.

  datatype Op = Alloc(id: nat, stray: Word) | Free(freed: nat) | Install(at: nat, slot: nat)

  ghost predicate Steps(t: Table, op: Op, t': Table) {
    && Shape(t) && Shape(t')
    && match op
       case Alloc(r, stray) => Answer(t, r) && Stored(t, t', r, stray)
       case Free(r) => Released(t, t', r)
       case Install(i, slot) =>
         At(t.used, i) && t' == t.(slots := if i < t.size then t.slots[i := Some(slot)] else t.slots)
  }

  /** Tables ts after none, one, two, ... of the operations, from a fresh table on. */
  ghost predicate Run(ts: seq<Table>, ops: seq<Op>) {
    && |ts| == |ops| + 1 && Shape(ts[0]) && NothingMarked(ts[0])
    && forall k :: 0 <= k < |ops| ==> Steps(ts[k], ops[k], ts[k + 1])
  }

  /** No allocation of the run reads a word of ones beyond the end of the summary. */
  ghost predicate CleanReads(ops: seq<Op>) {
    forall k :: 0 <= k < |ops| && ops[k].Alloc? ==> !AllOnes(ops[k].stray)
  }

  /** In every run, whatever words are read beyond the summary, its first bit stays 0. */
  lemma {:induction false} FirstBitClear(ts: seq<Table>, ops: seq<Op>, k: nat)
    requires Run(ts, ops) && k <= |ops|
    ensures Shape(ts[k]) && FirstClear(ts[k])
  {
    if k == 0 {
      assert NothingMarked(ts[0]);
    } else {
      FirstBitClear(ts, ops, k - 1);
      assert Steps(ts[k - 1], ops[k - 1], ts[k]);
      if ops[k - 1].Alloc? {
        MarkKeepsFirst(ts[k - 1], ts[k], ops[k - 1].id, ops[k - 1].stray);
      }
    }
  }

  /** So in every run the searches of every allocation answer the least id not in use. */
  lemma AlwaysLeast(ts: seq<Table>, ops: seq<Op>, k: nat)
    requires Run(ts, ops) && k < |ops| && ops[k].Alloc?
    ensures Least(ts[k].used, ops[k].id) && Allocated(ts[k], ts[k + 1], ops[k].id, ops[k].stray)
  {
    FirstBitClear(ts, ops, k);
    assert Steps(ts[k], ops[k], ts[k + 1]);
    AnswerExactly(ts[k], ops[k].id);
  }

  /** What the methods do is a step of a run. */
  lemma AllocatedSteps(t: Table, t': Table, r: nat, stray: Word)
    requires Shape(t) && Shape(t') && FirstClear(t) && Allocated(t, t', r, stray)
    ensures Steps(t, Alloc(r, stray), t')
  {
    AnswerExactly(t, r);
  }

  /**
    * After k operations word w is marked: some allocation in it found the word it looked at all ones, and no id of w
    * was freed since.
    */
  ghost predicate Marked(ts: seq<Table>, ops: seq<Op>, k: nat, w: nat)
    requires Run(ts, ops) && k <= |ops|
  {
    k > 0 && match ops[k - 1]
             case Alloc(r, stray) =>
               Marked(ts, ops, k - 1, w) || (r / 64 == w && Marks(ts[k - 1].full, |ts[k].full|, w, stray))
             case Free(r) => r / 64 != w && Marked(ts, ops, k - 1, w)
             case Install(_, _) => Marked(ts, ops, k - 1, w)
  }

  lemma {:induction false} MarkedExactly(ts: seq<Table>, ops: seq<Op>, k: nat, w: nat)
    requires Run(ts, ops) && k <= |ops|
    ensures At(ts[k].full, w) <==> Marked(ts, ops, k, w)
  {
    if k == 0 {
    } else {
      MarkedExactly(ts, ops, k - 1, w);
      assert Steps(ts[k - 1], ops[k - 1], ts[k]);
    }
  }

  lemma StepMarksNothing(t: Table, op: Op, t': Table)
    requires Steps(t, op, t') && NothingMarked(t) && (op.Alloc? ==> !AllOnes(op.stray))
    ensures NothingMarked(t')
  {
    if op.Alloc? && Marks(t.full, |t'.full|, op.id / 64, op.stray) {
      var w := op.id / 64;
      PlaceOf(w, 0);
      assert At(t.full, 64 * w);
    }
  }

  /** The summary is never written to: after any run no word is marked, however full it is. */
  lemma {:induction false} NeverMarked(ts: seq<Table>, ops: seq<Op>, k: nat)
    requires Run(ts, ops) && CleanReads(ops) && k <= |ops|
    ensures Shape(ts[k]) && NothingMarked(ts[k]) && Documented(ts[k])
  {
    if k == 0 {
    } else {
      NeverMarked(ts, ops, k - 1);
      assert Steps(ts[k - 1], ops[k - 1], ts[k]);
      StepMarksNothing(ts[k - 1], ops[k - 1], ts[k]);
    }
  }

  /**
    * In any run the summary is right exactly if the words used up are those marked; without stray ones, while none is
    * used up.
    */
  lemma SummaryExactly(ts: seq<Table>, ops: seq<Op>, k: nat)
    requires Run(ts, ops) && k <= |ops|
    ensures SummaryExact(ts[k]) <==>
            forall w: nat :: w < |ts[k].used| ==> (AllOnes(ts[k].used[w]) <==> Marked(ts, ops, k, w))
    ensures CleanReads(ops) ==>
            (SummaryExact(ts[k]) <==> forall w: nat :: w < |ts[k].used| ==> !AllOnes(ts[k].used[w]))
  {
    forall w: nat
      ensures At(ts[k].full, w) <==> Marked(ts, ops, k, w)
    {
      MarkedExactly(ts, ops, k, w);
    }
    if CleanReads(ops) {
      NeverMarked(ts, ops, k);
    }
  }

  /**
    * One allocation keeps an exact summary exact if and only if it marks its word exactly when that word is now used
    * up; a word that an expansion adds must not be marked yet.
    */
  lemma ExactStep(t: Table, t': Table, r: nat, stray: Word)
    requires Shape(t) && Shape(t') && SummaryExact(t) && Allocated(t, t', r, stray)
    ensures var w, marks := r / 64, Marks(t.full, |t'.full|, r / 64, stray);
            && w < |t'.used|
            && (r < t.size ==> (SummaryExact(t') <==> (marks <==> AllOnes(t'.used[w]))))
            && (r >= t.size ==> (SummaryExact(t') <==> !marks && !At(t.full, w)))
  {
    var w := r / 64;
    assert r <= t.size by {
      assert !At(t.used, t.size);
    }
    forall i: nat | i < |t'.used| && i != w
      ensures i < |t.used| && (AllOnes(t'.used[i]) <==> AllOnes(t.used[i]))
    {
      WordFull(t.used, i);
      WordFull(t'.used, i);
    }
    if r < t.size {
      WordFull(t.used, w);
    } else {
      WordFull(t'.used, w);
      assert !At(t'.used, r + 1);
    }
  }

  /** An example: the 64th allocation uses up word 0, and its bit in the summary stays 0. */
  lemma FullWordIsNotMarked(stray: Word)
    ensures var empty := seq(64, i => None);
            var t := Table(64, [seq(64, i => i != 63)], [ZERO], empty);
            var t' := Table(64, [seq(64, i => true)], [ZERO], empty);
            Shape(t) && SummaryExact(t) && Allocated(t, t', 63, stray) && !SummaryExact(t')
  {
    var empty := seq(64, i => None);
    var t := Table(64, [seq(64, i => i != 63)], [ZERO], empty);
    var t' := Table(64, [seq(64, i => true)], [ZERO], empty);
    assert !t.used[0][63] && !t.full[0][0];
    assert AllOnes(t'.used[0]) && !At(t'.full, 0);
    assert t'.slots == t.slots + seq(0, i => None);
  }

  /** The documented promise survives an allocation exactly if the word was not marked, or is used up now. */
  lemma DocumentedExactly(t: Table, t': Table, r: nat, stray: Word)
    requires Shape(t) && Shape(t') && Documented(t) && Allocated(t, t', r, stray)
    ensures Documented(t') <==> !Marks(t.full, |t'.full|, r / 64, stray) || AllOnes(t'.used[r / 64])
  {
    forall i: nat | At(t.full, i)
      ensures i < |t'.used| && AllOnes(t'.used[i])
    {
      WordFull(t.used, i);
      WordFull(t'.used, i);
    }
    if Documented(t') {
      assert At(t'.full, r / 64) ==> AllOnes(t'.used[r / 64]);
    }
  }

  /**
    * An example: with 128 slots, id 64 is in word 1, the summary ends before word 1, and a stray word of ones marks
    * word 1.
    */
  lemma StrayWordBreaks()
    ensures var ones := seq(64, i => true);
            var t := Table(128, [ones, ZERO], [ZERO], seq(128, i => None));
            var t' := t.(used := [ones, ZERO[0 := true]], full := [ZERO[1 := true]]);
            Shape(t) && Documented(t) && Allocated(t, t', 64, ones) && !Documented(t')
  {
    var ones := seq(64, i => true);
    var t := Table(128, [ones, ZERO], [ZERO], seq(128, i => None));
    var t' := t.(used := [ones, ZERO[0 := true]], full := [ZERO[1 := true]]);
    assert t'.slots == t.slots + seq(0, i => None);
    assert AllOnes(ones) && !At(t.used, 64);
    assert At(t'.full, 1) && !t'.used[1][1];
  }

  lemma ReleaseDocumented(t: Table, t': Table, r: nat)
    requires Shape(t) && Shape(t') && Documented(t) && Released(t, t', r)
    ensures Documented(t')
  {
    forall i: nat | At(t'.full, i)
      ensures i < |t'.used| && AllOnes(t'.used[i])
    {
      WordFull(t.used, i);
      WordFull(t'.used, i);
    }
  }

  /**
    * Giving back the id just allocated undoes the allocation: the same ids are in use, and the next searches answer
    * that id and no other.
    */
  lemma FreeUndoesAlloc(t: Table, t': Table, t'': Table, r: nat, stray: Word, x: nat)
    requires Shape(t) && Shape(t') && Shape(t'') && FirstClear(t)
    requires Answer(t, r) && Stored(t, t', r, stray) && Released(t', t'', r)
    ensures forall n: nat :: At(t''.used, n) <==> At(t.used, n)
    ensures t''.slots[..t.size] == (if r < t.size then t.slots[r := None] else t.slots)
    ensures Answer(t'', x) <==> x == r
  {
    hide Answer, Marks;
    AnswerExactly(t, r);
    MarkKeepsFirst(t, t', r, stray);
    AnswerExactly(t'', x);
    assert Least(t''.used, r);
    if Least(t''.used, x) {
      assert !(x < r) && !(r < x);
    }
  }
}
