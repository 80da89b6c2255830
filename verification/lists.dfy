/** The kernel's intrusive circular doubly linked list, proved to refine a sequence of nodes. */
module Lists {
  import opened Sequences

  /** A link embedded in some record; `record` is what container_of recovers from its address. */
  class ListHead {
    var prev: ListHead
    var next: ListHead
    const record: nat

    constructor (record: nat)
      ensures prev == this && next == this && this.record == record
    {
      prev, next, this.record := this, this, record;
    }
  }

  /** The nodes of c, starting with the head, are linked in this order into one circle. */
  ghost predicate Ring(c: seq<ListHead>)
    reads c
  {
    && |c| > 0
    && Distinct(c)
    && (forall i {:trigger c[i].next} :: 0 <= i < |c| - 1 ==> c[i].next == c[i + 1])
    && c[|c| - 1].next == c[0]
    && (forall i {:trigger c[i].prev} :: 1 <= i < |c| ==> c[i].prev == c[i - 1])
    && c[0].prev == c[|c| - 1]
  }

  /** Inserts `node` right after `head`, which may be any node of the circle. */
  method ListAdd(node: ListHead, head: ListHead, ghost c: seq<ListHead>, ghost i: nat)
    requires Ring(c) && i < |c| && c[i] == head && node !in c
    modifies node, c
    ensures Ring(InsertAt(c, i + 1, node))
  {
    node.next := head.next;
    node.prev := head;
    head.next.prev := node;
    head.next := node;
  }

  method ListAppend(node: ListHead, head: ListHead, ghost c: seq<ListHead>)
    requires Ring(c) && c[0] == head && node !in c
    modifies node, c
    ensures Ring(c + [node])
  {
    var tail := head.prev;
    ListAdd(node, tail, c, |c| - 1);
    assert InsertAt(c, |c|, node) == c + [node];
  }

  /** Unlinks `node`; a node other than the head leaves a circle with the same head. */
  method ListDel(node: ListHead, ghost c: seq<ListHead>, ghost i: nat)
    requires Ring(c) && 0 < i < |c| && c[i] == node
    modifies c
    ensures Ring(RemoveAt(c, i))
  {
    node.prev.next := node.next;
    node.next.prev := node.prev;
  }

  method ListEmpty(head: ListHead, ghost c: seq<ListHead>) returns (r: bool)
    requires Ring(c) && c[0] == head
    ensures r <==> c == [head]
  {
    r := head.prev == head && head.next == head;
  }

  /** No node is on two of the circles. */
  ghost predicate Separate(cs: seq<seq<ListHead>>) {
    forall j, k, x :: 0 <= j < k < |cs| && x in cs[j] ==> x !in cs[k]
  }

  ghost function AllNodes(cs: seq<seq<ListHead>>): (r: set<ListHead>)
    ensures forall k, x :: 0 <= k < |cs| && x in cs[k] ==> x in r
    ensures forall x :: x in r ==> exists k :: 0 <= k < |cs| && x in cs[k]
  {
    set k, x | 0 <= k < |cs| && x in cs[k] :: x
  }

  /** A family of lists over one memory. */
  ghost predicate Rings(cs: seq<seq<ListHead>>)
    reads AllNodes(cs)
  {
    Separate(cs) && forall k :: 0 <= k < |cs| ==> Ring(cs[k])
  }

  /** list_add on one list of a family: the others keep their order. */
  method ListAddIn(node: ListHead, head: ListHead, ghost cs: seq<seq<ListHead>>, ghost k: nat, ghost i: nat)
    requires Rings(cs) && k < |cs| && i < |cs[k]| && cs[k][i] == head
    requires forall j :: 0 <= j < |cs| ==> node !in cs[j]
    modifies node, cs[k]
    ensures Rings(cs[k := InsertAt(cs[k], i + 1, node)])
  {
    ListAdd(node, head, cs[k], i);
    forall j | 0 <= j < |cs| && j != k
      ensures Ring(cs[j])
    {
      assert old(Ring(cs[j]));
      assert forall i :: 0 <= i < |cs[j]| ==> cs[j][i] in cs[j] && cs[j][i] !in cs[k];
      assert forall i :: 0 <= i < |cs[j]| ==> unchanged(cs[j][i]);
    }
    InsertSeparate(cs, k, i + 1, node);
  }

  /** list_del on one list of a family. */
  method ListDelIn(node: ListHead, ghost cs: seq<seq<ListHead>>, ghost k: nat, ghost i: nat)
    requires Rings(cs) && k < |cs| && 0 < i < |cs[k]| && cs[k][i] == node
    modifies cs[k]
    ensures Rings(cs[k := RemoveAt(cs[k], i)])
  {
    ListDel(node, cs[k], i);
    forall j | 0 <= j < |cs| && j != k
      ensures Ring(cs[j])
    {
      assert old(Ring(cs[j]));
      assert forall i :: 0 <= i < |cs[j]| ==> cs[j][i] in cs[j] && cs[j][i] !in cs[k];
      assert forall i :: 0 <= i < |cs[j]| ==> unchanged(cs[j][i]);
    }
    RemoveSeparate(cs, k, i);
  }

  lemma InsertSeparate(cs: seq<seq<ListHead>>, k: nat, i: nat, node: ListHead)
    requires Separate(cs) && k < |cs| && i <= |cs[k]|
    requires forall j :: 0 <= j < |cs| ==> node !in cs[j]
    ensures Separate(cs[k := InsertAt(cs[k], i, node)])
  {
    InsertMembers(cs[k], i, node);
  }

  lemma RemoveSeparate(cs: seq<seq<ListHead>>, k: nat, i: nat)
    requires Separate(cs) && k < |cs| && i < |cs[k]| && Distinct(cs[k])
    ensures Separate(cs[k := RemoveAt(cs[k], i)])
  {
    RemoveMembers(cs[k], i);
  }

  /** Deleting a node that was just added, wherever it was added, gives the old order back. */
  lemma InsertRemove<T>(s: seq<T>, i: nat, x: T)
    requires i <= |s|
    ensures RemoveAt(InsertAt(s, i, x), i) == s
  {
    assert InsertAt(s, i, x)[..i] == s[..i];
    assert InsertAt(s, i, x)[i + 1..] == s[i..];
  }
}
