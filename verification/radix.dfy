/** The radix tree: adding, looking up and deleting keys, and freeing what is stored. */
module Radix {
  import opened RadixModel

  const ENOMEM: int := 3
  const EINVAL: int := 5

  /** A stored value and the digits of its key. */
  datatype Entry = Entry(path: seq<nat>, value: nat)

  /** What is stored below node n in its words from i on, in the order of the words. */
  ghost function StoredFrom(t: Tree, n: nat, i: nat): seq<Entry>
    requires TreeOk(t) && n in t.nodes && i <= NODE_SIZE
    decreases LEVELS - |t.place[n]|, NODE_SIZE - i
  {
    assert NodeOk(t, n);
    if i == NODE_SIZE then [] else StoredAt(t, n, i) + StoredFrom(t, n, i + 1)
  }

  ghost function StoredAt(t: Tree, n: nat, i: nat): seq<Entry>
    requires TreeOk(t) && n in t.nodes && i < NODE_SIZE
    decreases LEVELS - |t.place[n]|, NODE_SIZE - i - 1, 1
  {
    assert NodeOk(t, n);
    var c := t.nodes[n][i];
    if c == 0 then []
    else if |t.place[n]| == LEVELS - 1 then [Entry(t.place[n] + [i], c)]
    else
      assert WordOk(t, n, i);
      StoredFrom(t, c, 0)
  }

  function Values(es: seq<Entry>): seq<nat> {
    if es == [] then [] else [es[0].value] + Values(es[1..])
  }

  lemma {:induction false} ValuesAppend(x: seq<Entry>, y: seq<Entry>)
    ensures Values(x + y) == Values(x) + Values(y)
  {
    if x == [] {
      assert x + y == y;
    } else {
      assert (x + y)[1..] == x[1..] + y;
      ValuesAppend(x[1..], y);
    }
  }

  /** The entry e lies below node n, in a word from i on. */
  ghost predicate Below(t: Tree, n: nat, i: nat, e: Entry)
    requires TreeOk(t) && n in t.nodes
  {
    assert NodeOk(t, n);
    var d := |t.place[n]|;
    && |e.path| == LEVELS && e.path[..d] == t.place[n] && i <= e.path[d] < NODE_SIZE
    && e.value != 0 && Follow(t.nodes, n, e.path[d..]) == e.value
  }

  lemma StoredEnd(t: Tree, n: nat)
    requires TreeOk(t) && n in t.nodes
    ensures Values(StoredFrom(t, n, NODE_SIZE)) == []
  {
  }

  lemma LeafStep(t: Tree, n: nat, i: nat, log: seq<nat>)
    requires TreeOk(t) && n in t.nodes && i < NODE_SIZE && |t.place[n]| == LEVELS - 1
    ensures |t.nodes[n]| == NODE_SIZE
    ensures log + Values(StoredFrom(t, n, i)) ==
            (if t.nodes[n][i] != 0 then log + [t.nodes[n][i]] else log) + Values(StoredFrom(t, n, i + 1))
  {
    assert NodeOk(t, n);
    ValuesAppend(StoredAt(t, n, i), StoredFrom(t, n, i + 1));
    assert t.nodes[n][i] != 0 ==> Values(StoredAt(t, n, i)) == [t.nodes[n][i]];
  }

  lemma InnerStep(t: Tree, n: nat, i: nat, log: seq<nat>)
    requires TreeOk(t) && n in t.nodes && i < NODE_SIZE && |t.place[n]| < LEVELS - 1
    ensures |t.nodes[n]| == NODE_SIZE
    ensures var c := t.nodes[n][i];
            if c == 0 then log + Values(StoredFrom(t, n, i)) == log + Values(StoredFrom(t, n, i + 1))
            else
              && c in t.nodes && |t.place[c]| == |t.place[n]| + 1
              && log + Values(StoredFrom(t, n, i)) ==
                 log + Values(StoredFrom(t, c, 0)) + Values(StoredFrom(t, n, i + 1))
  {
    assert NodeOk(t, n) && WordOk(t, n, i);
    ValuesAppend(StoredAt(t, n, i), StoredFrom(t, n, i + 1));
  }

  /** Following a path from n by its next digit. */
  lemma FollowOne(t: Tree, n: nat, p: seq<nat>)
    requires TreeOk(t) && n in t.nodes && p != [] && p[0] < NODE_SIZE
    ensures |t.nodes[n]| == NODE_SIZE && Follow(t.nodes, n, p) == Follow(t.nodes, t.nodes[n][p[0]], p[1..])
  {
    assert NodeOk(t, n);
  }

  lemma BelowChild(t: Tree, n: nat, i: nat, e: Entry)
    requires TreeOk(t) && n in t.nodes && i < NODE_SIZE && |t.place[n]| < LEVELS - 1
    requires |t.nodes[n]| == NODE_SIZE && t.nodes[n][i] in t.nodes && t.place[t.nodes[n][i]] == t.place[n] + [i]
    ensures Below(t, t.nodes[n][i], 0, e) <==> Below(t, n, i, e) && e.path[|t.place[n]|] == i
  {
    var c, d := t.nodes[n][i], |t.place[n]|;
    assert NodeOk(t, n);
    if |e.path| == LEVELS {
      assert e.path[..d + 1] == e.path[..d] + [e.path[d]];
      assert e.path[d..][1..] == e.path[d + 1..];
      assert t.place[c] == t.place[n] + [i];
      assert t.place[c][..d] == t.place[n] && t.place[c][d] == i;
      assert e.path[..d + 1][..d] == e.path[..d] && e.path[..d + 1][d] == e.path[d];
      if e.path[d] == i {
        FollowOne(t, n, e.path[d..]);
      }
      if e.value != 0 && Follow(t.nodes, c, e.path[d + 1..]) == e.value {
        DigitsInRange(t, c, e.path[d + 1..]);
      }
    }
  }

  /** A path that leads somewhere has digits only. */
  lemma DigitsInRange(t: Tree, n: nat, p: seq<nat>)
    requires TreeOk(t) && n in t.nodes && p != [] && Follow(t.nodes, n, p) != 0
    ensures p[0] < NODE_SIZE
  {
    assert NodeOk(t, n);
  }

  lemma {:induction false} StoredAtExact(t: Tree, n: nat, i: nat, e: Entry)
    requires TreeOk(t) && n in t.nodes && i < NODE_SIZE
    ensures |t.place[n]| < LEVELS
    ensures multiset(StoredAt(t, n, i))[e] == if Below(t, n, i, e) && e.path[|t.place[n]|] == i then 1 else 0
    decreases LEVELS - |t.place[n]|, NODE_SIZE - i - 1, 1
  {
    assert NodeOk(t, n);
    var c, d := t.nodes[n][i], |t.place[n]|;
    if |e.path| == LEVELS && e.path[d] == i {
      FollowOne(t, n, e.path[d..]);
      if c == 0 {
        NullEnds(t.nodes, e.path[d..][1..]);
      }
    }
    if c != 0 && d == LEVELS - 1 {
      LeafExact(t, n, i, e);
    } else if c != 0 {
      assert WordOk(t, n, i);
      BelowChild(t, n, i, e);
      StoredExact(t, c, 0, e);
    }
  }

  lemma LeafExact(t: Tree, n: nat, i: nat, e: Entry)
    requires TreeOk(t) && n in t.nodes && i < NODE_SIZE && |t.place[n]| == LEVELS - 1 && |t.nodes[n]| == NODE_SIZE
             && t.nodes[n][i] != 0
    ensures e == Entry(t.place[n] + [i], t.nodes[n][i]) <==> Below(t, n, i, e) && e.path[LEVELS - 1] == i
  {
    var d, p := LEVELS - 1, t.place[n] + [i];
    assert p[..d] == t.place[n] && p[d] == i;
    if |e.path| == LEVELS && e.path[d] == i {
      assert e.path == e.path[..d] + [e.path[d]];
      assert e.path[d..] == [i];
      FollowOne(t, n, [i]);
    }
    if e.path == p {
      assert p[d..] == [i];
      FollowOne(t, n, [i]);
    }
  }

  /** The list below a node names every key there with a value exactly once, and nothing else. */
  lemma {:induction false} StoredExact(t: Tree, n: nat, i: nat, e: Entry)
    requires TreeOk(t) && n in t.nodes && i <= NODE_SIZE
    ensures multiset(StoredFrom(t, n, i))[e] == if Below(t, n, i, e) then 1 else 0
    decreases LEVELS - |t.place[n]|, NODE_SIZE - i
  {
    assert NodeOk(t, n);
    if i < NODE_SIZE {
      StoredAtExact(t, n, i, e);
      StoredExact(t, n, i + 1, e);
    }
  }

  /** All that is stored in the tree. */
  ghost function Stored(t: Tree): seq<Entry>
    requires TreeOk(t)
  {
    if t.root == 0 then [] else StoredFrom(t, t.root, 0)
  }

  /** Each path with a value is in the list exactly once, with that value. */
  lemma StoredOnce(t: Tree, e: Entry)
    requires TreeOk(t)
    ensures multiset(Stored(t))[e] ==
            if |e.path| == LEVELS && e.value != 0 && Follow(t.nodes, t.root, e.path) == e.value then 1 else 0
  {
    if t.root != 0 {
      StoredExact(t, t.root, 0, e);
      assert |e.path| == LEVELS ==> e.path[..0] == [] && e.path[0..] == e.path;
      if |e.path| == LEVELS && e.value != 0 && Follow(t.nodes, t.root, e.path) == e.value {
        DigitsInRange(t, t.root, e.path);
      }
    } else if |e.path| == LEVELS {
      NullEnds(t.nodes, e.path);
    }
  }

  /** So for a key: its value is in the list exactly once if it has one, under the key's digits. */
  lemma StoredKey(t: Tree, key: nat, v: nat)
    requires TreeOk(t) && v != 0
    ensures multiset(Stored(t))[Entry(Path(key, LEVELS), v)] == if Get(t, key) == v then 1 else 0
  {
    StoredOnce(t, Entry(Path(key, LEVELS), v));
  }

  // The order of freeing.

  /** p comes before q: at the first digit where they differ it has the smaller one. */
  ghost predicate Before(p: seq<nat>, q: seq<nat>) {
    exists d :: 0 <= d < |p| && d < |q| && p[..d] == q[..d] && p[d] < q[d]
  }

  ghost predicate Ascending(es: seq<Entry>) {
    forall i, j :: 0 <= i < j < |es| ==> Before(es[i].path, es[j].path)
  }

  lemma AscendingJoin(x: seq<Entry>, y: seq<Entry>, p: seq<nat>, i: nat)
    requires Ascending(x) && Ascending(y)
    requires forall e :: e in x ==> |e.path| > |p| && e.path[..|p|] == p && e.path[|p|] == i
    requires forall e :: e in y ==> |e.path| > |p| && e.path[..|p|] == p && e.path[|p|] > i
    ensures Ascending(x + y)
  {
    var es := x + y;
    forall a, b | 0 <= a < b < |es|
      ensures Before(es[a].path, es[b].path)
    {
      assert a < |x| ==> es[a] in x;
      assert b >= |x| ==> es[b] in y;
      assert b >= |x| && a >= |x| ==> es[a] == y[a - |x|] && es[b] == y[b - |x|];
    }
  }

  lemma AscendingAt(t: Tree, n: nat, i: nat)
    requires TreeOk(t) && n in t.nodes && i < NODE_SIZE
    ensures Ascending(StoredAt(t, n, i))
    decreases LEVELS - |t.place[n]|, NODE_SIZE - i - 1, 1
  {
    assert NodeOk(t, n);
    hide Ascending;
    if t.nodes[n][i] != 0 && |t.place[n]| < LEVELS - 1 {
      assert WordOk(t, n, i);
      AscendingFrom(t, t.nodes[n][i], 0);
    } else {
      AscendingOne(StoredAt(t, n, i));
    }
  }

  lemma AscendingOne(es: seq<Entry>)
    requires |es| <= 1
    ensures Ascending(es)
  {
  }

  lemma {:induction false} AscendingFrom(t: Tree, n: nat, i: nat)
    requires TreeOk(t) && n in t.nodes && i <= NODE_SIZE
    ensures Ascending(StoredFrom(t, n, i))
    decreases LEVELS - |t.place[n]|, NODE_SIZE - i
  {
    assert NodeOk(t, n);
    hide Ascending;
    if i == NODE_SIZE {
      AscendingOne([]);
    } else {
      AscendingAt(t, n, i);
      AscendingFrom(t, n, i + 1);
      forall e | e in StoredAt(t, n, i)
        ensures Below(t, n, i, e) && e.path[|t.place[n]|] == i
      {
        StoredAtExact(t, n, i, e);
      }
      var rest, next := StoredFrom(t, n, i + 1), i + 1;
      forall e | e in rest
        ensures Below(t, n, next, e)
      {
        StoredExact(t, n, next, e);
      }
      AscendingJoin(StoredAt(t, n, i), rest, t.place[n], i);
    }
  }

  lemma {:induction false} PathOrder(x: nat, y: nat, n: nat)
    requires x < Limit(n) && y < Limit(n) && Before(Path(x, n), Path(y, n))
    ensures x < y
  {
    var p, q := Path(x, n), Path(y, n);
    var d :| 0 <= d < |p| && d < |q| && p[..d] == q[..d] && p[d] < q[d];
    var p1, q1 := Path(x / NODE_SIZE, n - 1), Path(y / NODE_SIZE, n - 1);
    assert p == p1 + [x % NODE_SIZE] && q == q1 + [y % NODE_SIZE];
    if d == n - 1 {
      assert p[..d] == p1 && q[..d] == q1;
      PathInjective(x / NODE_SIZE, y / NODE_SIZE, n - 1);
    } else {
      assert p1[..d] == p[..d] && q1[..d] == q[..d] && p1[d] == p[d] && q1[d] == q[d];
      PathOrder(x / NODE_SIZE, y / NODE_SIZE, n - 1);
    }
  }

  /** radix_free goes through the keys in ascending order. */
  lemma StoredInOrder(t: Tree, i: nat, j: nat, x: nat, y: nat)
    requires TreeOk(t) && i < j < |Stored(t)| && x < KEYS && y < KEYS
    requires Stored(t)[i].path == Path(x, LEVELS) && Stored(t)[j].path == Path(y, LEVELS)
    ensures x < y
  {
    hide StoredFrom, Path, Limit, Before;
    AscendingFrom(t, t.root, 0);
    KeysFit();
    PathOrder(x, y, LEVELS);
  }

  class Radix {
    var root: nat
    var nodes: map<nat, seq<nat>>
    const hasDeleter: bool
    /** The calls of value_deleter, in order. */
    var deleted: seq<nat>
    ghost var place: map<nat, seq<nat>>

    ghost function View(): Tree
      reads this
    {
      Tree(root, nodes, place)
    }

    ghost predicate Valid()
      reads this
    {
      TreeOk(View())
    }

    /** new_radix, or init_radix with a root node. */
    constructor (rootNode: nat, hasDeleter: bool)
      ensures Valid() && this.hasDeleter == hasDeleter && deleted == [] && root == rootNode
      ensures forall key :: 0 <= key < KEYS ==> Get(View(), key) == 0
    {
      this.hasDeleter := hasDeleter;
      root := rootNode;
      nodes := if rootNode == 0 then map[] else map[rootNode := ZeroNode()];
      place := if rootNode == 0 then map[] else map[rootNode := []];
      deleted := [];
      new;
      EmptyTree(rootNode);
    }

    /** The digits of a key, lowest first, as both loops compute them. */
    method Digits(key: nat) returns (index: array<nat>)
      ensures fresh(index) && index.Length == LEVELS
      ensures forall i :: 0 <= i < LEVELS ==> index[i] == Path(key, LEVELS)[LEVELS - 1 - i]
    {
      index := new nat[LEVELS](i => 0);
      var rest: nat := key;
      var i: nat := 0;
      while i < LEVELS
        invariant 0 <= i <= LEVELS
        invariant Path(key, LEVELS)[..LEVELS - i] == Path(rest, LEVELS - i)
        invariant forall j :: 0 <= j < i ==> index[j] == Path(key, LEVELS)[LEVELS - 1 - j]
      {
        ghost var p := Path(rest, LEVELS - i);
        assert p[..LEVELS - i - 1] == Path(rest / NODE_SIZE, LEVELS - i - 1) && p[LEVELS - i - 1] == rest % NODE_SIZE;
        index[i] := rest % NODE_SIZE;
        rest := rest / NODE_SIZE;
        i := i + 1;
      }
    }

    /** The first root node. */
    method AddRoot(supply: seq<nat>)
      requires Valid() && root == 0 && supply != [] && supply[0] != 0 && Supply(View(), supply)
      modifies `root, `nodes, `place
      ensures Valid() && SameGets(old(View()), View()) && root == supply[0]
      ensures root in nodes && root in place && place[root] == [] && Supply(View(), supply[1..])
    {
      hide SameGets;
      ghost var t := View();
      root := supply[0];
      nodes := nodes[supply[0] := ZeroNode()];
      place := place[supply[0] := []];
      RootSame(t, supply[0]);
    }

    /** A new empty node below node n. */
    method LinkBelow(ghost t0: Tree, n: nat, k: nat, supply: seq<nat>, ghost p: seq<nat>)
      requires Valid() && supply != [] && Supply(View(), supply) && SameGets(t0, View()) && root != 0
      requires MayLink(View(), n, k, supply[0]) && |p| == |place[n]| && Follow(nodes, root, p) == n
      modifies `nodes, `place
      ensures Valid() && SameGets(t0, View()) && Supply(View(), supply[1..])
      ensures n in nodes && k < |nodes[n]| && nodes[n][k] == supply[0] && supply[0] in nodes && supply[0] in place
      ensures |place[supply[0]]| == |p| + 1 && Follow(nodes, root, p + [k]) == supply[0]
    {
      hide SameGets;
      ghost var t, c := View(), supply[0];
      LinkSame(t0, t, n, k, c, p);
      LinkSupply(t, n, k, c, supply);
      nodes := nodes[n := Written(nodes[n], k, supply[0])][supply[0] := ZeroNode()];
      place := place[c := place[n] + [k]];
      assert View() == LinkNode(t, n, k, c);
    }

    /** radix_add; the new nodes are taken from `supply`. */
    method RadixAdd(key: nat, value: nat, supply: seq<nat>) returns (r: int)
      requires Valid() && key < KEYS && Supply(View(), supply)
      modifies `root, `nodes, `place
      ensures Valid() && Added(old(View()), View(), key, value, r)
      ensures |supply| >= LEVELS && (forall j :: 0 <= j < LEVELS ==> supply[j] != 0) ==> r == 0
    {
      hide SameGets, Added, Path;
      ghost var t0 := View();
      SameSelf(t0);
      var used := 0;
      if root == 0 {
        if |supply| == 0 || supply[0] == 0 {
          SameAdds(t0, t0, key, value);
          return -ENOMEM;
        }
        AddRoot(supply);
        used := 1;
      }
      var node := root;
      var index := Digits(key);
      ghost var p := Path(key, LEVELS);
      var i := LEVELS - 1;
      while i > 0
        invariant 0 <= i < LEVELS && Valid() && SameGets(t0, View()) && root != 0
        invariant node in nodes && |place[node]| == LEVELS - 1 - i && Follow(nodes, root, p[..LEVELS - 1 - i]) == node
        invariant used <= |supply| && used + i <= LEVELS && Supply(View(), supply[used..])
        invariant forall j :: 0 <= j < LEVELS ==> index[j] == p[LEVELS - 1 - j]
      {
        var k := index[i];
        assert NodeOk(View(), node) && WordOk(View(), node, k);
        assert p[..LEVELS - i] == p[..LEVELS - 1 - i] + [k];
        if nodes[node][k] == 0 {
          if used == |supply| || supply[used] == 0 {
            SameAdds(t0, View(), key, value);
            return -ENOMEM;
          }
          assert supply[used..][0] == supply[used] && supply[used..][1..] == supply[used + 1..];
          LinkBelow(t0, node, k, supply[used..], p[..LEVELS - 1 - i]);
          used := used + 1;
        } else {
          FollowAppend(nodes, root, p[..LEVELS - 1 - i], [k]);
        }
        node := nodes[node][k];
        i := i - 1;
      }
      StoreAdds(t0, View(), node, key, value);
      nodes := nodes[node := Written(nodes[node], index[0], value)];
      return 0;
    }

    /** radix_del: an addition of NULL. */
    method RadixDel(key: nat, supply: seq<nat>) returns (r: int)
      requires Valid() && key < KEYS && Supply(View(), supply)
      modifies `root, `nodes, `place
      ensures Valid() && Added(old(View()), View(), key, 0, r)
    {
      r := RadixAdd(key, 0, supply);
    }

    /** radix_free_node. */
    method FreeNode(node: nat, level: nat)
      requires Valid() && node in nodes && |place[node]| == level
      modifies `deleted
      ensures deleted == old(deleted) + if hasDeleter then Values(StoredFrom(View(), node, 0)) else []
      decreases LEVELS - level
    {
      hide StoredFrom, StoredAt, Values;
      ghost var t := View();
      assert NodeOk(t, node);
      var i: nat := 0;
      if level == LEVELS - 1 {
        if hasDeleter {
          while i < NODE_SIZE
            invariant i <= NODE_SIZE && View() == t
            invariant old(deleted) + Values(StoredFrom(t, node, 0)) == deleted + Values(StoredFrom(t, node, i))
          {
            LeafStep(t, node, i, deleted);
            if nodes[node][i] != 0 {
              deleted := deleted + [nodes[node][i]];
            }
            i := i + 1;
          }
          StoredEnd(t, node);
        }
      } else {
        while i < NODE_SIZE
          invariant i <= NODE_SIZE && View() == t
          invariant if hasDeleter
                    then old(deleted) + Values(StoredFrom(t, node, 0)) == deleted + Values(StoredFrom(t, node, i))
                    else deleted == old(deleted)
        {
          InnerStep(t, node, i, deleted);
          if nodes[node][i] != 0 {
            FreeNode(nodes[node][i], level + 1);
          }
          i := i + 1;
        }
        StoredEnd(t, node);
      }
    }

    /** radix_free: the deleter is called with every stored value, once for each key. */
    method RadixFree() returns (r: int)
      requires Valid()
      modifies `deleted
      ensures r == if root == 0 then -EINVAL else 0
      ensures deleted == old(deleted) + if hasDeleter then Values(Stored(View())) else []
    {
      if root == 0 {
        return -EINVAL;
      }
      FreeNode(root, 0);
      return 0;
    }

    /** radix_get. */
    method RadixGet(key: nat) returns (value: nat)
      requires Valid() && key < KEYS
      ensures value == Get(View(), key)
    {
      ghost var p := Path(key, LEVELS);
      if root == 0 {
        NullEnds(nodes, p);
        return 0;
      }
      var node := root;
      var index := Digits(key);
      var i := LEVELS - 1;
      assert p[LEVELS - 1 - i..] == p;
      while i > 0
        invariant 0 <= i < LEVELS && node in nodes && |place[node]| == LEVELS - 1 - i
        invariant Follow(nodes, node, p[LEVELS - 1 - i..]) == Get(View(), key)
      {
        var k := index[i];
        assert NodeOk(View(), node) && WordOk(View(), node, k);
        assert p[LEVELS - 1 - i..][1..] == p[LEVELS - i..];
        if nodes[node][k] == 0 {
          NullEnds(nodes, p[LEVELS - i..]);
          return 0;
        }
        node := nodes[node][k];
        i := i - 1;
      }
      assert NodeOk(View(), node);
      assert p[LEVELS - 1..] == [index[0]];
      value := nodes[node][index[0]];
    }
  }

  /** What radix_add did to the tree: v is stored under key, or nothing if the result is an error. */
  ghost predicate Added(t: Tree, t': Tree, key: nat, v: nat, r: int) {
    && (r == 0 || r == -ENOMEM)
    && forall x :: 0 <= x < KEYS ==> Get(t', x) == if x == key && r == 0 then v else Get(t, x)
  }

  /** The addresses that the allocator will return, 0 where it fails. */
  ghost predicate Supply(t: Tree, supply: seq<nat>) {
    && (forall j :: 0 <= j < |supply| ==> supply[j] !in t.nodes)
    && forall i, j :: 0 <= i < j < |supply| && supply[i] != 0 ==> supply[i] != supply[j]
  }

  /** All paths lead where they led in t. */
  ghost predicate SameGets(t: Tree, t': Tree) {
    forall q: seq<nat> :: |q| == LEVELS ==> Follow(t'.nodes, t'.root, q) == Follow(t.nodes, t.root, q)
  }

  lemma LinkSame(t0: Tree, t: Tree, n: nat, k: nat, c: nat, p: seq<nat>)
    requires TreeOk(t) && MayLink(t, n, k, c) && SameGets(t0, t) && t.root != 0
    requires |p| == |t.place[n]| && Follow(t.nodes, t.root, p) == n
    ensures var t' := LinkNode(t, n, k, c);
            TreeOk(t') && SameGets(t0, t') && Follow(t'.nodes, t.root, p + [k]) == c
  {
    var t' := LinkNode(t, n, k, c);
    LinkOk(t, n, k, c);
    forall q: seq<nat> | |q| == LEVELS
      ensures Follow(t'.nodes, t'.root, q) == Follow(t.nodes, t.root, q)
    {
      LinkGets(t, n, k, c, t.root, q);
    }
    LinkInner(t, n, k, c, t.root, p);
    FollowAppend(t'.nodes, t.root, p, [k]);
    assert NodeOk(t', n);
    assert Follow(t'.nodes, n, [k]) == t'.nodes[n][k];
  }

  lemma SameAdds(t: Tree, t': Tree, key: nat, v: nat)
    requires SameGets(t, t')
    ensures Added(t, t', key, v, -ENOMEM)
  {
  }

  lemma SameSelf(t: Tree)
    ensures SameGets(t, t)
  {
  }

  /** A first, empty root node changes nothing. */
  lemma RootSame(t: Tree, c: nat)
    requires TreeOk(t) && t.root == 0 && c != 0 && c !in t.nodes
    ensures var t' := Tree(c, t.nodes[c := ZeroNode()], t.place[c := []]);
            TreeOk(t') && SameGets(t, t')
  {
    var t' := Tree(c, t.nodes[c := ZeroNode()], t.place[c := []]);
    forall m | m in t'.nodes
      ensures NodeOk(t', m)
    {
      if m != c {
        assert NodeOk(t, m);
        forall i | 0 <= i < NODE_SIZE && |t.place[m]| < LEVELS - 1
          ensures WordOk(t', m, i)
        {
          assert WordOk(t, m, i);
        }
      }
    }
    forall q: seq<nat> | |q| == LEVELS
      ensures Follow(t'.nodes, c, q) == Follow(t.nodes, 0, q)
    {
      NullEnds(t.nodes, q);
      NullEnds(t'.nodes, q[1..]);
    }
  }

  lemma LinkSupply(t: Tree, n: nat, k: nat, c: nat, supply: seq<nat>)
    requires n in t.nodes && n in t.place && k < |t.nodes[n]| && supply != [] && supply[0] == c && c != 0
             && Supply(t, supply)
    ensures Supply(LinkNode(t, n, k, c), supply[1..])
  {
  }

  lemma StoreAdds(t0: Tree, t: Tree, n: nat, key: nat, v: nat)
    requires TreeOk(t) && SameGets(t0, t) && t.root != 0 && n in t.nodes && key < KEYS
    requires Follow(t.nodes, t.root, Path(key, LEVELS)[..LEVELS - 1]) == n
    ensures |t.nodes[n]| == NODE_SIZE && TreeOk(StoreWord(t, n, Path(key, LEVELS)[LEVELS - 1], v))
    ensures Added(t0, StoreWord(t, n, Path(key, LEVELS)[LEVELS - 1], v), key, v, 0)
  {
    var p := Path(key, LEVELS);
    var k := p[LEVELS - 1];
    assert p == p[..LEVELS - 1] + [k];
    StoreGets(t, n, k, v, p[..LEVELS - 1], p);
    StoreOk(t, n, k, v);
    KeysFit();
    forall x | 0 <= x < KEYS
      ensures Get(StoreWord(t, n, k, v), x) == if x == key then v else Get(t0, x)
    {
      StoreGets(t, n, k, v, p[..LEVELS - 1], Path(x, LEVELS));
      if Path(x, LEVELS) == p {
        PathInjective(x, key, LEVELS);
      }
    }
  }

  // Runs.

  /** An addition with its result; a deletion adds 0. */
  datatype Op = Op(key: nat, value: nat, r: int)

  ghost predicate Run(ts: seq<Tree>, ops: seq<Op>) {
    && |ts| == |ops| + 1 && (forall x :: 0 <= x < KEYS ==> Get(ts[0], x) == 0)
    && forall k :: 0 <= k < |ops| ==> Added(ts[k], ts[k + 1], ops[k].key, ops[k].value, ops[k].r)
  }

  /** The map that the successful operations describe. */
  function Replay(ops: seq<Op>, x: nat): nat {
    if ops == [] then 0
    else
      var last := ops[|ops| - 1];
      if last.key == x && last.r == 0 then last.value else Replay(ops[..|ops| - 1], x)
  }

  /** After any run, additions that ran out of memory half way included, every key leads to what the map says. */
  lemma {:induction false} RunRefines(ts: seq<Tree>, ops: seq<Op>, x: nat)
    requires Run(ts, ops) && x < KEYS
    ensures Get(ts[|ops|], x) == Replay(ops, x)
    decreases |ops|
  {
    hide Get;
    if ops == [] {
    } else {
      var n := |ops| - 1;
      assert Added(ts[n], ts[n + 1], ops[n].key, ops[n].value, ops[n].r);
      assert Run(ts[..n + 1], ops[..n]) by {
        forall k | 0 <= k < n
          ensures Added(ts[..n + 1][k], ts[..n + 1][k + 1], ops[..n][k].key, ops[..n][k].value, ops[..n][k].r)
        {
          assert Added(ts[k], ts[k + 1], ops[k].key, ops[k].value, ops[k].r);
        }
      }
      RunRefines(ts[..n + 1], ops[..n], x);
    }
  }

  lemma EmptyTree(root: nat)
    ensures var t := if root == 0 then Tree(0, map[], map[]) else Tree(root, map[root := ZeroNode()], map[root := []]);
            TreeOk(t) && forall key :: 0 <= key < KEYS ==> Get(t, key) == 0
  {
    var t := if root == 0 then Tree(0, map[], map[]) else Tree(root, map[root := ZeroNode()], map[root := []]);
    forall key | 0 <= key < KEYS
      ensures Get(t, key) == 0
    {
      var p := Path(key, LEVELS);
      NullEnds(t.nodes, p);
      NullEnds(t.nodes, p[1..]);
    }
  }
}
