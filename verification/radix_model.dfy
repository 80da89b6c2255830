/** The radix tree as a value: nodes of 512 words, eight levels, and what a key leads to. */
module RadixModel {

  const NODE_SIZE: nat := 512
  const LEVELS: nat := 8
  const KEYS: nat := 0x1_0000_0000_0000_0000

  /** Nodes are named by numbers, 0 being NULL; `place` is the way from the root to each node. */
  datatype Tree = Tree(root: nat, nodes: map<nat, seq<nat>>, place: map<nat, seq<nat>>)

  /** A word of an inner node is NULL or leads to the node one step further. */
  ghost predicate NodeOk(t: Tree, n: nat)
    requires n in t.nodes && n in t.place
  {
    && |t.nodes[n]| == NODE_SIZE && |t.place[n]| < LEVELS
    && (|t.place[n]| < LEVELS - 1 ==> forall i :: 0 <= i < NODE_SIZE ==> WordOk(t, n, i))
  }

  ghost predicate WordOk(t: Tree, n: nat, i: nat)
    requires n in t.nodes && n in t.place && i < |t.nodes[n]|
  {
    var c := t.nodes[n][i];
    c == 0 || (c in t.nodes && c in t.place && t.place[c] == t.place[n] + [i])
  }

  ghost predicate TreeOk(t: Tree) {
    && t.place.Keys == t.nodes.Keys && 0 !in t.nodes
    && (t.root != 0 ==> t.root in t.nodes && t.place[t.root] == [])
    && forall n :: n in t.nodes ==> NodeOk(t, n)
  }

  /** The word at the end of path p from node n; NULL if the path breaks off. */
  function Follow(nodes: map<nat, seq<nat>>, n: nat, p: seq<nat>): nat
    decreases |p|
  {
    if p == [] then n
    else if n !in nodes || p[0] >= |nodes[n]| then 0
    else Follow(nodes, nodes[n][p[0]], p[1..])
  }

  /** The n low digits of a key to the base 512, highest first. */
  function Path(key: nat, n: nat): (p: seq<nat>)
    ensures |p| == n && forall i :: 0 <= i < n ==> p[i] < NODE_SIZE
  {
    if n == 0 then [] else Path(key / NODE_SIZE, n - 1) + [key % NODE_SIZE]
  }

  function Get(t: Tree, key: nat): nat {
    Follow(t.nodes, t.root, Path(key, LEVELS))
  }

  function Limit(n: nat): nat {
    if n == 0 then 1 else NODE_SIZE * Limit(n - 1)
  }

  /** Different keys have different paths. */
  lemma {:induction false} PathInjective(x: nat, y: nat, n: nat)
    requires x < Limit(n) && y < Limit(n) && Path(x, n) == Path(y, n)
    ensures x == y
  {
    if n == 0 {
    } else {
      var p, q := Path(x / NODE_SIZE, n - 1), Path(y / NODE_SIZE, n - 1);
      assert Path(x, n)[..n - 1] == p && Path(y, n)[..n - 1] == q;
      assert Path(x, n)[n - 1] == x % NODE_SIZE && Path(y, n)[n - 1] == y % NODE_SIZE;
      PathInjective(x / NODE_SIZE, y / NODE_SIZE, n - 1);
    }
  }

  lemma KeysFit()
    ensures KEYS <= Limit(LEVELS)
  {
    assert Limit(2) == 0x40000;
    assert Limit(4) == 0x10_0000_0000;
    assert Limit(6) == 0x40_0000_0000_0000;
  }

  lemma {:induction false} FollowAppend(nodes: map<nat, seq<nat>>, n: nat, p: seq<nat>, q: seq<nat>)
    requires 0 !in nodes
    ensures Follow(nodes, n, p + q) == Follow(nodes, Follow(nodes, n, p), q)
    decreases |p|
  {
    if p == [] {
      assert p + q == q;
    } else {
      assert (p + q)[1..] == p[1..] + q;
      if n in nodes && p[0] < |nodes[n]| {
        FollowAppend(nodes, nodes[n][p[0]], p[1..], q);
      }
    }
  }

  /** Where a path of inner nodes ends. */
  lemma {:induction false} FollowPlace(t: Tree, n: nat, p: seq<nat>)
    requires TreeOk(t) && n in t.nodes && |t.place[n]| + |p| < LEVELS
    ensures var c := Follow(t.nodes, n, p);
            c == 0 || (c in t.nodes && t.place[c] == t.place[n] + p)
    decreases |p|
  {
    if p != [] {
      assert NodeOk(t, n);
      if p[0] < |t.nodes[n]| {
        var c := t.nodes[n][p[0]];
        assert WordOk(t, n, p[0]);
        assert p == [p[0]] + p[1..];
        if c != 0 {
          FollowPlace(t, c, p[1..]);
          assert t.place[n] + [p[0]] + p[1..] == t.place[n] + p;
        } else {
          NullEnds(t.nodes, p[1..]);
        }
      }
    } else {
      assert t.place[n] + p == t.place[n];
    }
  }

  lemma NullEnds(nodes: map<nat, seq<nat>>, p: seq<nat>)
    requires 0 !in nodes
    ensures Follow(nodes, 0, p) == 0
  {
  }

  // Storing a value.

  function Written(words: seq<nat>, k: nat, v: nat): seq<nat>
    requires k < |words|
  {
    words[k := v]
  }

  function StoreWord(t: Tree, n: nat, k: nat, v: nat): Tree
    requires n in t.nodes && k < |t.nodes[n]|
  {
    t.(nodes := t.nodes[n := Written(t.nodes[n], k, v)])
  }

  lemma StoreOk(t: Tree, n: nat, k: nat, v: nat)
    requires TreeOk(t) && n in t.nodes && k < |t.nodes[n]| && |t.place[n]| == LEVELS - 1
    ensures TreeOk(StoreWord(t, n, k, v))
  {
    var t' := StoreWord(t, n, k, v);
    forall m | m in t'.nodes
      ensures NodeOk(t', m)
    {
      assert NodeOk(t, m);
      if |t.place[m]| < LEVELS - 1 {
        forall i | 0 <= i < NODE_SIZE
          ensures WordOk(t', m, i)
        {
          assert WordOk(t, m, i);
        }
      }
    }
  }

  /** Inner paths do not depend on the words of leaves. */
  lemma {:induction false} StoreInner(t: Tree, n: nat, k: nat, v: nat, m: nat, p: seq<nat>)
    requires TreeOk(t) && n in t.nodes && k < |t.nodes[n]| && |t.place[n]| == LEVELS - 1
    requires m == 0 || (m in t.nodes && |t.place[m]| + |p| < LEVELS)
    ensures Follow(StoreWord(t, n, k, v).nodes, m, p) == Follow(t.nodes, m, p)
    decreases |p|
  {
    if p != [] && m in t.nodes && p[0] < |t.nodes[m]| {
      assert NodeOk(t, m) && m != n;
      assert WordOk(t, m, p[0]);
      StoreInner(t, n, k, v, t.nodes[m][p[0]], p[1..]);
    }
  }

  /** A store at the end of one path changes what that path leads to, and no other. */
  lemma StoreGets(t: Tree, n: nat, k: nat, v: nat, p: seq<nat>, q: seq<nat>)
    requires TreeOk(t) && n in t.nodes && k < NODE_SIZE && |p| == LEVELS - 1 && Follow(t.nodes, t.root, p) == n
             && t.root != 0
    requires |q| == LEVELS && q[LEVELS - 1] < NODE_SIZE
    ensures |t.nodes[n]| == NODE_SIZE && |t.place[n]| == LEVELS - 1
    ensures Follow(StoreWord(t, n, k, v).nodes, t.root, q) == if q == p + [k] then v else Follow(t.nodes, t.root, q)
  {
    FollowPlace(t, t.root, p);
    assert NodeOk(t, n);
    assert t.place[n] == p by {
      assert [] + p == p;
    }
    var t', q7, d := StoreWord(t, n, k, v), q[..LEVELS - 1], q[LEVELS - 1];
    assert q == q7 + [d];
    FollowAppend(t.nodes, t.root, q7, [d]);
    FollowAppend(t'.nodes, t.root, q7, [d]);
    StoreInner(t, n, k, v, t.root, q7);
    FollowPlace(t, t.root, q7);
    var m := Follow(t.nodes, t.root, q7);
    assert [] + q7 == q7;
    if m != 0 {
      assert NodeOk(t, m);
      assert Follow(t'.nodes, m, [d]) == t'.nodes[m][d] && Follow(t.nodes, m, [d]) == t.nodes[m][d];
      assert m == n <==> q7 == p;
    }
    assert q == p + [k] <==> q7 == p && d == k;
  }

  // Adding a node.

  function ZeroNode(): seq<nat> {
    seq(NODE_SIZE, i => 0)
  }

  function LinkNode(t: Tree, n: nat, k: nat, c: nat): Tree
    requires n in t.nodes && k < |t.nodes[n]| && n in t.place
  {
    t.(nodes := t.nodes[n := Written(t.nodes[n], k, c)][c := ZeroNode()], place := t.place[c := t.place[n] + [k]])
  }

  ghost predicate MayLink(t: Tree, n: nat, k: nat, c: nat) {
    && n in t.nodes && n in t.place && k < NODE_SIZE == |t.nodes[n]| && |t.place[n]| < LEVELS - 1
    && t.nodes[n][k] == 0 && c != 0 && c !in t.nodes
  }

  lemma LinkOk(t: Tree, n: nat, k: nat, c: nat)
    requires TreeOk(t) && MayLink(t, n, k, c)
    ensures TreeOk(LinkNode(t, n, k, c))
  {
    var t' := LinkNode(t, n, k, c);
    forall m | m in t'.nodes
      ensures NodeOk(t', m)
    {
      if m != c {
        assert NodeOk(t, m);
        if |t.place[m]| < LEVELS - 1 {
          forall i | 0 <= i < NODE_SIZE
            ensures WordOk(t', m, i)
          {
            assert WordOk(t, m, i);
          }
        }
      }
    }
  }

  /** A new empty node changes nothing that any path leads to. */
  lemma {:induction false} LinkGets(t: Tree, n: nat, k: nat, c: nat, m: nat, p: seq<nat>)
    requires TreeOk(t) && MayLink(t, n, k, c) && m in t.nodes && |t.place[m]| + |p| == LEVELS
    ensures Follow(LinkNode(t, n, k, c).nodes, m, p) == Follow(t.nodes, m, p)
    decreases |p|
  {
    var t' := LinkNode(t, n, k, c);
    assert NodeOk(t, m);
    if p != [] && p[0] < NODE_SIZE {
      var rest := p[1..];
      if m == n && p[0] == k {
        assert t'.nodes[m][k] == c;
        assert rest[0] < NODE_SIZE ==> t'.nodes[c][rest[0]] == 0;
        NullEnds(t.nodes, rest);
        NullEnds(t'.nodes, rest[1..]);
      } else if |t.place[m]| < LEVELS - 1 {
        assert WordOk(t, m, p[0]);
        if t.nodes[m][p[0]] == 0 {
          NullEnds(t.nodes, rest);
          NullEnds(t'.nodes, rest);
        } else {
          LinkGets(t, n, k, c, t.nodes[m][p[0]], rest);
        }
      } else {
        assert rest == [];
      }
    }
  }

  /** Paths that led to a node still do. */
  lemma {:induction false} LinkInner(t: Tree, n: nat, k: nat, c: nat, m: nat, p: seq<nat>)
    requires TreeOk(t) && MayLink(t, n, k, c) && m in t.nodes && |t.place[m]| + |p| < LEVELS
             && Follow(t.nodes, m, p) != 0
    ensures Follow(LinkNode(t, n, k, c).nodes, m, p) == Follow(t.nodes, m, p)
    decreases |p|
  {
    assert NodeOk(t, m);
    if p == [] {
    } else {
      assert WordOk(t, m, p[0]);
      if t.nodes[m][p[0]] == 0 {
        NullEnds(t.nodes, p[1..]);
      } else {
        LinkInner(t, n, k, c, t.nodes[m][p[0]], p[1..]);
      }
    }
  }
}
