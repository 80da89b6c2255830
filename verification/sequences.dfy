/** Sequences without repetition, and inserting and removing elements. */
module Sequences {

  ghost predicate Distinct<T>(s: seq<T>) {
    forall i, j :: 0 <= i < j < |s| ==> s[i] != s[j]
  }

  function InsertAt<T>(s: seq<T>, i: nat, x: T): (r: seq<T>)
    requires i <= |s|
    ensures |r| == |s| + 1
  {
    s[..i] + [x] + s[i..]
  }

  function RemoveAt<T>(s: seq<T>, i: nat): (r: seq<T>)
    requires i < |s|
    ensures |r| == |s| - 1
  {
    s[..i] + s[i + 1..]
  }

  lemma InsertMembers<T>(s: seq<T>, i: nat, x: T)
    requires i <= |s|
    ensures forall y :: y in InsertAt(s, i, x) <==> y == x || y in s
  {
    var r := InsertAt(s, i, x);
    assert r[i] == x;
    assert forall j :: 0 <= j < i ==> r[j] == s[j];
    assert forall j :: i <= j < |s| ==> r[j + 1] == s[j];
  }

  lemma RemoveMembers<T>(s: seq<T>, i: nat)
    requires i < |s| && Distinct(s)
    ensures forall y :: y in RemoveAt(s, i) <==> y in s && y != s[i]
  {
    var r := RemoveAt(s, i);
    assert forall j :: 0 <= j < i ==> r[j] == s[j];
    assert forall j :: i < j < |s| ==> r[j - 1] == s[j];
  }

  /** Where x is in s; |s| if it is nowhere. */
  function IndexOf<T(==)>(s: seq<T>, x: T): (i: nat)
    ensures i <= |s| && (i < |s| ==> s[i] == x) && forall j :: 0 <= j < i ==> s[j] != x
  {
    if s == [] then 0 else if s[0] == x then 0 else 1 + IndexOf(s[1..], x)
  }

  /** s without the first x in it. */
  function Remove<T(==)>(s: seq<T>, x: T): seq<T> {
    var i := IndexOf(s, x);
    if i < |s| then RemoveAt(s, i) else s
  }

  lemma InsertOk<T>(s: seq<T>, i: nat, x: T)
    requires i <= |s| && Distinct(s) && x !in s
    ensures Distinct(InsertAt(s, i, x)) && forall y :: y in InsertAt(s, i, x) <==> y in s || y == x
  {
    var p := InsertAt(s, i, x);
    assert forall j :: 0 <= j < |p| ==> p[j] == if j < i then s[j] else if j == i then x else s[j - 1];
    InsertMembers(s, i, x);
  }

  lemma RemoveOk<T>(s: seq<T>, x: T)
    requires Distinct(s) && x in s
    ensures Distinct(Remove(s, x)) && |Remove(s, x)| == |s| - 1
    ensures forall y :: y in Remove(s, x) <==> y in s && y != x
  {
    var p, i := Remove(s, x), IndexOf(s, x);
    assert i < |s|;
    assert forall j :: 0 <= j < |p| ==> p[j] == if j < i then s[j] else s[j + 1];
    RemoveMembers(s, i);
  }

  /** Removing an element just inserted gives the old sequence back. */
  lemma RemoveInserted<T>(s: seq<T>, i: nat, x: T)
    requires i <= |s| && x !in s
    ensures Remove(InsertAt(s, i, x), x) == s
  {
    var p := InsertAt(s, i, x);
    assert p[i] == x;
    assert forall j :: 0 <= j < i ==> p[j] == s[j];
    assert IndexOf(p, x) == i;
  }

  lemma RemoveFirst<T>(s: seq<T>)
    requires s != []
    ensures Remove(s, s[0]) == s[1..]
  {
    assert IndexOf(s, s[0]) == 0;
  }
}
