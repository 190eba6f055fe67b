/**
 * Circular doubly linked lists threaded through the blocks of a pool, as values.
 * Both the price levels of a side and the orders of a level are such lists.
 */
module Rings {
  import opened Pools
  import opened Sequences

  datatype Node<T> = Node(data: T, prev: Ptr, next: Ptr)

  function Succ(i: nat, n: nat): nat
    requires i < n
  {
    if i + 1 == n then 0 else i + 1
  }

  function Pred(i: nat, n: nat): nat
    requires i < n
  {
    if i == 0 then n - 1 else i - 1
  }

  ghost predicate Addresses<T>(st: seq<Node<T>>, s: seq<Ptr>) {
    && (forall i :: 0 <= i < |s| ==> 0 <= s[i] < |st|)
    && (forall i, j :: 0 <= i < j < |s| ==> s[i] != s[j])
  }

  ghost predicate LinkedAt<T>(st: seq<Node<T>>, s: seq<Ptr>, i: nat)
    requires Addresses(st, s) && i < |s|
  {
    st[s[i]].next == s[Succ(i, |s|)] && st[s[i]].prev == s[Pred(i, |s|)]
  }

  /** The nodes at s, in that order, form one circular list. */
  ghost predicate Ring<T>(st: seq<Node<T>>, s: seq<Ptr>) {
    && Addresses(st, s)
    && forall i :: 0 <= i < |s| ==> LinkedAt(st, s, i)
  }

  /** Node p placed between neighbours a and b, which are one node when the list has one. */
  function Splice<T>(st: seq<Node<T>>, p: Ptr, a: Ptr, b: Ptr): (r: seq<Node<T>>)
    requires 0 <= p < |st| && 0 <= a < |st| && 0 <= b < |st|
    requires p != a && p != b
    ensures |r| == |st|
    ensures forall i :: 0 <= i < |st| ==> r[i].data == st[i].data
    ensures forall i :: 0 <= i < |st| && i != p && i != a && i != b ==> r[i] == st[i]
    ensures forall i :: 0 <= i < |st| && i != p ==> r[i].next == if i == a then p else st[i].next
    ensures forall i :: 0 <= i < |st| && i != p ==> r[i].prev == if i == b then p else st[i].prev
    ensures r[p].prev == a && r[p].next == b
  {
    var s1 := st[p := st[p].(prev := a, next := b)];
    var s2 := s1[a := s1[a].(next := p)];
    s2[b := s2[b].(prev := p)]
  }

  lemma RingSplice<T>(st: seq<Node<T>>, s: seq<Ptr>, k: nat, p: Ptr, a: Ptr, b: Ptr)
    requires Ring(st, s) && s != [] && k <= |s|
    requires 0 <= p < |st| && p !in s
    requires a == s[if k == 0 then |s| - 1 else k - 1]
    requires b == s[if k == |s| then 0 else k]
    ensures Ring(Splice(st, p, a, b), InsertAt(s, k, p))
  {
    hide Splice;
    var r, t := Splice(st, p, a, b), InsertAt(s, k, p);
    forall i | 0 <= i < |t|
      ensures LinkedAt(r, t, i)
    {
      SpliceNext(st, s, k, p, a, b, i);
      SplicePrev(st, s, k, p, a, b, i);
    }
  }

  lemma SpliceNext<T>(st: seq<Node<T>>, s: seq<Ptr>, k: nat, p: Ptr, a: Ptr, b: Ptr, i: nat)
    requires Ring(st, s) && s != [] && k <= |s| && i <= |s|
    requires 0 <= p < |st| && p !in s
    requires a == s[if k == 0 then |s| - 1 else k - 1]
    requires b == s[if k == |s| then 0 else k]
    ensures var t := InsertAt(s, k, p); Splice(st, p, a, b)[t[i]].next == t[Succ(i, |t|)]
  {
    hide Splice;
    if i != k {
      var o := if i < k then i else i - 1;
      var ia := if k == 0 then |s| - 1 else k - 1;
      assert LinkedAt(st, s, o);
      assert s[o] == a <==> o == ia;
    }
  }

  lemma SplicePrev<T>(st: seq<Node<T>>, s: seq<Ptr>, k: nat, p: Ptr, a: Ptr, b: Ptr, i: nat)
    requires Ring(st, s) && s != [] && k <= |s| && i <= |s|
    requires 0 <= p < |st| && p !in s
    requires a == s[if k == 0 then |s| - 1 else k - 1]
    requires b == s[if k == |s| then 0 else k]
    ensures var t := InsertAt(s, k, p); Splice(st, p, a, b)[t[i]].prev == t[Pred(i, |t|)]
  {
    hide Splice;
    if i != k {
      var o := if i < k then i else i - 1;
      var ib := if k == |s| then 0 else k;
      assert LinkedAt(st, s, o);
      assert s[o] == b <==> o == ib;
    }
  }

  /** Node p taken out: its neighbours point at each other and its own links are cleared. */
  function Unsplice<T>(st: seq<Node<T>>, p: Ptr): (r: seq<Node<T>>)
    requires 0 <= p < |st| && 0 <= st[p].prev < |st| && 0 <= st[p].next < |st|
    requires st[p].prev != p && st[p].next != p
    ensures |r| == |st|
    ensures forall i :: 0 <= i < |st| ==> r[i].data == st[i].data
    ensures forall i :: 0 <= i < |st| && i != p && i != st[p].prev && i != st[p].next ==> r[i] == st[i]
    ensures forall i :: 0 <= i < |st| && i != p ==> r[i].next == if i == st[p].prev then st[p].next else st[i].next
    ensures forall i :: 0 <= i < |st| && i != p ==> r[i].prev == if i == st[p].next then st[p].prev else st[i].prev
  {
    var a, b := st[p].prev, st[p].next;
    var s1 := st[a := st[a].(next := b)];
    var s2 := s1[b := s1[b].(prev := a)];
    s2[p := s2[p].(prev := NULL, next := NULL)]
  }

  lemma RingNeighbours<T>(st: seq<Node<T>>, s: seq<Ptr>, k: nat)
    requires Ring(st, s) && k < |s|
    ensures Addresses(st, s) && 0 <= st[s[k]].prev < |st| && 0 <= st[s[k]].next < |st|
  {
    assert LinkedAt(st, s, k);
  }

  lemma RingUnsplice<T>(st: seq<Node<T>>, s: seq<Ptr>, k: nat)
    requires Ring(st, s) && k < |s| && 1 < |s|
    ensures st[s[k]].prev == s[Pred(k, |s|)] != s[k] && st[s[k]].next == s[Succ(k, |s|)] != s[k]
    ensures Ring(Unsplice(st, s[k]), RemoveAt(s, k))
  {
    assert LinkedAt(st, s, k);
    var r, t := Unsplice(st, s[k]), RemoveAt(s, k);
    forall i | 0 <= i < |t|
      ensures LinkedAt(r, t, i)
    {
      UnspliceLinks(st, s, k, i);
    }
  }

  lemma UnspliceLinks<T>(st: seq<Node<T>>, s: seq<Ptr>, k: nat, i: nat)
    requires Ring(st, s) && k < |s| && i + 1 < |s|
    requires st[s[k]].prev == s[Pred(k, |s|)] != s[k] && st[s[k]].next == s[Succ(k, |s|)] != s[k]
    ensures var r, t := Unsplice(st, s[k]), RemoveAt(s, k);
            r[t[i]].next == t[Succ(i, |t|)] && r[t[i]].prev == t[Pred(i, |t|)]
  {
    var o := if i < k then i else i + 1;
    assert LinkedAt(st, s, o);
    assert s[o] == s[Pred(k, |s|)] <==> o == Pred(k, |s|);
    assert s[o] == s[Succ(k, |s|)] <==> o == Succ(k, |s|);
  }

  /** A list depends only on the links of its own nodes. */
  lemma RingFrame<T>(st: seq<Node<T>>, r: seq<Node<T>>, s: seq<Ptr>)
    requires Ring(st, s) && |r| == |st|
    requires forall i :: 0 <= i < |s| ==> r[s[i]].next == st[s[i]].next && r[s[i]].prev == st[s[i]].prev
    ensures Ring(r, s)
  {
    forall i | 0 <= i < |s|
      ensures LinkedAt(r, s, i)
    {
      assert LinkedAt(st, s, i);
    }
  }

  /** A list of one node is the only one whose node is its own neighbour. */
  lemma Alone<T>(st: seq<Node<T>>, s: seq<Ptr>, k: nat)
    requires Ring(st, s) && k < |s|
    ensures st[s[k]].prev == s[k] <==> |s| == 1
    ensures st[s[k]].next == s[k] <==> |s| == 1
  {
    assert LinkedAt(st, s, k);
  }
}
