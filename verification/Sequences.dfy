/** Inserting into and removing from a sequence by position. */
module Sequences {

  function InsertAt<T>(s: seq<T>, k: nat, x: T): (t: seq<T>)
    requires k <= |s|
    ensures |t| == |s| + 1 && t[k] == x
    ensures forall i :: 0 <= i < k ==> t[i] == s[i]
    ensures forall i :: k < i < |t| ==> t[i] == s[i - 1]
  {
    s[..k] + [x] + s[k..]
  }

  function RemoveAt<T>(s: seq<T>, k: nat): (t: seq<T>)
    requires k < |s|
    ensures |t| == |s| - 1
    ensures forall i :: 0 <= i < k ==> t[i] == s[i]
    ensures forall i :: k <= i < |t| ==> t[i] == s[i + 1]
  {
    s[..k] + s[k + 1..]
  }

  lemma InsertMembers<T>(s: seq<T>, k: nat, x: T, y: T)
    requires k <= |s|
    ensures y in InsertAt(s, k, x) <==> y == x || y in s
  {
  }

  lemma RemoveMembers<T>(s: seq<T>, k: nat, y: T)
    requires k < |s| && forall i :: 0 <= i < |s| && i != k ==> s[i] != s[k]
    ensures y in RemoveAt(s, k) <==> y in s && y != s[k]
  {
    RemoveInsert(s, k);
    InsertMembers(RemoveAt(s, k), k, s[k], y);
  }

  lemma ConcatAssoc<T>(a: seq<T>, b: seq<T>, c: seq<T>)
    ensures a + b + c == a + (b + c)
  {
  }

  lemma RemoveInsert<T>(s: seq<T>, k: nat)
    requires k < |s|
    ensures InsertAt(RemoveAt(s, k), k, s[k]) == s
  {
  }

  lemma InsertWithin<T>(a: seq<T>, f: seq<T>, b: seq<T>, j: nat, x: T)
    requires j <= |f|
    ensures InsertAt(a + f + b, |a| + j, x) == a + InsertAt(f, j, x) + b
  {
  }

  lemma RemoveWithin<T>(a: seq<T>, f: seq<T>, b: seq<T>, j: nat)
    requires j < |f|
    ensures RemoveAt(a + f + b, |a| + j) == a + RemoveAt(f, j) + b
  {
  }
}
