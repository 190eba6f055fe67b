/** The fixed pool of blocks from which the order books take their nodes. A node's address is its block's index. */
module Pools {

  type Ptr = int

  const NULL: Ptr := -1

  datatype Block<T> = Block(obj: T, isFree: bool)

  /** The indices below n. */
  function Below(n: nat): (s: set<Ptr>)
    ensures |s| == n
    ensures forall i: int :: i in s <==> 0 <= i < n
  {
    if n == 0 then {} else Below(n - 1) + {n - 1}
  }

  lemma {:induction false} SubsetSize<T>(a: set<T>, b: set<T>)
    requires forall x :: x in a ==> x in b
    ensures |a| <= |b|
  {
    if a != {} {
      var x :| x in a;
      SubsetSize(a - {x}, b - {x});
    }
  }

  /** Two blocks are free whenever at most all but two are live, so an allocation leaves one for the next. */
  lemma AnotherFree(live: set<Ptr>, n: nat, i: nat)
    requires i < n && i !in live
    requires |live| + 1 < n
    ensures exists j: nat :: j < n && j != i && j !in live
  {
    var others := Below(n) - {i};
    if others <= live {
      SubsetSize(others, live);
      assert false;
    }
    var j :| j in others && j !in live;
  }

  class MemoryPool<T> {
    const store: array<Block<T>>
    var nextFreeIndex: nat

    /** What the blocks hold, and which of them are in use. */
    ghost var objs: seq<T>
    ghost var live: set<Ptr>

    ghost predicate Valid()
      reads this, store
    {
      && Tied()
      && nextFreeIndex !in live
    }

    ghost predicate Tied()
      reads this, store
    {
      && |objs| == store.Length
      && (forall i :: 0 <= i < store.Length ==> store[i].obj == objs[i])
      && (forall i: nat :: i < store.Length ==> (store[i].isFree <==> i !in live))
      && (forall i :: i in live ==> 0 <= i < store.Length)
      && nextFreeIndex < store.Length
    }

    constructor (numElems: nat, blank: T)
      requires numElems > 0
      ensures Valid() && fresh(store)
      ensures live == {} && |objs| == numElems
    {
      store := new Block<T>[numElems](_ => Block(blank, true));
      nextFreeIndex := 0;
      objs := seq(numElems, _ => blank);
      live := {};
    }

    /** Read a block through its address. */
    function Get(p: Ptr): (v: T)
      requires Tied() && 0 <= p < |objs|
      reads this, store
      ensures v == objs[p]
    {
      store[p].obj
    }

    /** Write a block through its address. */
    method Put(p: Ptr, v: T)
      requires Valid() && 0 <= p < |objs|
      modifies this`objs, store
      ensures Valid()
      ensures objs == old(objs)[p := v]
    {
      store[p] := store[p].(obj := v);
      objs := objs[p := v];
    }

    /**
     * Take the next free block. The last free block is never handed out: the scan for its successor would find none.
     */
    method Allocate(v: T) returns (p: Ptr)
      requires Valid() && |live| + 1 < |objs|
      modifies this, store
      ensures Valid()
      ensures 0 <= p < |objs| && p == old(nextFreeIndex)
      ensures p !in old(live) && live == old(live) + {p}
      ensures objs == old(objs)[p := v]
    {
      AnotherFree(live, |objs|, nextFreeIndex);
      p := nextFreeIndex;
      store[p] := Block(v, false);
      objs := objs[p := v];
      live := live + {p};
      var found := UpdateNextFreeIndex();
      assert found;
    }

    method Deallocate(p: Ptr)
      requires Valid() && p in live
      modifies this`live, store
      ensures Valid()
      ensures live == old(live) - {p}
    {
      store[p] := store[p].(isFree := true);
      live := live - {p};
    }

    /** Scan circularly for a free block; `found` is false exactly when the out-of-space assertion would fire. */
    method UpdateNextFreeIndex() returns (found: bool)
      requires Tied()
      modifies this`nextFreeIndex
      ensures Tied()
      ensures found <==> exists j: nat :: j < |objs| && j !in live
      ensures found ==> nextFreeIndex !in live
      ensures found ==> forall j: nat :: j < |objs| && j !in live ==>
                Distance(old(nextFreeIndex), nextFreeIndex, |objs|) <= Distance(old(nextFreeIndex), j, |objs|)
    {
      var initial := nextFreeIndex;
      while !store[nextFreeIndex].isFree
        invariant Tied()
        invariant forall j: nat ::
                    j < |objs| && Distance(initial, j, |objs|) < Distance(initial, nextFreeIndex, |objs|) ==> j in live
        decreases |objs| - Distance(initial, nextFreeIndex, |objs|)
      {
        ghost var before := nextFreeIndex;
        nextFreeIndex := nextFreeIndex + 1;
        if nextFreeIndex == store.Length {
          nextFreeIndex := 0;
        }
        if initial == nextFreeIndex {
          return false;
        }
      }
      return true;
    }
  }

  /** How many steps a circular scan of n blocks takes from one index to another. */
  function Distance(from: nat, to: nat, n: nat): nat
    requires from < n && to < n
  {
    if from <= to then to - from else to + n - from
  }
}
