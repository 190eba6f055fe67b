/**
 * The intrusive order book: orders and price levels are blocks of two pools, linked into circular lists and found
 * through an array indexed by price. The exchange's book and the client's replica run this same list code.
 */
module LinkedBooks {
  import opened Types
  import opened Sequences
  import opened Pools
  import opened Rings
  import opened OrderQueue
  import opened LevelLists
  import opened BookHeap

  // ----- the pointer assignments of one list operation -----

  /** Node p becomes the last of the list whose first node is `first`. */
  method LinkLast<T>(pool: MemoryPool<Node<T>>, first: Ptr, p: Ptr)
    requires pool.Valid() && 0 <= p < |pool.objs| && 0 <= first < |pool.objs| && p != first
    requires 0 <= pool.objs[first].prev < |pool.objs| && pool.objs[first].prev != p
    modifies pool`objs, pool.store
    ensures pool.Valid()
    ensures pool.objs == Splice(old(pool.objs), p, old(pool.objs)[first].prev, first)
  {
    var last := pool.Get(first).prev;
    pool.Put(last, pool.Get(last).(next := p));
    pool.Put(p, pool.Get(p).(prev := pool.Get(first).prev));
    pool.Put(p, pool.Get(p).(next := first));
    pool.Put(first, pool.Get(first).(prev := p));
  }

  method LinkAfter<T>(pool: MemoryPool<Node<T>>, target: Ptr, p: Ptr)
    requires pool.Valid() && 0 <= p < |pool.objs| && 0 <= target < |pool.objs| && p != target
    requires 0 <= pool.objs[target].next < |pool.objs| && pool.objs[target].next != p
    modifies pool`objs, pool.store
    ensures pool.Valid()
    ensures pool.objs == Splice(old(pool.objs), p, target, old(pool.objs)[target].next)
  {
    pool.Put(p, pool.Get(p).(prev := target));
    var after := pool.Get(target).next;
    pool.Put(after, pool.Get(after).(prev := p));
    pool.Put(p, pool.Get(p).(next := pool.Get(target).next));
    pool.Put(target, pool.Get(target).(next := p));
  }

  method LinkBefore<T>(pool: MemoryPool<Node<T>>, target: Ptr, p: Ptr)
    requires pool.Valid() && 0 <= p < |pool.objs| && 0 <= target < |pool.objs| && p != target
    requires 0 <= pool.objs[target].prev < |pool.objs| && pool.objs[target].prev != p
    modifies pool`objs, pool.store
    ensures pool.Valid()
    ensures pool.objs == Splice(old(pool.objs), p, old(pool.objs)[target].prev, target)
  {
    pool.Put(p, pool.Get(p).(prev := pool.Get(target).prev));
    pool.Put(p, pool.Get(p).(next := target));
    var before := pool.Get(target).prev;
    pool.Put(before, pool.Get(before).(next := p));
    pool.Put(target, pool.Get(target).(prev := p));
  }

  method Unlink<T>(pool: MemoryPool<Node<T>>, p: Ptr)
    requires pool.Valid() && 0 <= p < |pool.objs|
    requires 0 <= pool.objs[p].prev < |pool.objs| && pool.objs[p].prev != p
    requires 0 <= pool.objs[p].next < |pool.objs| && pool.objs[p].next != p
    modifies pool`objs, pool.store
    ensures pool.Valid()
    ensures pool.objs == Unsplice(old(pool.objs), p)
  {
    var before, after := pool.Get(p).prev, pool.Get(p).next;
    pool.Put(before, pool.Get(before).(next := after));
    pool.Put(after, pool.Get(after).(prev := before));
    pool.Put(p, pool.Get(p).(prev := NULL, next := NULL));
  }

  // ----- reading the lists -----

  ghost function PriceAt(h: Heap, side: Side, i: nat): int
    requires i < |h.Levels(side)|
  {
    var l := h.Levels(side)[i].at;
    if 0 <= l < |h.ls| then h.ls[l].data.price else 0
  }

  /** A level at price p goes below one at price q. */
  predicate Behind(side: Side, p: int, q: int) {
    (side == SELL && p > q) || (side == BUY && p < q)
  }

  lemma EmptyHeap(h: Heap)
    requires h.bidLevels == h.askLevels == [] && h.bids == h.asks == NULL
    requires |h.pm| == ME_MAX_PRICE_LEVELS && forall x :: 0 <= x < |h.pm| ==> h.pm[x] == NULL
    ensures HeapOk(h) && PtrsIn(h, BUY) == PtrsIn(h, SELL) == []
  {
  }

  /** The first order of a level and, before it in the ring, the last one. */
  lemma FirstOf(h: Heap, side: Side, i: nat, p: Ptr)
    requires HeapOk(h) && IsSide(side) && i < |h.Levels(side)| && p !in h.Levels(side)[i].fifo
    ensures var lv := h.Levels(side)[i];
            && lv.fifo != [] && 0 <= lv.at < |h.ls| && h.ls[lv.at].data.first == lv.fifo[0]
            && 0 <= lv.fifo[0] < |h.os| && lv.fifo[0] != p && h.os[lv.fifo[0]].prev == lv.fifo[|lv.fifo| - 1]
            && 0 <= h.os[lv.fifo[0]].prev < |h.os| && h.os[lv.fifo[0]].prev != p
  {
    LevelIn(h, side, i);
    assert LinkedAt(h.os, h.Levels(side)[i].fifo, 0);
  }

  lemma AppendedIs(h: Heap, side: Side, i: nat, p: Ptr)
    requires HeapOk(h) && IsSide(side) && i < |h.Levels(side)|
    requires 0 <= p < |h.os| && p !in h.Levels(side)[i].fifo
    ensures var l := h.Levels(side)[i].at;
            && 0 <= l < |h.ls|
            && var first := h.ls[l].data.first;
            && 0 <= first < |h.os| && first != p && 0 <= h.os[first].prev < |h.os| && h.os[first].prev != p
            && var t := Appended(h, side, i, p);
            && t.os == Splice(h.os, p, h.os[first].prev, first)
            && t == h.(os := t.os, bidLevels := t.bidLevels, askLevels := t.askLevels)
            && t.Levels(Opposite(side)) == h.Levels(Opposite(side))
            && Ats(t.Levels(side)) == Ats(h.Levels(side))
  {
    FirstOf(h, side, i, p);
    AppendedLevels(h, side, i, p);
    hide HeapOk, Splice, LevelOk, Ring;
    assert Ats(Appended(h, side, i, p).Levels(side)) == Ats(h.Levels(side));
  }

  lemma HeadIs(h: Heap, side: Side, n: Ptr)
    requires HeapOk(h) && IsSide(side) && FreshLevel(h, n)
    ensures h.Head(side) != NULL <==> h.Levels(side) != []
    ensures h.Head(side) != NULL ==> h.Head(side) == h.Levels(side)[0].at
    ensures 0 <= n < |h.ls|
  {
  }

  lemma LevelStep(h: Heap, side: Side, i: nat, n: Ptr)
    requires HeapOk(h) && IsSide(side) && FreshLevel(h, n) && i < |h.Levels(side)|
    ensures var l := h.Levels(side)[i].at;
            && 0 <= l < |h.ls| && l != n && PriceAt(h, side, i) == h.ls[l].data.price
            && h.ls[l].next == h.Levels(side)[Succ(i, |h.Levels(side)|)].at
            && h.ls[l].prev == h.Levels(side)[Pred(i, |h.Levels(side)|)].at
  {
    assert LinkedAt(h.ls, Ats(h.Levels(side)), i);
    LevelIn(h, side, i);
  }

  /** Levels are told apart by their addresses: back at the first one, a scan has passed them all. */
  lemma FirstAgain(h: Heap, side: Side, k: nat)
    requires HeapOk(h) && IsSide(side) && 0 < k <= |h.Levels(side)|
    ensures k < |h.Levels(side)| ==> h.Levels(side)[k].at != h.Levels(side)[0].at
  {
  }

  lemma PlaceFrom(h: Heap, side: Side, k: nat, price: int)
    requires HeapOk(h) && IsSide(side) && k <= |h.Levels(side)|
    requires forall i :: 0 <= i < |h.Levels(side)| ==> PriceAt(h, side, i) != price
    requires forall i :: 0 <= i < k ==> Ahead(side, PriceAt(h, side, i), price)
    requires k < |h.Levels(side)| ==> !Ahead(side, PriceAt(h, side, k), price)
    ensures PlaceOf(h, side, k, price)
  {
    var sp := h.Levels(side);
    forall i | 0 <= i < |sp|
      ensures 0 <= sp[i].at < |h.ls| && PriceAt(h, side, i) == h.ls[sp[i].at].data.price
    {
      LevelIn(h, side, i);
    }
    forall i | k <= i < |sp|
      ensures Ahead(side, price, h.ls[sp[i].at].data.price)
    {
      assert PriceAt(h, side, k) != price && PriceAt(h, side, i) != price;
      assert i > k ==> Ahead(side, PriceAt(h, side, k), PriceAt(h, side, i));
    }
  }

  lemma AddedIs(h: Heap, side: Side, k: nat, n: Ptr, p: Ptr)
    requires HeapOk(h) && IsSide(side) && FreshLevel(h, n) && k <= |h.Levels(side)|
    requires 0 <= p < |h.os|
    ensures var t, price := LevelAdded(h, side, k, n, p), h.os[p].data.price;
            && t.os == h.os[p := h.os[p].(prev := p, next := p)]
            && t.pm == h.pm[PriceToIndex(price) := n]
            && t.Levels(Opposite(side)) == h.Levels(Opposite(side))
            && t.Levels(side) == InsertAt(h.Levels(side), k, Level(n, [p]))
            && Ats(t.Levels(side)) == InsertAt(Ats(h.Levels(side)), k, n)
            && t == h.(os := t.os, ls := t.ls, pm := t.pm)
                     .WithSide(side, if k == 0 then n else h.Head(side), t.Levels(side))
    ensures 0 <= n < |h.ls|
    ensures forall x :: x in InsertAt(Ats(h.Levels(side)), k, n) <==> x == n || x in Ats(h.Levels(side))
  {
    hide HeapOk, LinkedLevels;
    assert Ats(InsertAt(h.Levels(side), k, Level(n, [p]))) == InsertAt(Ats(h.Levels(side)), k, n);
    forall x
      ensures x in InsertAt(Ats(h.Levels(side)), k, n) <==> x == n || x in Ats(h.Levels(side))
    {
      InsertMembers(Ats(h.Levels(side)), k, n, x);
    }
  }

  ghost function LeftOf(h: Heap, side: Side, k: nat): Ptr
    requires k <= |h.Levels(side)| && h.Levels(side) != []
  {
    h.Levels(side)[if k == 0 then |h.Levels(side)| - 1 else k - 1].at
  }

  ghost function RightOf(h: Heap, side: Side, k: nat): Ptr
    requires k <= |h.Levels(side)| && h.Levels(side) != []
  {
    h.Levels(side)[if k == |h.Levels(side)| then 0 else k].at
  }

  lemma Neighbours(h: Heap, side: Side, k: nat, n: Ptr)
    requires HeapOk(h) && IsSide(side) && FreshLevel(h, n) && k <= |h.Levels(side)| && h.Levels(side) != []
    ensures var a, b := LeftOf(h, side, k), RightOf(h, side, k);
            && 0 <= a < |h.ls| && 0 <= b < |h.ls| && a != n && b != n && h.ls[b].prev == a && h.ls[a].next == b
  {
    hide HeapOk, FreshLevel;
    var sp := h.Levels(side);
    LevelStep(h, side, if k == 0 then |sp| - 1 else k - 1, n);
    LevelStep(h, side, if k == |sp| then 0 else k, n);
  }

  /** What linking the new level's node comes to, in terms of the node it is linked before. */
  lemma AddedLinks(h: Heap, side: Side, k: nat, n: Ptr, p: Ptr, filled: seq<LevelNode>)
    requires HeapOk(h) && IsSide(side) && FreshLevel(h, n) && k <= |h.Levels(side)| && 0 <= p < |h.os|
    requires filled == h.ls[n := Node(LevelData(side, h.os[p].data.price, p), NULL, NULL)]
    ensures h.Levels(side) == [] ==> LevelAdded(h, side, k, n, p).ls == filled[n := filled[n].(prev := n, next := n)]
    ensures h.Levels(side) != [] ==>
              var a, b := LeftOf(h, side, k), RightOf(h, side, k);
              && 0 <= a < |h.ls| && 0 <= b < |h.ls| && a != n && b != n
              && filled[b] == h.ls[b] && filled[a] == h.ls[a] && h.ls[b].prev == a && h.ls[a].next == b
              && LevelAdded(h, side, k, n, p).ls == Splice(filled, n, a, b)
  {
    hide HeapOk;
    if h.Levels(side) != [] {
      Neighbours(h, side, k, n);
    }
  }

  // ----- what the lists mean for one order -----

  /** No resting order shares a price's slot with another price or the other side. */
  ghost predicate Indexable(bids: seq<Order>, asks: seq<Order>, side: Side, price: int) {
    && (forall i :: 0 <= i < |bids| && PriceToIndex(bids[i].price) == PriceToIndex(price) ==>
          bids[i].price == price && side == BUY)
    && (forall i :: 0 <= i < |asks| && PriceToIndex(asks[i].price) == PriceToIndex(price) ==>
          asks[i].price == price && side == SELL)
  }

  ghost function OrdersIn(h: Heap, side: Side): seq<Order> {
    if InRange(h.os, Ptrs(h.Levels(side))) then Data(h.os, Ptrs(h.Levels(side))) else []
  }

  /** Each level's price is the price of one of the side's orders. */
  lemma LevelHasOrder(h: Heap, side: Side, i: nat)
    requires HeapOk(h) && IsSide(side) && i < |h.Levels(side)|
    ensures var q, x := OrdersIn(h, side), Position(h.Levels(side), i, 0);
            x < |q| && q[x].price == PriceAt(h, side, i)
  {
    LevelIn(h, side, i);
    InSide(h.os, h.ls, side, h.Head(side), h.Levels(side));
    PtrsAt(h.Levels(side), i, 0);
  }

  /** A filled slot names a level of one of the two sides, whose price has that slot. */
  lemma SlotLevel(h: Heap, price: int) returns (side: Side, i: nat)
    requires HeapOk(h) && h.pm[PriceToIndex(price)] != NULL
    ensures IsSide(side) && i < |h.Levels(side)| && h.Levels(side)[i].at == h.pm[PriceToIndex(price)]
    ensures PriceToIndex(PriceAt(h, side, i)) == PriceToIndex(price)
  {
    hide LevelOk, SideOk;
    var x := PriceToIndex(price);
    if Holds(h.ls, h.bidLevels, h.pm[x], x) {
      side := BUY;
      i :| 0 <= i < |h.bidLevels| && h.bidLevels[i].at == h.pm[x] && 0 <= h.pm[x] < |h.ls|
          && PriceToIndex(h.ls[h.pm[x]].data.price) == x;
    } else {
      side := SELL;
      i :| 0 <= i < |h.askLevels| && h.askLevels[i].at == h.pm[x] && 0 <= h.pm[x] < |h.ls|
          && PriceToIndex(h.ls[h.pm[x]].data.price) == x;
    }
  }

  /** Orders whose prices have a level's slot are of that level. */
  lemma OneLevel(h: Heap, side: Side, k: nat, other: Side, i: nat)
    requires HeapOk(h) && IsSide(side) && IsSide(other) && k < |OrdersIn(h, side)| && i < |h.Levels(other)|
    requires PriceToIndex(OrdersIn(h, side)[k].price) == PriceToIndex(PriceAt(h, other, i))
    ensures side == other && OrdersIn(h, side)[k].price == PriceAt(h, other, i)
  {
    hide PriceToIndex, HeapOk, Ptrs;
    SidesIn(h, side);
    var x, y := PtrsLocate(h.Levels(side), k);
    OrderAt(h, side, x, y);
    LevelSlot(h, other, i);
    LevelIn(h, side, x);
    LevelIn(h, other, i);
    SidesApart(h, other, i);
  }

  /** No order shares a price's slot with another price or the other side exactly if the level in it is the order's. */
  lemma SlotTaken(h: Heap, side: Side, price: int, other: Side, i: nat)
    requires HeapOk(h) && IsSide(side) && IsSide(other) && i < |h.Levels(other)|
    requires PriceToIndex(PriceAt(h, other, i)) == PriceToIndex(price)
    ensures Indexable(OrdersIn(h, BUY), OrdersIn(h, SELL), side, price) <==>
              other == side && PriceAt(h, other, i) == price
  {
    hide PriceToIndex, HeapOk, OrdersIn;
    LevelHasOrder(h, other, i);
    if other == side && PriceAt(h, other, i) == price {
      forall k | 0 <= k < |OrdersIn(h, BUY)| && PriceToIndex(OrdersIn(h, BUY)[k].price) == PriceToIndex(price)
        ensures OrdersIn(h, BUY)[k].price == price && side == BUY
      {
        OneLevel(h, BUY, k, other, i);
      }
      forall k | 0 <= k < |OrdersIn(h, SELL)| && PriceToIndex(OrdersIn(h, SELL)[k].price) == PriceToIndex(price)
        ensures OrdersIn(h, SELL)[k].price == price && side == SELL
      {
        OneLevel(h, SELL, k, other, i);
      }
    }
  }

  /** An empty slot is shared by no one. */
  lemma SlotFree(h: Heap, side: Side, price: int)
    requires HeapOk(h) && IsSide(side) && h.pm[PriceToIndex(price)] == NULL
    ensures Indexable(OrdersIn(h, BUY), OrdersIn(h, SELL), side, price)
  {
    hide PriceToIndex, HeapOk, Ptrs;
    forall s, k: nat | IsSide(s) && k < |OrdersIn(h, s)|
      ensures PriceToIndex(OrdersIn(h, s)[k].price) != PriceToIndex(price)
    {
      SidesIn(h, s);
      var x, y := PtrsLocate(h.Levels(s), k);
      OrderAt(h, s, x, y);
    }
  }

  /** The array finds the level at a price, if the slot is not shared. */
  lemma FindLevel(h: Heap, side: Side, price: int) returns (i: nat)
    requires HeapOk(h) && IsSide(side)
    requires Indexable(OrdersIn(h, BUY), OrdersIn(h, SELL), side, price)
    requires h.pm[PriceToIndex(price)] != NULL
    ensures i < |h.Levels(side)| && h.Levels(side)[i].at == h.pm[PriceToIndex(price)]
    ensures PriceAt(h, side, i) == price
  {
    var other;
    other, i := SlotLevel(h, price);
    hide HeapOk, Indexable, PriceAt;
    SlotTaken(h, side, price, other, i);
  }

  /**
   * An order linked behind the last one of a level, whatever its price: the book is well formed afterwards exactly
   * when it is of the level's side and price.
   */
  lemma {:induction false} SlotExact(h: Heap, side: Side, i: nat, p: Ptr)
    requires HeapOk(h) && IsSide(side) && i < |h.Levels(side)|
    requires 0 <= p < |h.os| && p !in h.Levels(side)[i].fifo
    ensures HeapOk(Appended(h, side, i, p)) <==> AtLevel(h.os[p].data, side, PriceAt(h, side, i))
  {
    var t, f := Appended(h, side, i, p), h.Levels(side)[i].fifo;
    LevelStepPrice(h, side, i);
    if AtLevel(h.os[p].data, side, PriceAt(h, side, i)) {
      AppendedOk(h, side, i, p);
    }
    if HeapOk(t) {
      LevelIn(t, side, i);
      LevelKept(h, t, side, i, p);
      assert t.Levels(side)[i].fifo[|f|] == p;
    }
  }

  lemma LevelKept(h: Heap, t: Heap, side: Side, i: nat, p: Ptr)
    requires HeapOk(h) && IsSide(side) && i < |h.Levels(side)|
    requires 0 <= p < |h.os| && p !in h.Levels(side)[i].fifo && t == Appended(h, side, i, p)
    ensures |t.Levels(side)| == |h.Levels(side)| && t.Levels(side)[i].at == h.Levels(side)[i].at
    ensures t.Levels(side)[i].fifo == h.Levels(side)[i].fifo + [p]
    ensures t.ls == h.ls && SameData(h.os, t.os)
  {
  }

  lemma NoLevel(h: Heap, side: Side, price: int)
    requires HeapOk(h) && IsSide(side) && h.pm[PriceToIndex(price)] == NULL
    ensures forall i :: 0 <= i < |h.Levels(side)| ==> PriceAt(h, side, i) != price
  {
  }

  /** Appending to the level at a price is inserting behind all orders that are not worse. */
  lemma {:induction false} AppendedMeans(h: Heap, side: Side, i: nat, p: Ptr)
    requires HeapOk(h) && IsSide(side) && i < |h.Levels(side)|
    requires 0 <= p < |h.os| && p !in h.Levels(side)[i].fifo
    requires AtLevel(h.os[p].data, side, PriceAt(h, side, i))
    ensures var t, k := Appended(h, side, i, p), Rank(side, OrdersIn(h, side), h.os[p].data.price);
            && k <= |Ptrs(h.Levels(side))|
            && Ptrs(t.Levels(side)) == InsertAt(Ptrs(h.Levels(side)), k, p)
            && t.Levels(Opposite(side)) == h.Levels(Opposite(side))
            && SameData(h.os, t.os)
  {
    AppendedOk(h, side, i, p);
    AppendedIs(h, side, i, p);
    RankPast(h, side, i);
    AppendedLevels(h, side, i, p);
    hide Appended, HeapOk, OrdersIn, Rank, Ptrs, Position;
    PtrsAppend(h.Levels(side), i, p);
  }

  lemma AppendedLevels(h: Heap, side: Side, i: nat, p: Ptr)
    requires HeapOk(h) && IsSide(side) && i < |h.Levels(side)|
    requires 0 <= p < |h.os| && p !in h.Levels(side)[i].fifo
    ensures var sp := h.Levels(side);
            Appended(h, side, i, p).Levels(side) == sp[i := Level(sp[i].at, sp[i].fifo + [p])]
  {
  }

  lemma {:induction false} AddedMeans(h: Heap, side: Side, k: nat, n: Ptr, p: Ptr)
    requires HeapOk(h) && IsSide(side) && FreshLevel(h, n) && k <= |h.Levels(side)|
    requires 0 <= p < |h.os| && PlaceOf(h, side, k, h.os[p].data.price)
    ensures var t, x := LevelAdded(h, side, k, n, p), Rank(side, OrdersIn(h, side), h.os[p].data.price);
            && x <= |Ptrs(h.Levels(side))|
            && Ptrs(t.Levels(side)) == InsertAt(Ptrs(h.Levels(side)), x, p)
            && t.Levels(Opposite(side)) == h.Levels(Opposite(side))
            && SameData(h.os, t.os)
  {
    AddedIs(h, side, k, n, p);
    RankOfPlace(h, side, k, h.os[p].data.price);
    hide LevelAdded, HeapOk, PlaceOf, FreshLevel, OrdersIn, Rank, Ptrs, Position;
    PtrsNewLevel(h.Levels(side), k, n, p);
  }

  lemma {:induction false} RankOfPlace(h: Heap, side: Side, k: nat, price: int)
    requires HeapOk(h) && IsSide(side) && PlaceOf(h, side, k, price)
    ensures k <= |h.Levels(side)|
    ensures Rank(side, OrdersIn(h, side), price) == Position(h.Levels(side), k, 0) <= |Ptrs(h.Levels(side))|
  {
    hide MapOk, Ring, LevelOk;
    RankAtLevel(h.os, h.ls, side, h.Head(side), h.Levels(side), k, price);
  }

  ghost function PtrsIn(h: Heap, side: Side): seq<Ptr> {
    Ptrs(h.Levels(side))
  }

  /** From h to t, order p joined its side's queue behind all orders that are not worse; nothing else changed. */
  ghost predicate Inserted(h: Heap, t: Heap, p: Ptr) {
    && 0 <= p < |h.os| && SameData(h.os, t.os)
    && var o := h.os[p].data;
    && var k := Rank(o.side, OrdersIn(h, o.side), o.price);
    && k <= |PtrsIn(h, o.side)|
    && PtrsIn(t, o.side) == InsertAt(PtrsIn(h, o.side), k, p)
    && PtrsIn(t, Opposite(o.side)) == PtrsIn(h, Opposite(o.side))
    && OrdersIn(t, o.side) == Insert(o.side, OrdersIn(h, o.side), o)
    && OrdersIn(t, Opposite(o.side)) == OrdersIn(h, Opposite(o.side))
  }

  /** From h to t, order p left its place x in its side's queue; nothing else changed. */
  ghost predicate Taken(h: Heap, t: Heap, p: Ptr, x: nat) {
    && 0 <= p < |h.os| && SameData(h.os, t.os)
    && var side := h.os[p].data.side;
    && x < |PtrsIn(h, side)| && x < |OrdersIn(h, side)|
    && PtrsIn(t, side) == RemoveAt(PtrsIn(h, side), x)
    && PtrsIn(t, Opposite(side)) == PtrsIn(h, Opposite(side))
    && OrdersIn(t, side) == RemoveAt(OrdersIn(h, side), x)
    && OrdersIn(t, Opposite(side)) == OrdersIn(h, Opposite(side))
  }

  /** With its node in place, the order is inserted into the side's queue. */
  lemma InsertedData(h: Heap, t: Heap, p: Ptr)
    requires HeapOk(h) && HeapOk(t) && SameData(h.os, t.os) && 0 <= p < |h.os| && IsSide(h.os[p].data.side)
    requires var o := h.os[p].data; var k := Rank(o.side, OrdersIn(h, o.side), o.price);
             && k <= |PtrsIn(h, o.side)|
             && PtrsIn(t, o.side) == InsertAt(PtrsIn(h, o.side), k, p)
             && t.Levels(Opposite(o.side)) == h.Levels(Opposite(o.side))
    ensures Inserted(h, t, p)
  {
    hide HeapOk;
    var side := h.os[p].data.side;
    SidesIn(h, side);
    SidesIn(h, Opposite(side));
    var q := OrdersIn(h, side);
    DataInsert(h.os, t.os, PtrsIn(h, side), Rank(side, q, h.os[p].data.price), p);
    DataSame(h.os, t.os, PtrsIn(h, Opposite(side)));
    hide Data, Rank, Ptrs;
  }

  lemma DataInsert(os: seq<OrderNode>, os': seq<OrderNode>, ps: seq<Ptr>, k: nat, p: Ptr)
    requires InRange(os, ps) && SameData(os, os') && k <= |ps| && 0 <= p < |os|
    ensures InRange(os', InsertAt(ps, k, p)) && Data(os', InsertAt(ps, k, p)) == InsertAt(Data(os, ps), k, os[p].data)
  {
  }

  lemma DataSame(os: seq<OrderNode>, os': seq<OrderNode>, ps: seq<Ptr>)
    requires InRange(os, ps) && SameData(os, os')
    ensures InRange(os', ps) && Data(os', ps) == Data(os, ps)
  {
  }

  lemma AppendedInserts(h: Heap, side: Side, i: nat, p: Ptr)
    requires HeapOk(h) && IsSide(side) && i < |h.Levels(side)|
    requires 0 <= p < |h.os| && p !in h.Levels(side)[i].fifo
    requires AtLevel(h.os[p].data, side, PriceAt(h, side, i))
    ensures Inserted(h, Appended(h, side, i, p), p)
  {
    hide HeapOk, Inserted, Appended;
    LevelStepPrice(h, side, i);
    AppendedOk(h, side, i, p);
    AppendedMeans(h, side, i, p);
    InsertedData(h, Appended(h, side, i, p), p);
  }

  lemma AddedInserts(h: Heap, side: Side, k: nat, n: Ptr, p: Ptr)
    requires HeapOk(h) && IsSide(side) && FreshLevel(h, n) && k <= |h.Levels(side)|
    requires 0 <= p < |h.os| && h.os[p].data.side == side && PlaceOf(h, side, k, h.os[p].data.price)
    requires h.pm[PriceToIndex(h.os[p].data.price)] == NULL
    ensures Inserted(h, LevelAdded(h, side, k, n, p), p)
  {
    hide HeapOk, Inserted, LevelAdded;
    LevelAddedOk(h, side, k, n, p);
    AddedMeans(h, side, k, n, p);
    InsertedData(h, LevelAdded(h, side, k, n, p), p);
  }

  lemma InsertedPtrs(h: Heap, t: Heap, p: Ptr)
    requires Inserted(h, t, p) && IsSide(h.os[p].data.side)
    ensures forall x :: x in PtrsIn(t, BUY) || x in PtrsIn(t, SELL) <==>
              x == p || x in PtrsIn(h, BUY) || x in PtrsIn(h, SELL)
  {
    var o := h.os[p].data;
    forall x
      ensures x in PtrsIn(t, o.side) <==> x == p || x in PtrsIn(h, o.side)
    {
      InsertMembers(PtrsIn(h, o.side), Rank(o.side, OrdersIn(h, o.side), o.price), p, x);
    }
  }

  lemma TakenPtrs(h: Heap, t: Heap, p: Ptr, x: nat)
    requires HeapOk(h) && Taken(h, t, p, x) && IsSide(h.os[p].data.side) && PtrsIn(h, h.os[p].data.side)[x] == p
    ensures forall y :: y in PtrsIn(t, BUY) || y in PtrsIn(t, SELL) <==>
              y != p && (y in PtrsIn(h, BUY) || y in PtrsIn(h, SELL))
    ensures p in PtrsIn(h, BUY) || p in PtrsIn(h, SELL)
  {
    PtrsRemoved(h, h.os[p].data.side, x);
  }

  ghost predicate SameBut(os: seq<OrderNode>, os': seq<OrderNode>, p: Ptr) {
    |os'| == |os| && forall i :: 0 <= i < |os| && i != p ==> os'[i] == os[i]
  }

  lemma {:induction false} PtrsLocate(sp: seq<Level>, x: nat) returns (i: nat, j: nat)
    requires x < |Ptrs(sp)|
    ensures i < |sp| && j < |sp[i].fifo| && Position(sp, i, j) == x && Ptrs(sp)[x] == sp[i].fifo[j]
  {
    if x < |sp[0].fifo| {
      i, j := 0, x;
      assert sp[..0] == [];
    } else {
      i, j := PtrsLocate(sp[1..], x - |sp[0].fifo|);
      assert sp[..i + 1][1..] == sp[1..][..i];
      i := i + 1;
    }
  }

  lemma PlaceIn(h: Heap, side: Side, x: nat) returns (i: nat, j: nat)
    requires x < |PtrsIn(h, side)|
    ensures i < |h.Levels(side)| && j < |h.Levels(side)[i].fifo|
    ensures Position(h.Levels(side), i, j) == x && PtrsIn(h, side)[x] == h.Levels(side)[i].fifo[j]
  {
    i, j := PtrsLocate(h.Levels(side), x);
  }

  /** One node, one place. */
  lemma PtrsDistinct(h: Heap, side: Side, x: nat, y: nat)
    requires HeapOk(h) && IsSide(side) && x < y < |Ptrs(h.Levels(side))|
    ensures Ptrs(h.Levels(side))[x] != Ptrs(h.Levels(side))[y]
  {
    var sp := h.Levels(side);
    var i, j := PtrsLocate(sp, x);
    var i', j' := PtrsLocate(sp, y);
    LevelIn(h, side, i);
    LevelIn(h, side, i');
    if i != i' {
      DistinctLevels(h.os, h.ls, side, h.Head(side), sp);
    }
  }

  lemma PtrsRemoved(h: Heap, side: Side, x: nat)
    requires HeapOk(h) && IsSide(side) && x < |Ptrs(h.Levels(side))|
    ensures var s := Ptrs(h.Levels(side));
            && (forall p :: p in RemoveAt(s, x) <==> p in s && p != s[x])
            && s[x] !in Ptrs(h.Levels(Opposite(side)))
            && 0 <= s[x] < |h.os| && h.os[s[x]].data.side == side
  {
    hide HeapOk;
    var s := Ptrs(h.Levels(side));
    forall p
      ensures p in RemoveAt(s, x) <==> p in s && p != s[x]
    {
      RemoveInsert(s, x);
      InsertMembers(RemoveAt(s, x), x, s[x], p);
      if p in RemoveAt(s, x) {
        var y :| 0 <= y < |s| - 1 && RemoveAt(s, x)[y] == p;
        if y < x {
          PtrsDistinct(h, side, y, x);
        } else {
          PtrsDistinct(h, side, x, y + 1);
        }
      }
    }
    SidesIn(h, side);
    SidesIn(h, Opposite(side));
  }

  lemma SidesIn(h: Heap, side: Side)
    requires HeapOk(h) && IsSide(side)
    ensures InRange(h.os, Ptrs(h.Levels(side)))
    ensures forall i :: 0 <= i < |Ptrs(h.Levels(side))| ==> h.os[Ptrs(h.Levels(side))[i]].data.side == side
  {
    InSide(h.os, h.ls, side, h.Head(side), h.Levels(side));
  }

  lemma {:induction false} FifoIn(sp: seq<Level>, i: nat, p: Ptr)
    requires i < |sp| && p !in Ptrs(sp)
    ensures p !in sp[i].fifo
  {
    if p in sp[i].fifo {
      var j :| 0 <= j < |sp[i].fifo| && sp[i].fifo[j] == p;
      PtrsAt(sp, i, j);
    }
  }

  /** What taking out the order at (i, j) does to the side's queue. */
  lemma RemovedMeans(h: Heap, t: Heap, side: Side, i: nat, j: nat)
    requires HeapOk(h) && HeapOk(t) && IsSide(side) && i < |h.Levels(side)| && j < |h.Levels(side)[i].fifo|
    requires SameData(h.os, t.os)
    requires t.Levels(side) == Dropped(h.Levels(side), i, j)
    requires t.Levels(Opposite(side)) == h.Levels(Opposite(side))
    ensures Taken(h, t, h.Levels(side)[i].fifo[j], Position(h.Levels(side), i, j))
  {
    hide HeapOk;
    PtrsRemove(h.Levels(side), i, j);
    SidesIn(h, side);
    SidesIn(t, side);
    OrderAt(h, side, i, j);
  }

  /** The order at (i, j), as the pointers and the price array show it. */
  lemma OrderAt(h: Heap, side: Side, i: nat, j: nat)
    requires HeapOk(h) && IsSide(side) && i < |h.Levels(side)| && j < |h.Levels(side)[i].fifo|
    ensures var lv := h.Levels(side)[i]; var p := lv.fifo[j];
            && 0 <= p < |h.os| && 0 <= lv.at < |h.ls|
            && h.os[p].data.side == side && h.os[p].data.price == h.ls[lv.at].data.price == PriceAt(h, side, i)
            && h.pm[PriceToIndex(h.os[p].data.price)] == lv.at
            && 0 <= h.os[p].prev < |h.os| && 0 <= h.os[p].next < |h.os|
            && (h.os[p].prev == p <==> |lv.fifo| == 1)
            && (h.os[p].next == p <==> |lv.fifo| == 1)
            && (h.ls[lv.at].data.first == p <==> j == 0)
            && (j == 0 && 1 < |lv.fifo| ==> h.os[p].next == lv.fifo[1])
  {
    LevelIn(h, side, i);
    var f := h.Levels(side)[i].fifo;
    Alone(h.os, f, j);
    assert LinkedAt(h.os, f, j);
    assert j != 0 ==> f[0] != f[j];
  }

  lemma LevelAlone(h: Heap, side: Side, i: nat)
    requires HeapOk(h) && IsSide(side) && i < |h.Levels(side)|
    ensures var l := h.Levels(side)[i].at;
            && 0 <= l < |h.ls| && 0 <= h.ls[l].prev < |h.ls| && 0 <= h.ls[l].next < |h.ls|
            && (h.ls[l].next == l <==> |h.Levels(side)| == 1)
            && (h.ls[l].prev == l <==> |h.Levels(side)| == 1)
            && (h.Head(side) == l <==> i == 0)
            && (i == 0 && 1 < |h.Levels(side)| ==> h.ls[l].next == h.Levels(side)[1].at)
  {
    var s := Ats(h.Levels(side));
    Alone(h.ls, s, i);
    NeighboursIn(h, side, i);
    assert LinkedAt(h.ls, s, i);
    assert s[i] == h.Levels(side)[i].at && s[0] == h.Levels(side)[0].at;
    assert i != 0 ==> s[0] != s[i];
    assert |s| > 1 ==> s[1] == h.Levels(side)[1].at;
  }

  /** The level addresses that remain once level i is gone. */
  lemma AtsDiffer(h: Heap, side: Side, i: nat)
    requires HeapOk(h) && IsSide(side) && i < |h.Levels(side)|
    ensures var s := Ats(h.Levels(side));
            s[i] == h.Levels(side)[i].at && forall j :: 0 <= j < |s| && j != i ==> s[j] != s[i]
  {
  }

  lemma DroppedAts(h: Heap, side: Side, i: nat)
    requires HeapOk(h) && IsSide(side) && i < |h.Levels(side)|
    ensures var s, l := Ats(h.Levels(side)), h.Levels(side)[i].at;
            && (forall x :: x in Ats(RemoveAt(h.Levels(side), i)) <==> x in s && x != l)
            && l in s && l !in Ats(h.Levels(Opposite(side)))
  {
    SidesApart(h, side, i);
    AtsDiffer(h, side, i);
    hide HeapOk;
    var s := Ats(h.Levels(side));
    assert Ats(RemoveAt(h.Levels(side), i)) == RemoveAt(s, i);
    forall x
      ensures x in RemoveAt(s, i) <==> x in s && x != s[i]
    {
      RemoveMembers(s, i, x);
    }
  }

  lemma LastNode(h: Heap, side: Side, i: nat)
    requires HeapOk(h) && IsSide(side) && i < |h.Levels(side)|
    ensures var lv := h.Levels(side)[i];
            && lv.fifo != [] && 0 <= lv.at < |h.ls| && h.ls[lv.at].data.first == lv.fifo[0]
            && 0 <= lv.fifo[0] < |h.os| && h.os[lv.fifo[0]].prev == lv.fifo[|lv.fifo| - 1]
            && 0 <= lv.fifo[|lv.fifo| - 1] < |h.os| && h.os[lv.fifo[|lv.fifo| - 1]].data.price == PriceAt(h, side, i)
  {
    LevelIn(h, side, i);
    assert LinkedAt(h.os, h.Levels(side)[i].fifo, 0);
  }

  lemma {:induction false} RankPast(h: Heap, side: Side, i: nat)
    requires HeapOk(h) && IsSide(side) && i < |h.Levels(side)|
    ensures Rank(side, OrdersIn(h, side), PriceAt(h, side, i)) == Position(h.Levels(side), i + 1, 0)
  {
    hide Ring, MapOk;
    RankAtLevel(h.os, h.ls, side, h.Head(side), h.Levels(side), i + 1, PriceAt(h, side, i));
  }

  /** The next priority at a level's price is one more than that of the level's newest order. */
  lemma LastPriority(h: Heap, side: Side, i: nat)
    requires HeapOk(h) && IsSide(side) && i < |h.Levels(side)|
    ensures var lv, price := h.Levels(side)[i], PriceAt(h, side, i);
            && 0 <= lv.at < |h.ls| && var first := h.ls[lv.at].data.first;
            && 0 <= first < |h.os| && 0 <= h.os[first].prev < |h.os|
            && NextPriority(side, OrdersIn(h, side), price) == h.os[h.os[first].prev].data.priority + 1
  {
    hide HeapOk, Ptrs, Position, Rank, PriceAt;
    LastNode(h, side, i);
    RankPast(h, side, i);
    SidesIn(h, side);
    LastPlace(h.Levels(side), i);
  }

  /** The last order of a level stands right before where the next level starts. */
  lemma {:induction false} LastPlace(sp: seq<Level>, i: nat)
    requires i < |sp| && sp[i].fifo != []
    ensures var x := Position(sp, i + 1, 0); 0 < x <= |Ptrs(sp)| && Ptrs(sp)[x - 1] == sp[i].fifo[|sp[i].fifo| - 1]
  {
    PtrsAppend(sp, i, 0);
    PtrsAt(sp, i, |sp[i].fifo| - 1);
  }

  lemma FirstPriority(h: Heap, side: Side, price: int)
    requires HeapOk(h) && IsSide(side)
    requires forall i :: 0 <= i < |h.Levels(side)| ==> PriceAt(h, side, i) != price
    ensures NextPriority(side, OrdersIn(h, side), price) == 1
  {
    var q := OrdersIn(h, side);
    SidesIn(h, side);
    forall x | 0 <= x < |q|
      ensures q[x].price != price
    {
      var i, j := PtrsLocate(h.Levels(side), x);
      OrderAt(h, side, i, j);
    }
  }

  lemma PlaceBound(h: Heap, side: Side, k: nat, price: int)
    requires PlaceOf(h, side, k, price)
    ensures k <= |h.Levels(side)|
  {
  }

  lemma LevelStepPrice(h: Heap, side: Side, i: nat)
    requires HeapOk(h) && IsSide(side) && i < |h.Levels(side)|
    ensures var l := h.Levels(side)[i].at; 0 <= l < |h.ls| && PriceAt(h, side, i) == h.ls[l].data.price
  {
    LevelIn(h, side, i);
  }

  lemma LevelSlot(h: Heap, side: Side, i: nat)
    requires HeapOk(h) && IsSide(side) && i < |h.Levels(side)|
    ensures |h.pm| == ME_MAX_PRICE_LEVELS && h.pm[PriceToIndex(PriceAt(h, side, i))] == h.Levels(side)[i].at
  {
    LevelIn(h, side, i);
  }

  lemma DroppedIs(h: Heap, side: Side, i: nat)
    requires HeapOk(h) && IsSide(side) && i < |h.Levels(side)| && |h.Levels(side)[i].fifo| == 1
    ensures var t := LevelDropped(h, side, i);
            && t.os == h.os && t.Levels(side) == Dropped(h.Levels(side), i, 0)
            && t.Levels(Opposite(side)) == h.Levels(Opposite(side))
  {
  }

  lemma DroppedParts(h: Heap, side: Side, i: nat)
    requires HeapOk(h) && IsSide(side) && i < |h.Levels(side)|
    ensures var t, sp, l := LevelDropped(h, side, i), h.Levels(side), h.Levels(side)[i].at;
            && 0 <= l < |h.ls|
            && |h.pm| == ME_MAX_PRICE_LEVELS && t.pm == h.pm[PriceToIndex(PriceAt(h, side, i)) := NULL]
            && (if |sp| == 1 then t == h.(pm := t.pm).WithSide(side, NULL, [])
                else
                  && 0 <= h.ls[l].prev < |h.ls| && h.ls[l].prev != l && 0 <= h.ls[l].next < |h.ls| && h.ls[l].next != l
                  && t == h.(pm := t.pm, ls := Unsplice(h.ls, l))
                       .WithSide(side, if i == 0 then h.ls[l].next else h.Head(side), RemoveAt(sp, i)))
    ensures |h.Levels(side)| == 1 ==> RemoveAt(h.Levels(side), i) == []
  {
    hide HeapOk;
    LevelAlone(h, side, i);
    LevelSlot(h, side, i);
  }

  lemma UnlinkedParts(h: Heap, side: Side, i: nat, j: nat)
    requires HeapOk(h) && IsSide(side) && i < |h.Levels(side)| && j < |h.Levels(side)[i].fifo|
    requires 1 < |h.Levels(side)[i].fifo|
    ensures var t, l, p := OrderUnlinked(h, side, i, j), h.Levels(side)[i].at, h.Levels(side)[i].fifo[j];
            && 0 <= p < |h.os| && 0 <= l < |h.ls|
            && 0 <= h.os[p].prev < |h.os| && h.os[p].prev != p && 0 <= h.os[p].next < |h.os| && h.os[p].next != p
            && t == h.(os := Unsplice(h.os, p),
                       ls := if h.ls[l].data.first == p
                           then h.ls[l := h.ls[l].(data := h.ls[l].data.(first := h.os[p].next))] else h.ls)
                     .WithSide(side, h.Head(side), Dropped(h.Levels(side), i, j))
            && Ats(t.Levels(side)) == Ats(h.Levels(side))
  {
    hide HeapOk;
    OrderAt(h, side, i, j);
    assert Ats(Dropped(h.Levels(side), i, j)) == Ats(h.Levels(side));
  }

  /** Writing a block that no list uses changes nothing. */
  lemma OffList(h: Heap, p: Ptr, v: OrderNode)
    requires HeapOk(h) && 0 <= p < |h.os| && p !in PtrsIn(h, BUY) && p !in PtrsIn(h, SELL)
    ensures var t := h.(os := h.os[p := v]);
            HeapOk(t) && OrdersIn(t, BUY) == OrdersIn(h, BUY) && OrdersIn(t, SELL) == OrdersIn(h, SELL)
  {
    hide MapOk;
    var t := h.(os := h.os[p := v]);
    OffSide(h, BUY, p, v);
    OffSide(h, SELL, p, v);
    SidesIn(h, BUY);
    SidesIn(h, SELL);
    hide SideOk;
    assert OrdersIn(t, BUY) == OrdersIn(h, BUY) && OrdersIn(t, SELL) == OrdersIn(h, SELL);
  }

  lemma OffSide(h: Heap, side: Side, p: Ptr, v: OrderNode)
    requires HeapOk(h) && IsSide(side) && 0 <= p < |h.os| && p !in PtrsIn(h, side)
    ensures SideOk(h.os[p := v], h.ls, side, h.Head(side), h.Levels(side))
  {
    hide MapOk;
    var t := h.(os := h.os[p := v]);
    var sp := h.Levels(side);
    forall i | 0 <= i < |sp|
      ensures LevelOk(t.os, t.ls, side, sp[i])
    {
      FifoIn(sp, i, p);
      RingFrame(h.os, t.os, sp[i].fifo);
    }
  }

  /** The first order of a side, as the head pointer shows it. */
  lemma HeadOrder(h: Heap, side: Side)
    requires HeapOk(h) && IsSide(side)
    ensures h.Head(side) == NULL <==> OrdersIn(h, side) == []
    ensures h.Head(side) == NULL <==> PtrsIn(h, side) == []
    ensures |OrdersIn(h, side)| == |PtrsIn(h, side)|
    ensures h.Head(side) != NULL ==>
              && 0 <= h.Head(side) < |h.ls|
              && var p := h.ls[h.Head(side)].data.first;
              && p == PtrsIn(h, side)[0] && 0 <= p < |h.os| && h.os[p].data == OrdersIn(h, side)[0]
              && h.os[p].data.side == side
  {
    SidesIn(h, side);
    if h.Levels(side) != [] {
      LevelIn(h, side, 0);
      PtrsAt(h.Levels(side), 0, 0);
    }
  }

  /** A quantity written in place shows in the side's queue at that order and nowhere else. */
  lemma QtyMeans(h: Heap, side: Side, x: nat, n: nat)
    requires HeapOk(h) && IsSide(side) && x < |PtrsIn(h, side)|
    ensures var p := PtrsIn(h, side)[x];
            && 0 <= p < |h.os| && x < |OrdersIn(h, side)|
            && var t := h.(os := h.os[p := h.os[p].(data := h.os[p].data.(qty := n))]);
            && OrdersIn(t, side) == OrdersIn(h, side)[x := OrdersIn(h, side)[x].(qty := n)]
            && OrdersIn(t, Opposite(side)) == OrdersIn(h, Opposite(side))
  {
    hide HeapOk;
    SidesIn(h, side);
    SidesIn(h, Opposite(side));
    var p := PtrsIn(h, side)[x];
    var t := h.(os := h.os[p := h.os[p].(data := h.os[p].data.(qty := n))]);
    forall y | 0 <= y < |PtrsIn(h, side)| && y != x
      ensures PtrsIn(h, side)[y] != p
    {
      PtrsDistinct(h, side, if y < x then y else x, if y < x then x else y);
    }
    assert OrdersIn(t, side) == OrdersIn(h, side)[x := OrdersIn(h, side)[x].(qty := n)];
    assert OrdersIn(t, Opposite(side)) == OrdersIn(h, Opposite(side));
  }

  class LinkedBook {
    const orders: MemoryPool<OrderNode>
    const levels: MemoryPool<LevelNode>
    const priceMap: array<Ptr>
    var bids: Ptr
    var asks: Ptr

    /** The levels of each side from the best price on, and each level's orders from the oldest on. */
    ghost var bidLevels: seq<Level>
    ghost var askLevels: seq<Level>

    ghost function View(): Heap
      reads this, orders, levels, priceMap
    {
      Heap(orders.objs, levels.objs, priceMap[..], bids, asks, bidLevels, askLevels)
    }

    function Head(side: Side): Ptr
      reads this
    {
      if side == BUY then bids else asks
    }

    /** The order nodes of a side, and the orders, in price-time order. */
    ghost function PtrsOf(side: Side): seq<Ptr>
      reads this, orders, levels, priceMap
    {
      PtrsIn(View(), side)
    }

    ghost function Orders(side: Side): seq<Order>
      reads this, orders, levels, priceMap
    {
      OrdersIn(View(), side)
    }

    ghost predicate Shaped()
      reads this, orders, orders.store, levels, levels.store, priceMap
    {
      && orders as object != levels && orders.store as object != levels.store
      && priceMap as object != orders.store && priceMap as object != levels.store
      && orders.Valid() && levels.Valid() && priceMap.Length == ME_MAX_PRICE_LEVELS
      && HeapOk(View())
      && (forall x :: x in levels.live <==> x in Ats(bidLevels) || x in Ats(askLevels))
    }

    /** Besides the shape: the order pool's live blocks are exactly the linked orders. */
    ghost predicate Valid()
      reads this, orders, orders.store, levels, levels.store, priceMap
    {
      && Shaped()
      && (forall x :: x in orders.live <==> x in PtrsOf(BUY) || x in PtrsOf(SELL))
    }

    /** Everything a book method may change besides the book object itself. */
    ghost function Parts(): set<object>
      reads this
    {
      {orders, orders.store, levels, levels.store, priceMap}
    }

    constructor (maxOrders: nat, maxLevels: nat)
      requires maxOrders > 0 && maxLevels > 0
      ensures Valid()
      ensures fresh(orders) && fresh(orders.store) && fresh(levels) && fresh(levels.store) && fresh(priceMap)
      ensures bidLevels == [] && askLevels == []
      ensures |orders.objs| == maxOrders && |levels.objs| == maxLevels
      ensures orders.live == {} && levels.live == {}
    {
      var blank := Order(Anonymous, ORDER_ID_INVALID, INVALID_SIDE, PRICE_INVALID, QTY_INVALID, PRIORITY_INVALID);
      orders := new MemoryPool(maxOrders, Node(blank, NULL, NULL));
      levels := new MemoryPool(maxLevels, Node(LevelData(INVALID_SIDE, PRICE_INVALID, NULL), NULL, NULL));
      priceMap := new Ptr[ME_MAX_PRICE_LEVELS](_ => NULL);
      bids, asks := NULL, NULL;
      bidLevels, askLevels := [], [];
      new;
      hide MemoryPool.Valid, HeapOk, PtrsIn;
      assert Ats(bidLevels) == [] && Ats(askLevels) == [];
      EmptyHeap(View());
    }

    method SetHead(side: Side, p: Ptr)
      modifies this`bids, this`asks
      ensures Head(side) == p
      ensures if side == BUY then asks == old(asks) else bids == old(bids)
    {
      if side == BUY {
        bids := p;
      } else {
        asks := p;
      }
    }

    ghost method SetLevels(side: Side, sp: seq<Level>)
      modifies this`bidLevels, this`askLevels
      ensures if side == BUY then bidLevels == sp && askLevels == old(askLevels)
              else askLevels == sp && bidLevels == old(bidLevels)
    {
      if side == BUY {
        bidLevels := sp;
      } else {
        askLevels := sp;
      }
    }

    function GetOrdersAtPrice(price: int): (l: Ptr)
      requires priceMap.Length == ME_MAX_PRICE_LEVELS
      reads priceMap
      ensures l == priceMap[..][PriceToIndex(price)]
    {
      priceMap[PriceToIndex(price)]
    }

    /** Link an order behind the last one of an existing level. Neither side nor price is compared. */
    method AppendToLevel(l: Ptr, p: Ptr, ghost side: Side, ghost i: nat)
      requires Shaped() && IsSide(side) && i < |View().Levels(side)| && View().Levels(side)[i].at == l
      requires 0 <= p < |orders.objs| && p !in View().Levels(side)[i].fifo
      modifies this`bidLevels, this`askLevels, orders`objs, orders.store
      ensures View() == Appended(old(View()), side, i, p)
      ensures Shaped() <==> AtLevel(old(orders.objs)[p].data, side, PriceAt(old(View()), side, i))
    {
      hide MemoryPool.Tied, HeapOk, LevelOk, Appended;
      ghost var h := View();
      SlotExact(h, side, i, p);
      AppendedIs(h, side, i, p);
      var first := levels.Get(l).data.first;
      LinkLast(orders, first, p);
      SetLevels(side, Appended(h, side, i, p).Levels(side));
      assert View() == Appended(h, side, i, p);
    }

    /** Find where a new level belongs: before `target`, or after it when `addAfter`. */
    method FindPlace(n: Ptr, best: Ptr, side: Side, ghost h: Heap) returns (target: Ptr, addAfter: bool, ghost k: nat)
      requires levels.Valid() && HeapOk(h) && IsSide(side) && FreshLevel(h, n) && |levels.objs| == |h.ls|
      requires forall x :: 0 <= x < |h.ls| && x != n ==> levels.objs[x] == h.ls[x]
      requires best == h.Head(side) != NULL
      requires forall i :: 0 <= i < |h.Levels(side)| ==> PriceAt(h, side, i) != levels.objs[n].data.price
      ensures PlaceOf(h, side, k, levels.objs[n].data.price)
      ensures addAfter <==> k == |h.Levels(side)|
      ensures target == h.Levels(side)[if addAfter then 0 else k].at
    {
      hide MemoryPool.Tied, HeapOk, FreshLevel;
      ghost var sp := h.Levels(side);
      HeadIs(h, side, n);
      var price := levels.Get(n).data.price;
      k := 0;
      LevelStep(h, side, 0, n);
      target := best;
      addAfter := Behind(side, price, levels.Get(target).data.price);
      if addAfter {
        target := levels.Get(target).next;
        k := 1;
        LevelStep(h, side, if k == |sp| then 0 else k, n);
        addAfter := Behind(side, price, levels.Get(target).data.price);
      }
      while addAfter && target != best
        invariant k <= |sp| && target == sp[if k == |sp| then 0 else k].at
        invariant forall i :: 0 <= i < k ==> Ahead(side, PriceAt(h, side, i), price)
        invariant k == |sp| ==> addAfter
        invariant addAfter ==> k > 0
        invariant !addAfter ==> !Ahead(side, PriceAt(h, side, k), price)
        decreases addAfter, |sp| - k
      {
        LevelStep(h, side, k, n);
        addAfter := Behind(side, price, levels.Get(target).data.price);
        if addAfter {
          target := levels.Get(target).next;
          k := k + 1;
        }
      }
      if addAfter {
        FirstAgain(h, side, k);
        assert k == |sp|;
      }
      PlaceFrom(h, side, k, price);
    }

    /** Enter level n, whose block is filled in, into the price array and the side's list. */
    method AddOrdersAtPrice(n: Ptr, side: Side, ghost p: Ptr, ghost h: Heap) returns (ghost k: nat)
      requires levels.Valid() && HeapOk(h) && IsSide(side) && FreshLevel(h, n)
      requires 0 <= p < |h.os| && h.os[p].data.side == side
      requires priceMap.Length == ME_MAX_PRICE_LEVELS
      requires levels as object != priceMap && levels.store as object != priceMap
      requires View() == h.(os := View().os, ls := View().ls)
      requires View().ls == h.ls[n := Node(LevelData(side, h.os[p].data.price, p), NULL, NULL)]
      requires forall i :: 0 <= i < |h.Levels(side)| ==> PriceAt(h, side, i) != h.os[p].data.price
      modifies this`bids, this`asks, this`bidLevels, this`askLevels, levels`objs, levels.store, priceMap
      ensures k <= |h.Levels(side)| && PlaceOf(h, side, k, h.os[p].data.price)
      ensures View() == LevelAdded(h, side, k, n, p).(os := old(View()).os)
      ensures levels.Valid()
    {
      hide MemoryPool.Tied, HeapOk, LevelAdded, PlaceOf, FreshLevel;
      HeadIs(h, side, n);
      var price := levels.Get(n).data.price;
      priceMap[PriceToIndex(price)] := n;
      var best := Head(side);
      if best == NULL {
        k := 0;
        PlaceFrom(h, side, k, price);
        AddedLinks(h, side, k, n, p, levels.objs);
        SetHead(side, n);
        levels.Put(n, levels.Get(n).(prev := n, next := n));
      } else {
        k := Splicing(n, best, side, p, h);
      }
      AddedIs(h, side, k, n, p);
      SetLevels(side, InsertAt(h.Levels(side), k, Level(n, [p])));
      assert View().ls == LevelAdded(h, side, k, n, p).ls;
    }

    /** Link level n into a list that has levels already. */
    method Splicing(n: Ptr, best: Ptr, side: Side, ghost p: Ptr, ghost h: Heap) returns (ghost k: nat)
      requires levels.Valid() && HeapOk(h) && IsSide(side) && FreshLevel(h, n)
      requires 0 <= p < |h.os| && h.os[p].data.side == side
      requires levels.objs == h.ls[n := Node(LevelData(side, h.os[p].data.price, p), NULL, NULL)]
      requires best == h.Head(side) == Head(side) != NULL
      requires forall i :: 0 <= i < |h.Levels(side)| ==> PriceAt(h, side, i) != h.os[p].data.price
      modifies this`bids, this`asks, levels`objs, levels.store
      ensures k <= |h.Levels(side)| && PlaceOf(h, side, k, h.os[p].data.price)
      ensures levels.objs == LevelAdded(h, side, k, n, p).ls
      ensures Head(side) == (if k == 0 then n else h.Head(side))
      ensures if side == BUY then asks == old(asks) else bids == old(bids)
      ensures levels.Valid()
    {
      hide MemoryPool.Tied, HeapOk, LevelAdded, FreshLevel;
      ghost var sp := h.Levels(side);
      ghost var filled := levels.objs;
      HeadIs(h, side, n);
      LevelStep(h, side, 0, n);
      var target, addAfter;
      target, addAfter, k := FindPlace(n, best, side, h);
      AddedLinks(h, side, k, n, p, filled);
      if addAfter {
        if target == best {
          target := levels.Get(best).prev;
        }
        LinkAfter(levels, target, n);
      } else {
        LinkBefore(levels, target, n);
        var price := levels.Get(n).data.price;
        assert levels.Get(best).data == filled[best].data == h.ls[best].data;
        if Behind(side, levels.Get(best).data.price, price) {
          assert k == 0;
          LevelStep(h, side, 0, n);
          FirstAgain(h, side, 1);
          levels.Put(target, levels.Get(target).(next :=
            if levels.Get(target).next == best then n else levels.Get(target).next));
          SetHead(side, n);
        }
      }
    }

    /** Start a level for an order whose price has none. */
    method StartLevel(p: Ptr, ghost side: Side) returns (ghost k: nat, ghost n: Ptr)
      requires Shaped() && IsSide(side) && 0 <= p < |orders.objs| && orders.objs[p].data.side == side
      requires View().pm[PriceToIndex(orders.objs[p].data.price)] == NULL
      requires |levels.live| + 1 < |levels.objs|
      modifies this`bids, this`asks, this`bidLevels, this`askLevels
      modifies orders`objs, orders.store, levels, levels.store, priceMap
      ensures old(FreshLevel(View(), n)) && PlaceOf(old(View()), side, k, old(orders.objs[p].data.price))
      ensures View() == LevelAdded(old(View()), side, k, n, p)
      ensures Shaped()
    {
      hide HeapOk, LevelAdded, PlaceOf;
      ghost var h := View();
      var order := orders.Get(p).data;
      NoLevel(h, side, order.price);
      orders.Put(p, orders.Get(p).(prev := p, next := p));
      var level := levels.Allocate(Node(LevelData(order.side, order.price, p), NULL, NULL));
      n := level;
      k := AddOrdersAtPrice(level, order.side, p, h);
      AddedIs(h, side, k, n, p);
      LevelAddedOk(h, side, k, n, p);
      assert View() == LevelAdded(h, side, k, n, p);
    }

    /**
     * Link an allocated order at the level its price's slot holds, or start a level in an empty slot. The lists are
     * well formed afterwards exactly when no resting order of another price or the other side shares the slot, and
     * then the order stands behind all orders of its side that are not worse.
     */
    method AddOrder(p: Ptr)
      requires Shaped() && 0 <= p < |orders.objs| && IsSide(orders.objs[p].data.side)
      requires forall x :: x in orders.live <==> x == p || x in PtrsOf(BUY) || x in PtrsOf(SELL)
      requires p !in PtrsOf(BUY) && p !in PtrsOf(SELL)
      requires View().pm[PriceToIndex(orders.objs[p].data.price)] == NULL ==> |levels.live| + 1 < |levels.objs|
      modifies this`bids, this`asks, this`bidLevels, this`askLevels
      modifies orders`objs, orders.store, levels, levels.store, priceMap
      ensures Valid() <==> old(Indexable(Orders(BUY), Orders(SELL), orders.objs[p].data.side,
                orders.objs[p].data.price))
      ensures Valid() ==> Inserted(old(View()), View(), p)
    {
      hide MemoryPool.Tied, HeapOk, LevelAdded, Appended, PlaceOf, Indexable, Inserted, PriceAt;
      ghost var h := View();
      var order := orders.Get(p).data;
      ghost var side := order.side;
      var l := GetOrdersAtPrice(order.price);
      if l == NULL {
        ghost var k, n := StartLevel(p, side);
        PlaceBound(h, side, k, order.price);
        AddedInserts(h, side, k, n, p);
        SlotFree(h, side, order.price);
      } else {
        ghost var other, i := SlotLevel(h, order.price);
        FifoIn(h.Levels(other), i, p);
        SlotTaken(h, side, order.price, other, i);
        AppendToLevel(l, p, other, i);
        if Shaped() {
          AppendedInserts(h, side, i, p);
        }
      }
      if Shaped() {
        InsertedPtrs(h, View(), p);
        assert PtrsIn(View(), BUY) == PtrsOf(BUY) && PtrsIn(View(), SELL) == PtrsOf(SELL);
        assert PtrsIn(h, BUY) == old(PtrsOf(BUY)) && PtrsIn(h, SELL) == old(PtrsOf(SELL));
        assert orders.live == old(orders.live);
      }
    }

    /** Take level i, found through its price, off its side. */
    method RemoveOrdersAtPrice(side: Side, price: int, ghost i: nat)
      requires Shaped() && IsSide(side) && i < |View().Levels(side)| && PriceAt(View(), side, i) == price
      modifies this`bids, this`asks, this`bidLevels, this`askLevels, levels`objs, levels`live, levels.store, priceMap
      ensures Shaped()
      ensures View() == LevelDropped(old(View()), side, i)
    {
      hide MemoryPool.Tied, HeapOk, Unsplice, LevelDropped, PriceToIndex;
      ghost var h := View();
      LevelAlone(h, side, i);
      LevelSlot(h, side, i);
      DroppedAts(h, side, i);
      LevelDroppedOk(h, side, i);
      DroppedParts(h, side, i);
      var l := GetOrdersAtPrice(price);
      TakeOffList(l, side);
      SetLevels(side, RemoveAt(h.Levels(side), i));
      priceMap[PriceToIndex(price)] := NULL;
      levels.Deallocate(l);
      assert View() == LevelDropped(h, side, i);
    }

    /** Unlink a level's node and move the head off it. */
    method TakeOffList(l: Ptr, side: Side)
      requires levels.Valid() && 0 <= l < |levels.objs|
      requires 0 <= levels.objs[l].prev < |levels.objs| && 0 <= levels.objs[l].next < |levels.objs|
      requires levels.objs[l].prev == l <==> levels.objs[l].next == l
      modifies this`bids, this`asks, levels`objs, levels.store
      ensures levels.Valid()
      ensures old(levels.objs[l].next) == l ==> levels.objs == old(levels.objs) && Head(side) == NULL
      ensures old(levels.objs[l].next) != l ==>
                && levels.objs == old(Unsplice(levels.objs, l))
                && Head(side) == old(if Head(side) == l then levels.objs[l].next else Head(side))
      ensures if side == BUY then asks == old(asks) else bids == old(bids)
    {
      var best := Head(side);
      var next := levels.Get(l).next;
      if next == l {
        SetHead(side, NULL);
      } else {
        Unlink(levels, l);
        if l == best {
          SetHead(side, next);
        }
      }
    }

    /** Take a linked order out of its level, and the level out of its side if it was the last one. */
    method RemoveOrder(p: Ptr, ghost x: nat)
      requires Valid() && 0 <= p < |orders.objs| && IsSide(orders.objs[p].data.side)
      requires x < |PtrsOf(orders.objs[p].data.side)| && PtrsOf(orders.objs[p].data.side)[x] == p
      modifies this`bids, this`asks, this`bidLevels, this`askLevels
      modifies orders`objs, orders`live, orders.store, levels`objs, levels`live, levels.store, priceMap
      ensures Valid()
      ensures Taken(old(View()), View(), p, x)
      ensures orders.live == old(orders.live) - {p}
    {
      hide MemoryPool.Tied, HeapOk, LevelDropped, OrderUnlinked, Taken, Dropped, PriceToIndex, PtrsIn, OrdersIn;
      hide Position;
      ghost var h := View();
      var order := orders.Get(p);
      ghost var side := order.data.side;
      ghost var i, j := PlaceIn(h, side, x);
      OrderAt(h, side, i, j);
      if order.prev == p {
        RemoveOrdersAtPrice(order.data.side, order.data.price, i);
        DroppedIs(h, side, i);
      } else {
        UnlinkFromLevel(p, side, i, j);
      }
      RemovedMeans(h, View(), side, i, j);
      TakenPtrs(h, View(), p, x);
      orders.Deallocate(p);
    }

    /** Take an order out of a level that keeps others. */
    method UnlinkFromLevel(p: Ptr, ghost side: Side, ghost i: nat, ghost j: nat)
      requires Shaped() && IsSide(side) && i < |View().Levels(side)| && j < |View().Levels(side)[i].fifo|
      requires View().Levels(side)[i].fifo[j] == p && 1 < |View().Levels(side)[i].fifo|
      modifies this`bidLevels, this`askLevels, orders`objs, orders.store, levels`objs, levels.store
      ensures Shaped()
      ensures SameData(old(orders.objs), orders.objs)
      ensures View().Levels(side) == Dropped(old(View()).Levels(side), i, j)
      ensures View().Levels(Opposite(side)) == old(View()).Levels(Opposite(side))
    {
      hide MemoryPool.Tied, HeapOk, Unsplice, OrderUnlinked, Dropped, PriceToIndex;
      ghost var h := View();
      OrderAt(h, side, i, j);
      OrderUnlinkedOk(h, side, i, j);
      UnlinkedParts(h, side, i, j);
      var order := orders.Get(p);
      var l := GetOrdersAtPrice(order.data.price);
      var after := order.next;
      Unlink(orders, p);
      if levels.Get(l).data.first == p {
        levels.Put(l, levels.Get(l).(data := levels.Get(l).data.(first := after)));
      }
      SetLevels(side, Dropped(h.Levels(side), i, j));
      assert View() == OrderUnlinked(h, side, i, j);
    }

    /**
     * One past the priority of the newest order at the level in a price's slot: the next one at the price, if it is.
     */
    method GetNextPriority(price: int, ghost side: Side) returns (priority: nat)
      requires Shaped() && IsSide(side)
      ensures Indexable(Orders(BUY), Orders(SELL), side, price) ==> priority == NextPriority(side, Orders(side), price)
    {
      hide MemoryPool.Tied, HeapOk, Indexable, PriceAt;
      var l := GetOrdersAtPrice(price);
      if l == NULL {
        NoLevel(View(), side, price);
        FirstPriority(View(), side, price);
        return 1;
      }
      ghost var other, i := SlotLevel(View(), price);
      LastPriority(View(), other, i);
      SlotTaken(View(), side, price, other, i);
      var first := levels.Get(l).data.first;
      return orders.Get(orders.Get(first).prev).data.priority + 1;
    }

    /** Change a linked order's quantity in place. */
    method SetOrderQty(p: Ptr, n: nat)
      requires Valid() && 0 <= p < |orders.objs|
      modifies orders`objs, orders.store
      ensures Valid()
      ensures View() == old(View().(os := orders.objs[p := orders.objs[p].(data := orders.objs[p].data.(qty := n))]))
    {
      hide MemoryPool.Tied, HeapOk;
      QtySetOk(View(), p, n);
      var order := orders.Get(p);
      orders.Put(p, order.(data := order.data.(qty := n)));
      assert View() == old(View().(os := orders.objs[p := orders.objs[p].(data := orders.objs[p].data.(qty := n))]));
    }

    /** Take an order block from the pool and fill it in; it is not linked yet. */
    method NewOrder(o: Order) returns (p: Ptr)
      requires Valid() && |orders.live| + 1 < |orders.objs|
      modifies orders, orders.store
      ensures Shaped() && 0 <= p < |orders.objs| && orders.objs[p].data == o
      ensures p !in old(orders.live) && orders.live == old(orders.live) + {p}
      ensures View() == old(View()).(os := orders.objs) && SameBut(old(orders.objs), orders.objs, p)
      ensures PtrsOf(BUY) == old(PtrsOf(BUY)) && PtrsOf(SELL) == old(PtrsOf(SELL))
      ensures Orders(BUY) == old(Orders(BUY)) && Orders(SELL) == old(Orders(SELL))
    {
      hide HeapOk, OrdersIn;
      p := orders.Allocate(Node(o, NULL, NULL));
      OffList(old(View()), p, Node(o, NULL, NULL));
      assert View() == old(View()).(os := old(View()).os[p := Node(o, NULL, NULL)]);
    }
  }
}
