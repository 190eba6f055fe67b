/**
 * The whole linked book as a value: what its blocks, its price array and its two heads hold, together with the
 * levels they represent; and the value after each elementary change, with proof that the shape is kept.
 */
module BookHeap {
  import opened Types
  import opened Sequences
  import opened Pools
  import opened Rings
  import opened OrderQueue
  import opened LevelLists

  // ----- the array from price to level -----

  ghost predicate MapsSide(ls: seq<LevelNode>, pm: seq<Ptr>, sp: seq<Level>) {
    && |pm| == ME_MAX_PRICE_LEVELS
    && (forall i :: 0 <= i < |sp| ==> 0 <= sp[i].at < |ls|)
    && forall i :: 0 <= i < |sp| ==> pm[PriceToIndex(ls[sp[i].at].data.price)] == sp[i].at
  }

  ghost predicate Holds(ls: seq<LevelNode>, sp: seq<Level>, at: Ptr, x: nat) {
    exists i :: 0 <= i < |sp| && sp[i].at == at && 0 <= at < |ls| && PriceToIndex(ls[at].data.price) == x
  }

  ghost predicate MapsBack(ls: seq<LevelNode>, pm: seq<Ptr>, bs: seq<Level>, sa: seq<Level>) {
    forall x :: 0 <= x < |pm| && pm[x] != NULL ==> Holds(ls, bs, pm[x], x) || Holds(ls, sa, pm[x], x)
  }

  /** The price array and the lists name the same levels. */
  ghost predicate MapOk(ls: seq<LevelNode>, pm: seq<Ptr>, bs: seq<Level>, sa: seq<Level>) {
    MapsSide(ls, pm, bs) && MapsSide(ls, pm, sa) && MapsBack(ls, pm, bs, sa)
  }

  /** The array once a level appears at an index that had none. */
  lemma MapAdd(ls: seq<LevelNode>, ls': seq<LevelNode>, pm: seq<Ptr>, side: Side, sp: seq<Level>, k: nat,
        lv: Level, other: seq<Level>)
    requires MapsSide(ls, pm, sp) && MapsSide(ls, pm, other)
    requires MapsBack(ls, pm, sp, other) || MapsBack(ls, pm, other, sp)
    requires k <= |sp| && 0 <= lv.at < |ls'| && |ls'| == |ls|
    requires forall i :: 0 <= i < |ls| && i != lv.at ==> ls'[i].data == ls[i].data
    requires forall i :: 0 <= i < |sp| ==> sp[i].at != lv.at
    requires forall i :: 0 <= i < |other| ==> other[i].at != lv.at
    requires pm[PriceToIndex(ls'[lv.at].data.price)] == NULL
    ensures var pm' := pm[PriceToIndex(ls'[lv.at].data.price) := lv.at];
            && MapsSide(ls', pm', InsertAt(sp, k, lv)) && MapsSide(ls', pm', other)
            && MapsBack(ls', pm', InsertAt(sp, k, lv), other) && MapsBack(ls', pm', other, InsertAt(sp, k, lv))
  {
    var x := PriceToIndex(ls'[lv.at].data.price);
    hide PriceToIndex;
    var pm', sp' := pm[x := lv.at], InsertAt(sp, k, lv);
    forall i | 0 <= i < |sp'|
      ensures 0 <= sp'[i].at < |ls'| && pm'[PriceToIndex(ls'[sp'[i].at].data.price)] == sp'[i].at
    {
      if i != k {
        assert sp'[i] == sp[if i < k then i else i - 1];
      }
    }
    forall y | 0 <= y < |pm'| && pm'[y] != NULL
      ensures Holds(ls', sp', pm'[y], y) || Holds(ls', other, pm'[y], y)
    {
      if y == x {
        assert sp'[k].at == lv.at;
      } else {
        HoldsInserted(ls, ls', sp, k, lv, pm[y], y);
        HoldsSame(ls, ls', other, lv.at, pm[y], y);
      }
    }
  }

  lemma HoldsInserted(ls: seq<LevelNode>, ls': seq<LevelNode>, sp: seq<Level>, k: nat, lv: Level, at: Ptr, y: nat)
    requires k <= |sp| && |ls'| == |ls| && forall i :: 0 <= i < |ls| && i != lv.at ==> ls'[i].data == ls[i].data
    requires forall i :: 0 <= i < |sp| ==> sp[i].at != lv.at
    ensures Holds(ls, sp, at, y) ==> Holds(ls', InsertAt(sp, k, lv), at, y)
  {
    if i :| 0 <= i < |sp| && sp[i].at == at && 0 <= at < |ls| && PriceToIndex(ls[at].data.price) == y {
      assert InsertAt(sp, k, lv)[if i < k then i else i + 1] == sp[i];
    }
  }

  lemma HoldsSame(ls: seq<LevelNode>, ls': seq<LevelNode>, sp: seq<Level>, l: Ptr, at: Ptr, y: nat)
    requires |ls'| == |ls| && forall i :: 0 <= i < |ls| && i != l ==> ls'[i].data == ls[i].data
    requires forall i :: 0 <= i < |sp| ==> sp[i].at != l
    ensures Holds(ls, sp, at, y) ==> Holds(ls', sp, at, y)
  {
  }

  /** The array once a level is gone and its slot cleared. */
  lemma MapDrop(ls: seq<LevelNode>, ls': seq<LevelNode>, pm: seq<Ptr>, sp: seq<Level>, k: nat, other: seq<Level>)
    requires MapsSide(ls, pm, sp) && MapsSide(ls, pm, other)
    requires MapsBack(ls, pm, sp, other) || MapsBack(ls, pm, other, sp)
    requires k < |sp| && |ls'| == |ls|
    requires forall i :: 0 <= i < |ls| ==> ls'[i].data == ls[i].data
    requires forall i :: 0 <= i < |sp| && i != k ==> sp[i].at != sp[k].at
    requires forall i :: 0 <= i < |other| ==> other[i].at != sp[k].at
    ensures var pm' := pm[PriceToIndex(ls[sp[k].at].data.price) := NULL];
            && MapsSide(ls', pm', RemoveAt(sp, k)) && MapsSide(ls', pm', other)
            && MapsBack(ls', pm', RemoveAt(sp, k), other) && MapsBack(ls', pm', other, RemoveAt(sp, k))
  {
    var x := PriceToIndex(ls[sp[k].at].data.price);
    var pm', sp' := pm[x := NULL], RemoveAt(sp, k);
    forall i | 0 <= i < |sp'|
      ensures 0 <= sp'[i].at < |ls'| && pm'[PriceToIndex(ls'[sp'[i].at].data.price)] == sp'[i].at
    {
      var o := if i < k then i else i + 1;
      assert sp'[i] == sp[o] && sp[o].at != sp[k].at;
    }
    forall y | 0 <= y < |pm'| && pm'[y] != NULL
      ensures Holds(ls', sp', pm'[y], y) || Holds(ls', other, pm'[y], y)
    {
      if Holds(ls, sp, pm[y], y) {
        var i :| 0 <= i < |sp| && sp[i].at == pm[y] && 0 <= pm[y] < |ls| && PriceToIndex(ls[pm[y]].data.price) == y;
        assert sp'[if i < k then i else i - 1] == sp[i];
      } else {
        var i :| 0 <= i < |other| && other[i].at == pm[y] && 0 <= pm[y] < |ls|
            && PriceToIndex(ls[pm[y]].data.price) == y;
      }
    }
  }

  /** Rewriting a level's other fields keeps the array right. */
  lemma MapFrame(ls: seq<LevelNode>, ls': seq<LevelNode>, pm: seq<Ptr>, bs: seq<Level>, sa: seq<Level>,
        bs': seq<Level>, sa': seq<Level>)
    requires MapOk(ls, pm, bs, sa)
    requires |ls'| == |ls| && forall i :: 0 <= i < |ls| ==> ls'[i].data.price == ls[i].data.price
    requires Ats(bs') == Ats(bs) && Ats(sa') == Ats(sa)
    ensures MapOk(ls', pm, bs', sa')
  {
  }

  ghost predicate SameData(os: seq<OrderNode>, os': seq<OrderNode>) {
    |os'| == |os| && forall i :: 0 <= i < |os| ==> os'[i].data == os[i].data
  }

  predicate IsSide(side: Side) {
    side == BUY || side == SELL
  }

  // ----- the whole structure as a value -----

  /** What the book's blocks, array and heads hold, with the levels they represent. */
  datatype Heap = Heap(os: seq<OrderNode>, ls: seq<LevelNode>, pm: seq<Ptr>, bids: Ptr, asks: Ptr,
                       bidLevels: seq<Level>, askLevels: seq<Level>)
  {
    ghost function Levels(side: Side): seq<Level> {
      if side == BUY then bidLevels else askLevels
    }

    ghost function Head(side: Side): Ptr {
      if side == BUY then bids else asks
    }

    ghost function WithSide(side: Side, head: Ptr, sp: seq<Level>): Heap {
      if side == BUY then this.(bids := head, bidLevels := sp) else this.(asks := head, askLevels := sp)
    }
  }

  ghost predicate HeapOk(h: Heap) {
    && SideOk(h.os, h.ls, BUY, h.bids, h.bidLevels)
    && SideOk(h.os, h.ls, SELL, h.asks, h.askLevels)
    && MapOk(h.ls, h.pm, h.bidLevels, h.askLevels)
  }

  /** An order linked behind the last one of level i. */
  ghost function Appended(h: Heap, side: Side, i: nat, p: Ptr): Heap
    requires HeapOk(h) && IsSide(side) && i < |h.Levels(side)|
    requires 0 <= p < |h.os| && p !in h.Levels(side)[i].fifo
  {
    var sp, f := h.Levels(side), h.Levels(side)[i].fifo;
    assert LevelOk(h.os, h.ls, side, sp[i]);
    h.(os := Splice(h.os, p, f[|f| - 1], f[0])).WithSide(side, h.Head(side), sp[i := Level(sp[i].at, f + [p])])
  }

  lemma AppendedOk(h: Heap, side: Side, i: nat, p: Ptr)
    requires HeapOk(h) && IsSide(side) && i < |h.Levels(side)|
    requires 0 <= p < |h.os| && p !in h.Levels(side)[i].fifo
    requires AtLevel(h.os[p].data, side, h.ls[h.Levels(side)[i].at].data.price)
    ensures HeapOk(Appended(h, side, i, p))
    ensures SameData(h.os, Appended(h, side, i, p).os)
  {
    hide MapOk, Ring;
    var sp, other := h.Levels(side), Opposite(side);
    var t := Appended(h, side, i, p);
    AppendSide(h.os, h.ls, side, h.Head(side), sp, i, p);
    OtherSide(h.os, t.os, h.ls, h.ls, other, h.Head(other), h.Levels(other));
    assert Ats(t.Levels(side)) == Ats(sp);
    MapFrame(h.ls, h.ls, h.pm, h.bidLevels, h.askLevels, t.bidLevels, t.askLevels);
  }

  /** Changes to the nodes of one side leave the other's shape alone. */
  lemma OtherSide(os: seq<OrderNode>, os': seq<OrderNode>, ls: seq<LevelNode>, ls': seq<LevelNode>, side: Side,
        head: Ptr, sp: seq<Level>)
    requires SideOk(os, ls, side, head, sp) && |os'| == |os| && |ls'| == |ls|
    requires forall q :: 0 <= q < |os| && os[q].data.side == side ==> os'[q] == os[q]
    requires forall i :: 0 <= i < |sp| ==> ls'[sp[i].at] == ls[sp[i].at]
    ensures SideOk(os', ls', side, head, sp)
  {
    SideFrame(os, os', ls, ls', side, head, sp);
  }

  lemma LevelIn(h: Heap, side: Side, i: nat)
    requires HeapOk(h) && IsSide(side) && i < |h.Levels(side)|
    ensures var lv := h.Levels(side)[i]; LevelOk(h.os, h.ls, side, lv) && lv.at in Ats(h.Levels(side))
    ensures h.pm[PriceToIndex(h.ls[h.Levels(side)[i].at].data.price)] == h.Levels(side)[i].at
  {
  }

  ghost predicate FreshLevel(h: Heap, n: Ptr) {
    0 <= n < |h.ls| && n !in Ats(h.bidLevels) && n !in Ats(h.askLevels)
  }

  /** Position k is where a level at this price belongs on the side. */
  ghost predicate PlaceOf(h: Heap, side: Side, k: nat, price: int) {
    && k <= |h.Levels(side)|
    && (forall i :: 0 <= i < |h.Levels(side)| ==> 0 <= h.Levels(side)[i].at < |h.ls|)
    && (forall i :: 0 <= i < k ==> Ahead(side, h.ls[h.Levels(side)[i].at].data.price, price))
    && (forall i :: k <= i < |h.Levels(side)| ==> Ahead(side, price, h.ls[h.Levels(side)[i].at].data.price))
  }

  /** The level blocks once level n is filled in and linked at position k of the addresses s. */
  ghost function LinkedLevels(ls: seq<LevelNode>, s: seq<Ptr>, k: nat, n: Ptr, data: LevelData): (r: seq<LevelNode>)
    requires Addresses(ls, s) && n !in s && k <= |s| && 0 <= n < |ls|
    ensures |r| == |ls| && r[n].data == data
    ensures forall i :: 0 <= i < |ls| && i != n ==> r[i].data == ls[i].data
    ensures forall i :: 0 <= i < |ls| && i != n && i !in s ==> r[i] == ls[i]
  {
    var filled := ls[n := Node(data, NULL, NULL)];
    if s == [] then filled[n := filled[n].(prev := n, next := n)]
    else Splice(filled, n, s[if k == 0 then |s| - 1 else k - 1], s[if k == |s| then 0 else k])
  }

  lemma LinkedLevelsRing(ls: seq<LevelNode>, s: seq<Ptr>, k: nat, n: Ptr, data: LevelData)
    requires Ring(ls, s) && n !in s && k <= |s| && 0 <= n < |ls|
    ensures Ring(LinkedLevels(ls, s, k, n, data), InsertAt(s, k, n))
  {
    var filled := ls[n := Node(data, NULL, NULL)];
    if s == [] {
      assert LinkedAt(LinkedLevels(ls, s, k, n, data), InsertAt(s, k, n), 0);
    } else {
      RingFrame(ls, filled, s);
      RingSplice(filled, s, k, n, s[if k == 0 then |s| - 1 else k - 1], s[if k == |s| then 0 else k]);
    }
  }

  /** A level of one order, which the price array had no level for. */
  ghost function LevelAdded(h: Heap, side: Side, k: nat, n: Ptr, p: Ptr): Heap
    requires HeapOk(h) && FreshLevel(h, n) && k <= |h.Levels(side)| && 0 <= p < |h.os|
  {
    var price := h.os[p].data.price;
    h.(os := h.os[p := h.os[p].(prev := p, next := p)],
       ls := LinkedLevels(h.ls, Ats(h.Levels(side)), k, n, LevelData(side, price, p)),
       pm := h.pm[PriceToIndex(price) := n])
     .WithSide(side, if k == 0 then n else h.Head(side), InsertAt(h.Levels(side), k, Level(n, [p])))
  }

  lemma LevelAddedOk(h: Heap, side: Side, k: nat, n: Ptr, p: Ptr)
    requires HeapOk(h) && IsSide(side) && FreshLevel(h, n) && k <= |h.Levels(side)|
    requires 0 <= p < |h.os| && h.os[p].data.side == side
    requires PlaceOf(h, side, k, h.os[p].data.price)
    requires h.pm[PriceToIndex(h.os[p].data.price)] == NULL
    ensures HeapOk(LevelAdded(h, side, k, n, p))
  {
    hide Ring, MapOk, SideOk, PlaceOf;
    var t, lv := LevelAdded(h, side, k, n, p), Level(n, [p]);
    SingleLevel(t.os, t.ls, side, lv);
    AddedRing(h, side, k, n, t.ls[n].data);
    AddedOwnSide(h, t, side, k, n, p);
    AddedOtherSide(h, t, side, k, n, p);
    AddedMap(h, t, side, k, n, p);
  }

  lemma AddedRing(h: Heap, side: Side, k: nat, n: Ptr, data: LevelData)
    requires HeapOk(h) && IsSide(side) && FreshLevel(h, n) && k <= |h.Levels(side)|
    ensures Ring(LinkedLevels(h.ls, Ats(h.Levels(side)), k, n, data), InsertAt(Ats(h.Levels(side)), k, n))
  {
    LinkedLevelsRing(h.ls, Ats(h.Levels(side)), k, n, data);
  }

  lemma SingleLevel(os: seq<OrderNode>, ls: seq<LevelNode>, side: Side, lv: Level)
    requires |lv.fifo| == 1 && 0 <= lv.fifo[0] < |os| && 0 <= lv.at < |ls|
    requires os[lv.fifo[0]].prev == os[lv.fifo[0]].next == lv.fifo[0]
    requires ls[lv.at].data.first == lv.fifo[0] && ls[lv.at].data.side == side
    requires AtLevel(os[lv.fifo[0]].data, side, ls[lv.at].data.price)
    ensures LevelOk(os, ls, side, lv)
  {
  }

  lemma AddedOwnSide(h: Heap, t: Heap, side: Side, k: nat, n: Ptr, p: Ptr)
    requires HeapOk(h) && IsSide(side) && FreshLevel(h, n) && k <= |h.Levels(side)|
    requires 0 <= p < |h.os| && h.os[p].data.side == side
    requires PlaceOf(h, side, k, h.os[p].data.price)
    requires t == LevelAdded(h, side, k, n, p)
    requires LevelOk(t.os, t.ls, side, Level(n, [p])) && Ring(t.ls, InsertAt(Ats(h.Levels(side)), k, n))
    ensures SideOk(t.os, t.ls, side, t.Head(side), t.Levels(side))
  {
    hide Ring, MapOk, LevelOk;
    var sp := h.Levels(side);
    AddedParts(h, side, k, n, p);
    hide LevelAdded, LinkedLevels, FreshLevel;
    forall i | 0 <= i < |sp|
      ensures SameAt(h.os, t.os, side, h.ls[sp[i].at].data.price)
    {
      assert h.ls[sp[i].at].data.price != h.os[p].data.price;
    }
    AddLevelSide(h.os, t.os, h.ls, t.ls, side, h.Head(side), sp, k, Level(n, [p]));
  }

  /** What the book with the new level consists of. */
  lemma AddedParts(h: Heap, side: Side, k: nat, n: Ptr, p: Ptr)
    requires HeapOk(h) && IsSide(side) && FreshLevel(h, n) && k <= |h.Levels(side)| && 0 <= p < |h.os|
    ensures var t := LevelAdded(h, side, k, n, p);
            && 0 <= n < |h.ls| && n !in Ats(h.Levels(side))
            && t.os == h.os[p := h.os[p].(prev := p, next := p)]
            && |t.ls| == |h.ls| && (forall i :: 0 <= i < |h.ls| && i != n ==> t.ls[i].data == h.ls[i].data)
            && t.ls[n].data == LevelData(side, h.os[p].data.price, p)
            && t.Head(side) == (if k == 0 then n else h.Head(side))
            && t.Levels(side) == InsertAt(h.Levels(side), k, Level(n, [p]))
  {
  }

  lemma SidesApart(h: Heap, side: Side, i: nat)
    requires HeapOk(h) && IsSide(side) && i < |h.Levels(side)|
    ensures h.Levels(side)[i].at !in Ats(h.Levels(Opposite(side)))
  {
  }

  lemma AddedOtherSide(h: Heap, t: Heap, side: Side, k: nat, n: Ptr, p: Ptr)
    requires HeapOk(h) && IsSide(side) && FreshLevel(h, n) && k <= |h.Levels(side)|
    requires 0 <= p < |h.os| && h.os[p].data.side == side
    requires t == LevelAdded(h, side, k, n, p)
    ensures var other := Opposite(side); SideOk(t.os, t.ls, other, t.Head(other), t.Levels(other))
  {
    hide Ring, MapOk;
    var other := Opposite(side);
    forall i | 0 <= i < |h.Levels(other)|
      ensures t.ls[h.Levels(other)[i].at] == h.ls[h.Levels(other)[i].at]
    {
      SidesApart(h, other, i);
      LevelIn(h, other, i);
    }
    OtherSide(h.os, t.os, h.ls, t.ls, other, h.Head(other), h.Levels(other));
  }

  lemma AddedMap(h: Heap, t: Heap, side: Side, k: nat, n: Ptr, p: Ptr)
    requires HeapOk(h) && IsSide(side) && FreshLevel(h, n) && k <= |h.Levels(side)|
    requires 0 <= p < |h.os| && h.pm[PriceToIndex(h.os[p].data.price)] == NULL
    requires t == LevelAdded(h, side, k, n, p)
    ensures MapOk(t.ls, t.pm, t.bidLevels, t.askLevels)
  {
    hide Ring, SideOk;
    forall i | 0 <= i < |h.bidLevels|
      ensures h.bidLevels[i].at != n
    {
      assert Ats(h.bidLevels)[i] == h.bidLevels[i].at;
    }
    forall i | 0 <= i < |h.askLevels|
      ensures h.askLevels[i].at != n
    {
      assert Ats(h.askLevels)[i] == h.askLevels[i].at;
    }
    MapAdd(h.ls, t.ls, h.pm, side, h.Levels(side), k, Level(n, [p]), h.Levels(Opposite(side)));
  }

  /** Level i taken out: off the side's list, its slot in the price array cleared. */
  ghost function LevelDropped(h: Heap, side: Side, i: nat): Heap
    requires HeapOk(h) && IsSide(side) && i < |h.Levels(side)|
  {
    var sp, l := h.Levels(side), h.Levels(side)[i].at;
    var pm := h.pm[PriceToIndex(h.ls[l].data.price) := NULL];
    if |sp| == 1 then h.(pm := pm).WithSide(side, NULL, [])
    else
      DropLevelSide(h.os, h.ls, side, h.Head(side), sp, i);
      h.(pm := pm, ls := Unsplice(h.ls, l)).WithSide(side, if i == 0 then sp[1].at else h.Head(side), RemoveAt(sp, i))
  }

  lemma LevelDroppedOk(h: Heap, side: Side, i: nat)
    requires HeapOk(h) && IsSide(side) && i < |h.Levels(side)|
    ensures HeapOk(LevelDropped(h, side, i))
  {
    hide Ring, MapOk, LevelOk;
    var t, sp, other := LevelDropped(h, side, i), h.Levels(side), Opposite(side);
    if |sp| > 1 {
      DropLevelSide(h.os, h.ls, side, h.Head(side), sp, i);
    } else {
      EmptyRing(t.ls, Ats([]));
    }
    DroppedOtherSide(h, t, side, i);
    DroppedMap(h, t, side, i);
  }

  lemma EmptyRing<T>(st: seq<Node<T>>, s: seq<Ptr>)
    requires s == []
    ensures Ring(st, s)
  {
  }

  /** The neighbours of a level's node are nodes of the same side. */
  lemma NeighboursIn(h: Heap, side: Side, i: nat)
    requires HeapOk(h) && IsSide(side) && i < |h.Levels(side)|
    ensures var l := h.Levels(side)[i].at;
            0 <= l < |h.ls| && h.ls[l].prev in Ats(h.Levels(side)) && h.ls[l].next in Ats(h.Levels(side))
  {
    assert LinkedAt(h.ls, Ats(h.Levels(side)), i);
  }

  lemma DroppedOtherSide(h: Heap, t: Heap, side: Side, i: nat)
    requires HeapOk(h) && IsSide(side) && i < |h.Levels(side)| && t == LevelDropped(h, side, i)
    ensures var other := Opposite(side); SideOk(t.os, t.ls, other, t.Head(other), t.Levels(other))
  {
    hide Ring, MapOk;
    var other := Opposite(side);
    LevelIn(h, side, i);
    NeighboursIn(h, side, i);
    forall j | 0 <= j < |h.Levels(other)|
      ensures t.ls[h.Levels(other)[j].at] == h.ls[h.Levels(other)[j].at]
    {
      SidesApart(h, other, j);
      LevelIn(h, other, j);
    }
    OtherSide(h.os, t.os, h.ls, t.ls, other, h.Head(other), h.Levels(other));
  }

  lemma DroppedMap(h: Heap, t: Heap, side: Side, i: nat)
    requires HeapOk(h) && IsSide(side) && i < |h.Levels(side)| && t == LevelDropped(h, side, i)
    ensures MapOk(t.ls, t.pm, t.bidLevels, t.askLevels)
  {
    hide Ring;
    var sp, other := h.Levels(side), h.Levels(Opposite(side));
    LevelIn(h, side, i);
    DistinctLevels(h.os, h.ls, side, h.Head(side), sp);
    forall j | 0 <= j < |other|
      ensures other[j].at != sp[i].at
    {
      SidesApart(h, Opposite(side), j);
    }
    hide SideOk;
    MapDrop(h.ls, t.ls, h.pm, sp, i, other);
  }

  /** The j-th order of level i taken out of a level that keeps others. */
  ghost function OrderUnlinked(h: Heap, side: Side, i: nat, j: nat): Heap
    requires HeapOk(h) && IsSide(side) && i < |h.Levels(side)| && j < |h.Levels(side)[i].fifo|
    requires 1 < |h.Levels(side)[i].fifo|
  {
    var sp, l, f := h.Levels(side), h.Levels(side)[i].at, h.Levels(side)[i].fifo;
    LevelIn(h, side, i);
    RingUnsplice(h.os, f, j);
    var ls := if j == 0 then h.ls[l := h.ls[l].(data := h.ls[l].data.(first := f[1]))] else h.ls;
    h.(os := Unsplice(h.os, f[j]), ls := ls).WithSide(side, h.Head(side), Dropped(sp, i, j))
  }

  lemma OrderUnlinkedOk(h: Heap, side: Side, i: nat, j: nat)
    requires HeapOk(h) && IsSide(side) && i < |h.Levels(side)| && j < |h.Levels(side)[i].fifo|
    requires 1 < |h.Levels(side)[i].fifo|
    ensures HeapOk(OrderUnlinked(h, side, i, j))
    ensures SameData(h.os, OrderUnlinked(h, side, i, j).os)
  {
    hide Ring, MapOk, Unsplice;
    var t, sp, other := OrderUnlinked(h, side, i, j), h.Levels(side), Opposite(side);
    UnlinkSide(h.os, h.ls, t.ls, side, h.Head(side), sp, i, j);
    UnlinkedOther(h, side, i, j);
    hide SideOk;
    assert Ats(t.Levels(side)) == Ats(sp);
    MapFrame(h.ls, t.ls, h.pm, h.bidLevels, h.askLevels, t.bidLevels, t.askLevels);
  }

  lemma UnlinkedOther(h: Heap, side: Side, i: nat, j: nat)
    requires HeapOk(h) && IsSide(side) && i < |h.Levels(side)| && j < |h.Levels(side)[i].fifo|
    requires 1 < |h.Levels(side)[i].fifo|
    ensures var t, other := OrderUnlinked(h, side, i, j), Opposite(side);
            SideOk(t.os, t.ls, other, h.Head(other), h.Levels(other))
  {
    hide Ring, MapOk, Unsplice;
    var t, other := OrderUnlinked(h, side, i, j), Opposite(side);
    OrderNeighbours(h.os, h.ls, side, h.Levels(side)[i], j);
    forall x | 0 <= x < |h.Levels(other)|
      ensures t.ls[h.Levels(other)[x].at] == h.ls[h.Levels(other)[x].at]
    {
      SidesApart(h, other, x);
      LevelIn(h, side, i);
    }
    OtherSide(h.os, t.os, h.ls, t.ls, other, h.Head(other), h.Levels(other));
  }

  lemma OrderNeighbours(os: seq<OrderNode>, ls: seq<LevelNode>, side: Side, lv: Level, j: nat)
    requires LevelOk(os, ls, side, lv) && j < |lv.fifo|
    ensures var p := lv.fifo[j];
            && 0 <= p < |os| && os[p].data.side == side
            && 0 <= os[p].prev < |os| && os[os[p].prev].data.side == side
            && 0 <= os[p].next < |os| && os[os[p].next].data.side == side
  {
    assert LinkedAt(os, lv.fifo, j);
  }

  /** Quantities are no part of the shape. */
  lemma QtySetOk(h: Heap, p: Ptr, n: nat)
    requires HeapOk(h) && 0 <= p < |h.os|
    ensures HeapOk(h.(os := h.os[p := h.os[p].(data := h.os[p].data.(qty := n))]))
  {
    hide Ring, MapOk;
    var os' := h.os[p := h.os[p].(data := h.os[p].data.(qty := n))];
    SideFrame(h.os, os', h.ls, h.ls, BUY, h.bids, h.bidLevels);
    SideFrame(h.os, os', h.ls, h.ls, SELL, h.asks, h.askLevels);
  }
}
