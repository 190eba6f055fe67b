/** The exchange's order book on linked lists, proved to compute the abstract matcher. */
module MatchingEngineOrderBook {
  import opened Types
  import opened Sequences
  import opened Pools
  import opened OrderQueue
  import opened LevelLists
  import opened BookHeap
  import opened LinkedBooks
  import opened Matching
  import opened Guarantees
  import opened Executions

  // ----- what a resting residual needs -----

  ghost function UsedSlots(b: Book): set<nat> {
    set i | 0 <= i < |b.All()| :: PriceToIndex(b.All()[i].price)
  }

  /** Every live price that shares the slot of `price` is `price`. */
  ghost predicate NoCollision(b: Book, price: int) {
    forall i :: 0 <= i < |b.All()| && PriceToIndex(b.All()[i].price) == PriceToIndex(price) ==>
        b.All()[i].price == price
  }

  /** Both pools have two free blocks: one to hand out and one to point at next. */
  ghost predicate Room(b: Book, price: int) {
    && |b.All()| + 1 < ME_MAX_ORDER_IDS
    && (PriceToIndex(price) !in UsedSlots(b) ==> |UsedSlots(b)| + 1 < ME_MAX_PRICE_LEVELS)
  }

  /** What the source's arrays and pools ask of an order that rests: ids within the arrays and not in use, and room. */
  ghost predicate CanRest(b: Book, price: int, c: nat, oid: nat) {
    && c < ME_MAX_NUM_CLIENTS && oid < ME_MAX_ORDER_IDS
    && SideOfOwner(b, Owner(c, oid)) == INVALID_SIDE
    && Room(b, price)
  }

  lemma AnyOf<T>(s: set<T>) returns (x: T)
    requires s != {}
    ensures x in s
  {
    x :| x in s;
  }

  lemma {:induction false} ImageSize(s: set<nat>, f: seq<Ptr>, live: set<Ptr>)
    requires forall x :: x in s ==> x < |f|
    requires forall l :: l in live ==> exists x :: x in s && f[x] == l
    ensures |live| <= |s|
  {
    if live != {} {
      var l := AnyOf(live);
      var x :| x in s && f[x] == l;
      forall k | k in live - {l}
        ensures exists y :: y in s - {x} && f[y] == k
      {
        var y :| y in s && f[y] == k;
        assert y in s - {x};
      }
      ImageSize(s - {x}, f, live - {l});
    }
  }

  lemma {:induction false} SeqSize(ps: seq<Ptr>)
    ensures |set x | x in ps| <= |ps|
  {
    if ps != [] {
      SeqSize(ps[1..]);
      assert (set x | x in ps) == {ps[0]} + set x | x in ps[1..];
    }
  }

  /** The book the blocks represent. */
  ghost function BookOf(h: Heap): Book {
    Book(OrdersIn(h, BUY), OrdersIn(h, SELL))
  }

  /** A live level occupies the slot of one of the orders' prices. */
  lemma LevelSlotUsed(h: Heap, l: Ptr) returns (x: nat)
    requires HeapOk(h) && (l in Ats(h.bidLevels) || l in Ats(h.askLevels))
    ensures x < |h.pm| && x in UsedSlots(BookOf(h)) && h.pm[x] == l
  {
    var side := if l in Ats(h.bidLevels) then BUY else SELL;
    var s := Ats(h.Levels(side));
    var i :| 0 <= i < |s| && s[i] == l;
    LevelHasOrder(h, side, i);
    LevelSlot(h, side, i);
    x := PriceToIndex(PriceAt(h, side, i));
    var k := Position(h.Levels(side), i, 0);
    assert BookOf(h).All()[if side == BUY then k else |OrdersIn(h, BUY)| + k] == OrdersIn(h, side)[k];
  }

  lemma LevelsFit(h: Heap, live: set<Ptr>)
    requires HeapOk(h) && forall l :: l in live ==> l in Ats(h.bidLevels) || l in Ats(h.askLevels)
    ensures |live| <= |UsedSlots(BookOf(h))|
  {
    forall l | l in live
      ensures exists x :: x in UsedSlots(BookOf(h)) && h.pm[x] == l
    {
      var x := LevelSlotUsed(h, l);
    }
    hide HeapOk, UsedSlots;
    SlotsInRange(h);
    ImageSize(UsedSlots(BookOf(h)), h.pm, live);
  }

  lemma SlotsInRange(h: Heap)
    requires HeapOk(h)
    ensures forall x :: x in UsedSlots(BookOf(h)) ==> x < |h.pm|
  {
  }

  lemma EmptySlot(h: Heap, price: int)
    requires HeapOk(h) && h.pm[PriceToIndex(price)] == NULL
    ensures PriceToIndex(price) !in UsedSlots(BookOf(h))
  {
    if PriceToIndex(price) in UsedSlots(BookOf(h)) {
      var i :| 0 <= i < |BookOf(h).All()| && PriceToIndex(BookOf(h).All()[i].price) == PriceToIndex(price);
      var side := if i < |OrdersIn(h, BUY)| then BUY else SELL;
      var k := if side == BUY then i else i - |OrdersIn(h, BUY)|;
      SidesIn(h, side);
      var x, y := PtrsLocate(h.Levels(side), k);
      OrderAt(h, side, x, y);
      assert false;
    }
  }

  // ----- the client-order index -----

  /** The index and the lists name the same orders. */
  ghost predicate Indexed(h: Heap, index: array2<Ptr>)
    reads index
  {
    && index.Length0 == ME_MAX_NUM_CLIENTS && index.Length1 == ME_MAX_ORDER_IDS
    && (forall c: nat, o: nat :: c < index.Length0 && o < index.Length1 && index[c, o] != NULL ==>
          OwnedBy(h, index[c, o], Owner(c, o)))
    && (forall x :: x in PtrsIn(h, BUY) || x in PtrsIn(h, SELL) ==> Found(h, index, x))
  }

  ghost predicate OwnedBy(h: Heap, x: Ptr, w: Owner) {
    && (x in PtrsIn(h, BUY) || x in PtrsIn(h, SELL))
    && 0 <= x < |h.os| && h.os[x].data.owner == w
  }

  ghost predicate Found(h: Heap, index: array2<Ptr>, x: Ptr)
    reads index
  {
    && 0 <= x < |h.os|
    && var w := h.os[x].data.owner;
    && w.Owner? && w.clientId < index.Length0 && w.clientOrderId < index.Length1
    && index[w.clientId, w.clientOrderId] == x
  }

  method NewIndex() returns (index: array2<Ptr>)
    ensures fresh(index) && index.Length0 == ME_MAX_NUM_CLIENTS && index.Length1 == ME_MAX_ORDER_IDS
    ensures forall c: nat, o: nat :: c < index.Length0 && o < index.Length1 ==> index[c, o] == NULL
  {
    index := new Ptr[ME_MAX_NUM_CLIENTS, ME_MAX_ORDER_IDS]((_, _) => NULL);
  }

  lemma EmptyIndex(h: Heap, index: array2<Ptr>)
    requires h.bidLevels == h.askLevels == []
    requires index.Length0 == ME_MAX_NUM_CLIENTS && index.Length1 == ME_MAX_ORDER_IDS
    requires forall c: nat, o: nat :: c < index.Length0 && o < index.Length1 ==> index[c, o] == NULL
    ensures Indexed(h, index) && BookOf(h) == EMPTY_BOOK
  {
  }

  lemma EmptyExchange()
    ensures ExchangeOk(NEW_EXCHANGE)
  {
  }

  lemma TakenData(h: Heap, t: Heap, p: Ptr, x: nat)
    requires Taken(h, t, p, x)
    ensures SameData(h.os, t.os)
  {
  }

  /** A traded order's new quantity at the front of its queue, or the queue without it. */
  lemma Reduced(h: Heap, t: Heap, side: Side, p: Ptr, left: nat)
    requires HeapOk(h) && IsSide(side) && PtrsIn(h, side) != [] && p == PtrsIn(h, side)[0]
    requires 0 <= p < |h.os| && t == h.(os := h.os[p := h.os[p].(data := h.os[p].data.(qty := left))])
    ensures var q := OrdersIn(h, side);
            && q != [] && OrdersIn(t, side) == [q[0].(qty := left)] + q[1..]
            && OrdersIn(t, Opposite(side)) == OrdersIn(h, Opposite(side))
    ensures PtrsIn(t, BUY) == PtrsIn(h, BUY) && PtrsIn(t, SELL) == PtrsIn(h, SELL)
    ensures |t.os| == |h.os| && forall x :: 0 <= x < |h.os| ==>
              t.os[x].data.owner == h.os[x].data.owner && t.os[x].data.side == h.os[x].data.side
  {
    hide HeapOk, OrdersIn;
    QtyMeans(h, side, 0, left);
  }

  /** From h to t, the first order of the side traded `fill` and left if that was all it had; nothing else changed. */
  ghost predicate FrontTraded(h: Heap, t: Heap, side: Side, p: Ptr, fill: nat) {
    var q := OrdersIn(h, side);
    && q != [] && 0 <= p < |h.os| && h.os[p].data == q[0] && fill <= q[0].qty
    && OrdersIn(t, side) == (if q[0].qty == fill then q[1..] else [q[0].(qty := q[0].qty - fill)] + q[1..])
    && OrdersIn(t, Opposite(side)) == OrdersIn(h, Opposite(side))
  }

  lemma FrontGone(h: Heap, t: Heap, u: Heap, side: Side, p: Ptr)
    requires HeapOk(h) && IsSide(side) && PtrsIn(h, side) != [] && p == PtrsIn(h, side)[0]
    requires 0 <= p < |h.os| && t == h.(os := h.os[p := h.os[p].(data := h.os[p].data.(qty := 0))])
    requires Taken(t, u, p, 0)
    ensures FrontTraded(h, u, side, p, h.os[p].data.qty)
  {
    hide HeapOk;
    HeadOrder(h, side);
    Reduced(h, t, side, p, 0);
  }

  lemma FrontLeft(h: Heap, t: Heap, side: Side, p: Ptr, fill: nat)
    requires HeapOk(h) && IsSide(side) && PtrsIn(h, side) != [] && p == PtrsIn(h, side)[0]
    requires 0 <= p < |h.os| && fill < h.os[p].data.qty
    requires t == h.(os := h.os[p := h.os[p].(data := h.os[p].data.(qty := h.os[p].data.qty - fill))])
    ensures FrontTraded(h, t, side, p, fill)
  {
    hide HeapOk;
    HeadOrder(h, side);
    Reduced(h, t, side, p, h.os[p].data.qty - fill);
  }

  lemma FrontMeans(h: Heap, t: Heap, side: Side, p: Ptr, fill: nat)
    requires FrontTraded(h, t, side, p, fill)
    ensures var q := OrdersIn(h, side);
            && q != [] && 0 <= p < |h.os| && h.os[p].data == q[0]
            && OrdersIn(t, side) == FrontAfter(q, fill)
            && OrdersIn(t, Opposite(side)) == OrdersIn(h, Opposite(side))
  {
  }

  function FrontAfter(q: seq<Order>, fill: nat): seq<Order>
    requires q != [] && fill <= q[0].qty
  {
    if q[0].qty == fill then q[1..] else [q[0].(qty := q[0].qty - fill)] + q[1..]
  }

  /** Having sent rs and us, what is left to do from q and `leaves` completes the matching of q0 and qty. */
  ghost predicate Resumes(t: nat, a: Aggressor, q0: seq<Order>, qty: nat, q: seq<Order>, leaves: nat,
        rs: seq<Response>, us: seq<Update>) {
    var r, m := MatchQueue(t, a, q0, qty), MatchQueue(t, a, q, leaves);
    r.queue == m.queue && r.leaves == m.leaves && r.responses == rs + m.responses && r.updates == us + m.updates
  }

  lemma ResumesFirst(t: nat, a: Aggressor, q: seq<Order>, qty: nat)
    ensures Resumes(t, a, q, qty, q, qty, [], [])
  {
  }

  lemma ResumesStep(t: nat, a: Aggressor, q0: seq<Order>, qty: nat, q: seq<Order>, leaves: nat, rs: seq<Response>,
        us: seq<Update>)
    requires Resumes(t, a, q0, qty, q, leaves, rs, us)
    requires leaves > 0 && q != [] && Marketable(a.side, a.price, q[0].price)
    ensures var fill := Min(leaves, q[0].qty);
            Resumes(t, a, q0, qty, FrontAfter(q, fill), leaves - fill,
                    rs + Fills(t, a, q[0], fill, leaves - fill), us + Reports(t, a, q[0], fill))
  {
    var fill := Min(leaves, q[0].qty);
    var f, p := Fills(t, a, q[0], fill, leaves - fill), Reports(t, a, q[0], fill);
    var m, n := MatchQueue(t, a, q, leaves), MatchQueue(t, a, FrontAfter(q, fill), leaves - fill);
    assert m.queue == n.queue && m.leaves == n.leaves && m.responses == f + n.responses && m.updates == p + n.updates;
    hide MatchQueue, Fills, Reports;
    ConcatAssoc(rs, f, n.responses);
    ConcatAssoc(us, p, n.updates);
  }

  lemma {:induction false} ResumesLast(t: nat, a: Aggressor, q0: seq<Order>, qty: nat, q: seq<Order>, leaves: nat,
        rs: seq<Response>, us: seq<Update>)
    requires Resumes(t, a, q0, qty, q, leaves, rs, us)
    requires leaves == 0 || q == [] || !Marketable(a.side, a.price, q[0].price)
    ensures var r := MatchQueue(t, a, q0, qty);
            r.queue == q && r.leaves == leaves && r.responses == rs && r.updates == us
  {
  }

  /** What the side conditions of a resting order give: a slot of its own and room in both pools. */
  lemma RestFits(h: Heap, side: Side, price: int, c: nat, oid: nat, orders: set<Ptr>, levels: set<Ptr>)
    requires HeapOk(h) && IsSide(side)
    requires CanRest(BookOf(h), price, c, oid)
    requires forall x :: x in orders ==> x in PtrsIn(h, BUY) || x in PtrsIn(h, SELL)
    requires forall l :: l in levels ==> l in Ats(h.bidLevels) || l in Ats(h.askLevels)
    ensures |orders| + 1 < ME_MAX_ORDER_IDS
    ensures |h.pm| == ME_MAX_PRICE_LEVELS
    ensures h.pm[PriceToIndex(price)] == NULL ==> |levels| + 1 < ME_MAX_PRICE_LEVELS
  {
    hide HeapOk, OrdersIn, PtrsIn, UsedSlots;
    OrdersFit(h, orders);
    LevelsFit(h, levels);
    PriceSlots(h);
    if h.pm[PriceToIndex(price)] == NULL {
      EmptySlot(h, price);
    }
  }

  lemma PriceSlots(h: Heap)
    requires HeapOk(h)
    ensures |h.pm| == ME_MAX_PRICE_LEVELS
  {
  }

  /** With no opposite order at the price, no collision means that the slot can only hold this side's level at it. */
  lemma OwnSlot(b: Book, side: Side, price: int)
    requires IsSide(side) && Clear(side, b.Queue(Opposite(side)), price)
    ensures Indexable(b.bids, b.asks, side, price) <==> NoCollision(b, price)
  {
    if NoCollision(b, price) {
      forall i | 0 <= i < |b.bids| && PriceToIndex(b.bids[i].price) == PriceToIndex(price)
        ensures b.bids[i].price == price && side == BUY
      {
        assert b.All()[i] == b.bids[i];
      }
      forall i | 0 <= i < |b.asks| && PriceToIndex(b.asks[i].price) == PriceToIndex(price)
        ensures b.asks[i].price == price && side == SELL
      {
        assert b.All()[|b.bids| + i] == b.asks[i];
      }
    }
  }

  lemma OrdersFit(h: Heap, live: set<Ptr>)
    requires HeapOk(h) && forall x :: x in live ==> x in PtrsIn(h, BUY) || x in PtrsIn(h, SELL)
    ensures |live| <= |BookOf(h).All()|
  {
    hide HeapOk, PtrsIn, OrdersIn;
    HeadOrder(h, BUY);
    HeadOrder(h, SELL);
    var ps := PtrsIn(h, BUY) + PtrsIn(h, SELL);
    SeqSize(ps);
    forall x | x in live
      ensures x in ps
    {
    }
    SubsetSize(live, set x | x in ps);
  }

  lemma OwnedPlace(h: Heap, x: Ptr, w: Owner) returns (side: Side, k: nat)
    requires HeapOk(h) && OwnedBy(h, x, w)
    ensures IsSide(side) && k < |PtrsIn(h, side)| && k < |OrdersIn(h, side)|
    ensures PtrsIn(h, side)[k] == x && OrdersIn(h, side)[k].owner == w
  {
    hide HeapOk;
    side := if x in PtrsIn(h, BUY) then BUY else SELL;
    SidesIn(h, side);
    k :| 0 <= k < |PtrsIn(h, side)| && PtrsIn(h, side)[k] == x;
  }

  /** The index has no entry under an id no resting order bears. */
  lemma Unclaimed(h: Heap, index: array2<Ptr>, c: nat, oid: nat)
    requires HeapOk(h) && Indexed(h, index) && c < ME_MAX_NUM_CLIENTS && oid < ME_MAX_ORDER_IDS
    requires SideOfOwner(BookOf(h), Owner(c, oid)) == INVALID_SIDE
    ensures c < index.Length0 && oid < index.Length1 && index[c, oid] == NULL
  {
    hide HeapOk;
    if index[c, oid] != NULL {
      var side, k := OwnedPlace(h, index[c, oid], Owner(c, oid));
    }
  }

  lemma InsertedSame(h: Heap, t: Heap, p: Ptr)
    requires Inserted(h, t, p)
    ensures SameData(h.os, t.os) && 0 <= p < |h.os|
  {
  }

  lemma InsertedMeans(h: Heap, t: Heap, p: Ptr)
    requires Inserted(h, t, p)
    ensures var o := h.os[p].data;
            && OrdersIn(t, o.side) == Insert(o.side, OrdersIn(h, o.side), o)
            && OrdersIn(t, Opposite(o.side)) == OrdersIn(h, Opposite(o.side))
  {
  }

  /** A block that is not linked can be rewritten without touching the index. */
  lemma IndexKeptOff(h: Heap, t: Heap, index: array2<Ptr>, p: Ptr)
    requires Indexed(h, index) && SameBut(h.os, t.os, p) && p !in PtrsIn(h, BUY) && p !in PtrsIn(h, SELL)
    requires PtrsIn(t, BUY) == PtrsIn(h, BUY) && PtrsIn(t, SELL) == PtrsIn(h, SELL)
    ensures Indexed(t, index)
  {
  }

  lemma IndexKept(h: Heap, t: Heap, index: array2<Ptr>, p: Ptr)
    requires Indexed(h, index) && |t.os| == |h.os| && 0 <= p < |h.os|
    requires forall x :: 0 <= x < |h.os| ==> t.os[x].data.owner == h.os[x].data.owner
    requires PtrsIn(t, BUY) == PtrsIn(h, BUY) && PtrsIn(t, SELL) == PtrsIn(h, SELL)
    ensures Indexed(t, index)
  {
  }

  lemma IndexShape(h: Heap, index: array2<Ptr>)
    requires Indexed(h, index)
    ensures index.Length0 == ME_MAX_NUM_CLIENTS && index.Length1 == ME_MAX_ORDER_IDS
  {
  }

  lemma TakenMeans(h: Heap, t: Heap, p: Ptr, x: nat)
    requires Taken(h, t, p, x)
    ensures var side := h.os[p].data.side;
            && x < |OrdersIn(h, side)| && OrdersIn(t, side) == RemoveAt(OrdersIn(h, side), x)
            && OrdersIn(t, Opposite(side)) == OrdersIn(h, Opposite(side))
  {
  }

  /** The index finds exactly the order that a search of the book for its owner finds. */
  lemma Lookup(h: Heap, index: array2<Ptr>, c: nat, oid: nat) returns (side: Side, k: nat)
    requires HeapOk(h) && Indexed(h, index) && (c < ME_MAX_NUM_CLIENTS ==> oid < ME_MAX_ORDER_IDS)
    ensures side == SideOfOwner(BookOf(h), Owner(c, oid))
    ensures side != INVALID_SIDE <==> c < index.Length0 && index[c, oid] != NULL
    ensures side != INVALID_SIDE ==>
              && k == IndexOf(OrdersIn(h, side), Owner(c, oid)) < |OrdersIn(h, side)|
              && k < |PtrsIn(h, side)| && PtrsIn(h, side)[k] == index[c, oid]
              && 0 <= index[c, oid] < |h.os| && h.os[index[c, oid]].data == OrdersIn(h, side)[k]
              && h.os[index[c, oid]].data.side == side
  {
    hide HeapOk;
    var w := Owner(c, oid);
    side := SideOfOwner(BookOf(h), w);
    k := 0;
    SidesIn(h, BUY);
    SidesIn(h, SELL);
    if side != INVALID_SIDE {
      k := IndexOf(OrdersIn(h, side), w);
      assert Found(h, index, PtrsIn(h, side)[k]);
    } else if c < index.Length0 {
      Unclaimed(h, index, c, oid);
    }
  }

  lemma LinkedSide(h: Heap, side: Side, x: nat)
    requires HeapOk(h) && IsSide(side) && x < |PtrsIn(h, side)|
    ensures var p := PtrsIn(h, side)[x]; 0 <= p < |h.os| && h.os[p].data.side == side && p in PtrsIn(h, side)
  {
    SidesIn(h, side);
  }

  lemma LinkedOwner(h: Heap, index: array2<Ptr>, side: Side, x: nat)
    requires HeapOk(h) && Indexed(h, index) && IsSide(side) && x < |PtrsIn(h, side)|
    ensures var p := PtrsIn(h, side)[x]; 0 <= p < |h.os| && h.os[p].data.owner.Owner?
  {
    LinkedSide(h, side, x);
    assert Found(h, index, PtrsIn(h, side)[x]);
  }

  lemma AdmittedIf(m: Exchange, t: nat, c: nat, oid: nat, side: Side, price: int, qty: nat)
    requires IsSide(side)
    requires MatchNew(m, t, c, oid, side, price, qty).leaves > 0 ==>
               CanRest(AfterTrades(m, t, c, oid, side, price, qty), price, c, oid)
    ensures Admitted(m, t, New(c, oid, side, price, qty))
  {
  }

  class MEOrderBook {
    const tickerId: nat
    const lists: LinkedBook
    const cidOidToOrder: array2<Ptr>
    var nextMarketOrderId: nat

    /** What has been sent to the order server and to the market data publisher. */
    var responses: seq<Response>
    var updates: seq<Update>

    /** The abstract exchange this book represents. */
    ghost function Abstract(): Exchange
      reads this, lists, lists.orders, lists.levels, lists.priceMap
    {
      Exchange(BookOf(lists.View()), nextMarketOrderId)
    }

    /** The lists and the index are sound; this holds between the trades of one request too. */
    ghost predicate Linked()
      reads this, lists, lists.Parts(), cidOidToOrder
    {
      && lists.Valid() && Indexed(lists.View(), cidOidToOrder)
      && |lists.orders.objs| == ME_MAX_ORDER_IDS && |lists.levels.objs| == ME_MAX_PRICE_LEVELS
    }

    ghost predicate Valid()
      reads this, lists, lists.Parts(), cidOidToOrder
    {
      Linked() && ExchangeOk(Abstract())
    }

    constructor (tickerId: nat)
      ensures Valid() && Abstract() == NEW_EXCHANGE && this.tickerId == tickerId
      ensures responses == [] && updates == []
      ensures fresh(lists) && fresh(lists.Parts()) && fresh(cidOidToOrder)
    {
      hide HeapOk, ExchangeOk, Indexed, OrdersIn, PtrsIn, LinkedBook.Valid, LinkedBook.Shaped, MemoryPool.Valid;
      hide MemoryPool.Tied;
      this.tickerId := tickerId;
      lists := new LinkedBook(ME_MAX_ORDER_IDS, ME_MAX_PRICE_LEVELS);
      var index := NewIndex();
      cidOidToOrder := index;
      nextMarketOrderId := 1;
      responses, updates := [], [];
      new;
      EmptyIndex(lists.View(), cidOidToOrder);
      EmptyExchange();
    }

    method SendClientResponse(r: Response)
      modifies this`responses
      ensures responses == old(responses) + [r]
    {
      responses := responses + [r];
    }

    method SendMarketUpdate(u: Update)
      modifies this`updates
      ensures updates == old(updates) + [u]
    {
      updates := updates + [u];
    }

    /** Take a linked order out of the lists and the index and give its block back. */
    method RemoveOrder(p: Ptr, ghost side: Side, ghost x: nat)
      requires Linked() && IsSide(side) && x < |PtrsIn(lists.View(), side)| && p == PtrsIn(lists.View(), side)[x]
      modifies cidOidToOrder, lists, lists.Parts()
      ensures Linked()
      ensures Taken(old(lists.View()), lists.View(), p, x)
    {
      hide HeapOk, Taken, PtrsIn;
      ghost var h := lists.View();
      LinkedSide(h, side, x);
      assert Found(h, cidOidToOrder, p);
      var owner := lists.orders.Get(p).data.owner;
      lists.RemoveOrder(p, x);
      cidOidToOrder[owner.clientId, owner.clientOrderId] := NULL;
      ghost var t := lists.View();
      TakenPtrs(h, t, p, x);
      TakenData(h, t, p, x);
      hide LinkedBook.Valid, LinkedBook.Shaped, MemoryPool.Valid;
      forall c: nat, o: nat | c < ME_MAX_NUM_CLIENTS && o < ME_MAX_ORDER_IDS && cidOidToOrder[c, o] != NULL
        ensures OwnedBy(t, cidOidToOrder[c, o], Owner(c, o))
      {
        assert OwnedBy(h, old(cidOidToOrder[c, o]), Owner(c, o));
      }
      forall y | y in PtrsIn(t, BUY) || y in PtrsIn(t, SELL)
        ensures Found(t, cidOidToOrder, y)
      {
        assert old(Found(h, cidOidToOrder, y));
      }
    }

    /** Tell both clients and the market of one trade, at the resting order's price. */
    method SendTrade(a: Aggressor, o: Order, fill: nat, leaves: nat)
      requires fill <= o.qty && o.owner.Owner?
      modifies this`responses, this`updates
      ensures responses == old(responses) + [
                Response(FILLED, a.clientId, tickerId, a.clientOrderId, a.id % QTY_RANGE, a.side, o.price, fill,
                         leaves),
                Response(FILLED, o.owner.clientId, tickerId, o.owner.clientOrderId, o.id, o.side, o.price, fill,
                         o.qty - fill)]
      ensures updates == old(updates) + [
                Update(TRADE, ORDER_ID_INVALID, tickerId, a.side, o.price, fill, PRIORITY_INVALID),
                if fill == o.qty then
                  Update(UpdateType.CANCEL, o.id, tickerId, o.side, o.price, o.qty, PRIORITY_INVALID)
                else Update(MODIFY, o.id, tickerId, o.side, o.price, o.qty - fill, o.priority)]
      ensures responses == old(responses) + Fills(tickerId, a, o, fill, leaves)
      ensures updates == old(updates) + Reports(tickerId, a, o, fill)
    {
      SendClientResponse(
        Response(FILLED, a.clientId, tickerId, a.clientOrderId, a.id % QTY_RANGE, a.side, o.price, fill, leaves));
      SendClientResponse(
        Response(FILLED, o.owner.clientId, tickerId, o.owner.clientOrderId, o.id, o.side, o.price, fill, o.qty - fill));
      SendMarketUpdate(Update(TRADE, ORDER_ID_INVALID, tickerId, a.side, o.price, fill, PRIORITY_INVALID));
      if o.qty == fill {
        SendMarketUpdate(Update(UpdateType.CANCEL, o.id, tickerId, o.side, o.price, o.qty, PRIORITY_INVALID));
      } else {
        SendMarketUpdate(Update(MODIFY, o.id, tickerId, o.side, o.price, o.qty - fill, o.priority));
      }
    }

    /** Trade the incoming order against the best order of the other side. */
    method Match(a: Aggressor, itr: Ptr, leavesQty: nat) returns (leaves: nat)
      requires Linked() && IsSide(a.side)
      requires PtrsIn(lists.View(), Opposite(a.side)) != [] && itr == PtrsIn(lists.View(), Opposite(a.side))[0]
      modifies cidOidToOrder, lists, lists.Parts(), this`responses, this`updates
      ensures Linked() && 0 <= itr < old(|lists.orders.objs|)
      ensures var o := old(lists.orders.objs)[itr].data; var fill := Min(leavesQty, o.qty);
              && leaves == leavesQty - fill
              && FrontTraded(old(lists.View()), lists.View(), Opposite(a.side), itr, fill)
              && responses == old(responses) + Fills(tickerId, a, o, fill, leaves)
              && updates == old(updates) + Reports(tickerId, a, o, fill)
    {
      hide MemoryPool.Tied, HeapOk, Indexed, Taken, OrdersIn, PtrsIn, FrontTraded, Fills, Reports;
      ghost var h, side := lists.View(), Opposite(a.side);
      HeadOrder(h, side);
      LinkedOwner(h, cidOidToOrder, side, 0);
      var order := lists.orders.Get(itr).data;
      var orderQty := order.qty;
      var fill := Min(leavesQty, orderQty);
      leaves := leavesQty - fill;
      lists.SetOrderQty(itr, orderQty - fill);
      ghost var t := lists.View();
      Reduced(h, t, side, itr, orderQty - fill);
      IndexKept(h, t, cidOidToOrder, itr);
      SendTrade(a, order, fill, leaves);
      if orderQty == fill {
        RemoveOrder(itr, side, 0);
        FrontGone(h, t, lists.View(), side, itr);
      } else {
        FrontLeft(h, t, side, itr, fill);
      }
    }

    /** Trade the incoming order for as long as the best opposite order is within its price. */
    method CheckForMatch(a: Aggressor, qty: nat) returns (leaves: nat)
      requires Linked() && IsSide(a.side)
      modifies cidOidToOrder, lists, lists.Parts(), this`responses, this`updates
      ensures Linked()
      ensures var r := MatchQueue(tickerId, a, OrdersIn(old(lists.View()), Opposite(a.side)), qty);
              && leaves == r.leaves
              && OrdersIn(lists.View(), Opposite(a.side)) == r.queue
              && OrdersIn(lists.View(), a.side) == OrdersIn(old(lists.View()), a.side)
              && responses == old(responses) + r.responses
              && updates == old(updates) + r.updates
      ensures leaves > 0 && OrdersIn(lists.View(), Opposite(a.side)) != [] ==>
                var best := OrdersIn(lists.View(), Opposite(a.side))[0].price;
                if a.side == BUY then best > a.price else best < a.price
    {
      hide MemoryPool.Tied, HeapOk, Indexed, OrdersIn, PtrsIn, FrontTraded, MatchQueue, Resumes, Fills, Reports;
      ghost var side, q0, rs, us := Opposite(a.side), OrdersIn(lists.View(), Opposite(a.side)), [], [];
      leaves := qty;
      ResumesFirst(tickerId, a, q0, qty);
      HeadOrder(lists.View(), side);
      while leaves != 0 && lists.Head(Opposite(a.side)) != NULL
        invariant Linked()
        invariant lists.Head(side) == NULL <==> OrdersIn(lists.View(), side) == []
        invariant OrdersIn(lists.View(), a.side) == OrdersIn(old(lists.View()), a.side)
        invariant Resumes(tickerId, a, q0, qty, OrdersIn(lists.View(), side), leaves, rs, us)
        invariant responses == old(responses) + rs && updates == old(updates) + us
        decreases |OrdersIn(lists.View(), side)|, leaves
      {
        ghost var h, left := lists.View(), leaves;
        HeadOrder(h, side);
        var itr := lists.levels.Get(lists.Head(Opposite(a.side))).data.first;
        var order := lists.orders.Get(itr).data;
        if (a.side == BUY && a.price < order.price) || (a.side == SELL && a.price > order.price) {
          break;
        }
        leaves := Match(a, itr, leaves);
        ghost var fill := Min(left, order.qty);
        FrontMeans(h, lists.View(), side, itr, fill);
        ResumesStep(tickerId, a, q0, qty, OrdersIn(h, side), left, rs, us);
        ConcatAssoc(old(responses), rs, Fills(tickerId, a, order, fill, leaves));
        ConcatAssoc(old(updates), us, Reports(tickerId, a, order, fill));
        rs, us := rs + Fills(tickerId, a, order, fill, leaves), us + Reports(tickerId, a, order, fill);
        HeadOrder(lists.View(), side);
      }
      HeadOrder(lists.View(), side);
      ResumesLast(tickerId, a, q0, qty, OrdersIn(lists.View(), side), leaves, rs, us);
    }

    /**
     * Rest what an order could not trade. The book is sound afterwards exactly when no other live price shares the
     * slot.
     */
    method Rest(c: nat, oid: nat, id: nat, side: Side, price: int, leaves: nat)
      requires Linked() && IsSide(side)
      requires CanRest(BookOf(lists.View()), price, c, oid)
      requires Clear(side, OrdersIn(lists.View(), Opposite(side)), price)
      modifies cidOidToOrder, lists, lists.Parts(), this`updates
      ensures Linked() <==> NoCollision(BookOf(old(lists.View())), price)
      ensures Linked() ==>
              var q := OrdersIn(old(lists.View()), side);
              var o := Order(Owner(c, oid), id, side, price, leaves, NextPriority(side, q, price));
              && OrdersIn(lists.View(), side) == Insert(side, q, o)
              && OrdersIn(lists.View(), Opposite(side)) == OrdersIn(old(lists.View()), Opposite(side))
              && updates == old(updates) + [Update(ADD, id, tickerId, side, price, leaves, o.priority)]
    {
      hide MemoryPool.Valid, HeapOk, Indexed, OrdersIn, PtrsIn, NoCollision, Room, UsedSlots, Indexable, Inserted;
      hide Clear, PriceToIndex, SideOfOwner, Rank, NextPriority;
      ghost var h := lists.View();
      RestFits(h, side, price, c, oid, lists.orders.live, lists.levels.live);
      OwnSlot(BookOf(h), side, price);
      Unclaimed(h, cidOidToOrder, c, oid);
      var priority := lists.GetNextPriority(price, side);
      var order := Order(Owner(c, oid), id, side, price, leaves, priority);
      var p := lists.NewOrder(order);
      ghost var u := lists.View();
      IndexKeptOff(h, u, cidOidToOrder, p);
      EnterOrder(p, c, oid, u);
      if Linked() {
        InsertedMeans(u, lists.View(), p);
      }
      SendMarketUpdate(Update(ADD, id, tickerId, side, price, leaves, priority));
    }

    /** Link an allocated order and enter it into the index. */
    method EnterOrder(p: Ptr, c: nat, oid: nat, ghost h: Heap)
      requires |lists.orders.objs| == ME_MAX_ORDER_IDS && |lists.levels.objs| == ME_MAX_PRICE_LEVELS
      requires lists.Shaped() && h == lists.View() && Indexed(h, cidOidToOrder)
      requires 0 <= p < |h.os| && IsSide(h.os[p].data.side) && h.os[p].data.owner == Owner(c, oid)
      requires forall x :: x in lists.orders.live <==> x == p || x in PtrsIn(h, BUY) || x in PtrsIn(h, SELL)
      requires p !in PtrsIn(h, BUY) && p !in PtrsIn(h, SELL)
      requires h.pm[PriceToIndex(h.os[p].data.price)] == NULL ==> |lists.levels.live| + 1 < |lists.levels.objs|
      requires c < ME_MAX_NUM_CLIENTS && oid < ME_MAX_ORDER_IDS && cidOidToOrder[c, oid] == NULL
      modifies cidOidToOrder, lists, lists.Parts()
      ensures Linked() <==> Indexable(OrdersIn(h, BUY), OrdersIn(h, SELL), h.os[p].data.side, h.os[p].data.price)
      ensures Linked() ==> Inserted(h, lists.View(), p)
    {
      hide HeapOk, Inserted, Indexable, PtrsIn, OrdersIn, PriceToIndex;
      lists.AddOrder(p);
      cidOidToOrder[c, oid] := p;
      ghost var t := lists.View();
      if lists.Valid() {
        InsertedPtrs(h, t, p);
        InsertedSame(h, t, p);
        forall d: nat, o: nat | d < ME_MAX_NUM_CLIENTS && o < ME_MAX_ORDER_IDS && cidOidToOrder[d, o] != NULL
          ensures OwnedBy(t, cidOidToOrder[d, o], Owner(d, o))
        {
          assert (d == c && o == oid) || OwnedBy(h, old(cidOidToOrder[d, o]), Owner(d, o));
        }
        forall y | y in PtrsIn(t, BUY) || y in PtrsIn(t, SELL)
          ensures Found(t, cidOidToOrder, y)
        {
          assert y == p || old(Found(h, cidOidToOrder, y));
        }
      }
    }

    /**
     * A new order: accept it, trade what can be traded, rest what is left. The book is sound afterwards exactly when
     * nothing is left or no live price shares the slot of the price that is rested.
     */
    method AddOrder(c: nat, oid: nat, side: Side, price: int, qty: nat)
      requires Valid() && IsSide(side)
      requires MatchNew(Abstract(), tickerId, c, oid, side, price, qty).leaves > 0 ==>
                 CanRest(AfterTrades(Abstract(), tickerId, c, oid, side, price, qty), price, c, oid)
      modifies this`nextMarketOrderId, this`responses, this`updates, cidOidToOrder, lists, lists.Parts()
      ensures Valid() <==>
                (MatchNew(old(Abstract()), tickerId, c, oid, side, price, qty).leaves > 0 ==>
                   NoCollision(AfterTrades(old(Abstract()), tickerId, c, oid, side, price, qty), price))
      ensures var r := Matching.AddOrder(old(Abstract()), tickerId, c, oid, side, price, qty);
              && responses == old(responses) + r.responses
              && (Valid() ==> Abstract() == r.next && updates == old(updates) + r.updates)
      ensures Valid() ==>
                NewOrderSays(old(Abstract()), tickerId, c, oid, side, price, qty, responses[|old(responses)|..],
                             updates[|old(updates)|..],
                             MatchNew(old(Abstract()), tickerId, c, oid, side, price, qty).leaves)
    {
      hide NewOrderSays, ExchangeOk, MatchQueue, HeapOk, Indexed, OrdersIn, PtrsIn, CanRest, Clear, NoCollision;
      ghost var m := Abstract();
      TradesKeep(m, tickerId, c, oid, side, price, qty);
      AddOrderKeeps(m, tickerId, c, oid, side, price, qty) by {
        AdmittedIf(m, tickerId, c, oid, side, price, qty);
      }
      var id := nextMarketOrderId;
      nextMarketOrderId := nextMarketOrderId + 1;
      var accepted := Response(ACCEPTED, c, tickerId, oid, id, side, price, 0, qty);
      SendClientResponse(accepted);
      var leaves := CheckForMatch(Aggressor(c, oid, id, side, price), qty);
      ghost var r := MatchNew(m, tickerId, c, oid, side, price, qty);
      ConcatAssoc(old(responses), [accepted], r.responses);
      if leaves != 0 {
        ghost var us := updates;
        Rest(c, oid, id, side, price, leaves);
        ghost var o := Residual(m, AfterTrades(m, tickerId, c, oid, side, price, qty), c, oid, side, price, leaves);
        ConcatAssoc(old(updates), r.updates, [Update(ADD, id, tickerId, side, price, leaves, o.priority)]);
      }
      if Valid() {
        NewOrderTold(m, tickerId, c, oid, side, price, qty);
        ghost var s := Matching.AddOrder(m, tickerId, c, oid, side, price, qty);
        assert updates == old(updates) + s.updates;
        hide Matching.AddOrder, MatchNew;
        assert responses[|old(responses)|..] == s.responses && updates[|old(updates)|..] == s.updates;
      }
    }

    /** Cancel a resting order, or reject the request. */
    method CancelOrder(c: nat, oid: nat)
      requires Valid() && (c < ME_MAX_NUM_CLIENTS ==> oid < ME_MAX_ORDER_IDS)
      modifies this`responses, this`updates, cidOidToOrder, lists, lists.Parts()
      ensures Valid()
      ensures var r := Matching.CancelOrder(old(Abstract()), tickerId, c, oid);
              && Abstract() == r.next
              && responses == old(responses) + r.responses
              && updates == old(updates) + r.updates
      ensures CancelSays(old(Abstract()).book, tickerId, c, oid, responses[|old(responses)|..],
                         updates[|old(updates)|..], Abstract().book)
    {
      hide ExchangeOk, HeapOk, Indexed, OrdersIn, PtrsIn, Taken, CancelSays;
      ghost var m := Abstract();
      CancelTold(m, tickerId, c, oid);
      CancelOrderKeeps(m, tickerId, c, oid);
      IndexShape(lists.View(), cidOidToOrder);
      var isCancelable := c < ME_MAX_NUM_CLIENTS;
      var order := NULL;
      if isCancelable {
        order := cidOidToOrder[c, oid];
        isCancelable := order != NULL;
      }
      ghost var side, k := Lookup(lists.View(), cidOidToOrder, c, oid);
      if !isCancelable {
        SendClientResponse(Response(CANCEL_REJECTED, c, tickerId, oid, ORDER_ID_INVALID, INVALID_SIDE, PRICE_INVALID,
            QTY_INVALID, QTY_INVALID));
      } else {
        ghost var h := lists.View();
        var o := lists.orders.Get(order).data;
        RemoveOrder(order, side, k);
        TakenMeans(h, lists.View(), order, k);
        SendMarketUpdate(Update(UpdateType.CANCEL, o.id, tickerId, o.side, o.price, 0, o.priority));
        SendClientResponse(Response(CANCELED, c, tickerId, oid, o.id, o.side, o.price, QTY_INVALID, o.qty));
      }
    }
  }
}
