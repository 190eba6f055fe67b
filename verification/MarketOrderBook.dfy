/** The client's replica of one instrument's book, on the same linked lists, and its cached best prices. */
module MarketOrderBook {
  import opened Types
  import opened Sequences
  import opened Pools
  import opened Rings
  import opened OrderQueue
  import opened LevelLists
  import opened BookHeap
  import opened LinkedBooks
  import opened Matching
  import opened Guarantees
  import opened MatchingEngineOrderBook
  import opened Replication
  import opened Snapshot
  import opened TopOfBook

  // ----- the order index -----

  /** The index and the lists name the same orders. */
  ghost predicate ById(h: Heap, index: seq<Ptr>) {
    && |index| == ME_MAX_ORDER_IDS
    && (forall id: nat :: id < |index| && index[id] != NULL ==> IdOf(h, index[id], id))
    && (forall x :: x in PtrsIn(h, BUY) || x in PtrsIn(h, SELL) ==> FoundById(h, index, x))
  }

  ghost predicate IdOf(h: Heap, x: Ptr, id: nat) {
    && (x in PtrsIn(h, BUY) || x in PtrsIn(h, SELL))
    && 0 <= x < |h.os| && h.os[x].data.id == id
  }

  ghost predicate FoundById(h: Heap, index: seq<Ptr>, x: Ptr) {
    0 <= x < |h.os| && h.os[x].data.id < |index| && index[h.os[x].data.id] == x
  }

  lemma EmptyById(h: Heap, index: seq<Ptr>)
    requires h.bidLevels == h.askLevels == []
    requires |index| == ME_MAX_ORDER_IDS && forall id :: 0 <= id < |index| ==> index[id] == NULL
    ensures ById(h, index) && BookOf(h) == EMPTY_BOOK && ReplicaOk(EMPTY_BOOK)
  {
  }

  /** The index entry of a resting order is where the queues say it is. */
  lemma FindById(h: Heap, index: seq<Ptr>, side: Side, k: nat) returns (p: Ptr)
    requires HeapOk(h) && ById(h, index) && IsSide(side) && k < |OrdersIn(h, side)|
    ensures var id := OrdersIn(h, side)[k].id;
            && id < |index| && p == index[id] && 0 <= p < |h.os|
            && k < |PtrsIn(h, side)| && p == PtrsIn(h, side)[k] && h.os[p].data == OrdersIn(h, side)[k]
            && h.os[p].data.side == side
  {
    hide HeapOk;
    SidesIn(h, side);
    p := PtrsIn(h, side)[k];
    assert FoundById(h, index, p);
  }

  // ----- what an ADD needs -----

  /** Both pools have room for the new order. */
  ghost predicate Listable(b: Book, u: Update) {
    IsSide(u.side) && Room(b, u.price)
  }

  /** No resting order of another price or the other side shares the new order's slot. */
  ghost predicate OwnsSlot(b: Book, u: Update) {
    Indexable(b.bids, b.asks, u.side, u.price)
  }

  lemma ListFits(h: Heap, u: Update, orders: set<Ptr>, levels: set<Ptr>)
    requires HeapOk(h) && Listable(BookOf(h), u)
    requires forall x :: x in orders ==> x in PtrsIn(h, BUY) || x in PtrsIn(h, SELL)
    requires forall l :: l in levels ==> l in Ats(h.bidLevels) || l in Ats(h.askLevels)
    ensures |orders| + 1 < ME_MAX_ORDER_IDS && |h.pm| == ME_MAX_PRICE_LEVELS
    ensures h.pm[PriceToIndex(u.price)] == NULL ==> |levels| + 1 < ME_MAX_PRICE_LEVELS
  {
    hide HeapOk, OrdersIn, PtrsIn, UsedSlots;
    OrdersFit(h, orders);
    LevelsFit(h, levels);
    PriceSlots(h);
    if h.pm[PriceToIndex(u.price)] == NULL {
      EmptySlot(h, u.price);
    }
  }

  /**
   * Where the exchange may rest a residual, a replica of its book may list it; and the slots collide in both or
   * neither.
   */
  lemma ListableReplica(b: Book, u: Update, c: nat, oid: nat)
    requires IsSide(u.side) && CanRest(b, u.price, c, oid) && Clear(u.side, b.Queue(Opposite(u.side)), u.price)
    ensures Listable(Public(b), u) && (OwnsSlot(Public(b), u) <==> NoCollision(b, u.price))
  {
    OwnSlot(b, u.side, u.price);
    var p := Public(b);
    assert |p.All()| == |b.All()|;
    forall i | 0 <= i < |b.All()|
      ensures p.All()[i].price == b.All()[i].price
    {
    }
    assert UsedSlots(p) == UsedSlots(b);
    SameSlots(b, u.side, u.price);
  }

  lemma SameSlots(b: Book, side: Side, price: int)
    ensures var p := Public(b); Indexable(p.bids, p.asks, side, price) <==> Indexable(b.bids, b.asks, side, price)
  {
    hide PriceToIndex;
    var p := Public(b);
    assert forall i :: 0 <= i < |b.bids| ==> p.bids[i].price == b.bids[i].price;
    assert forall i :: 0 <= i < |b.asks| ==> p.asks[i].price == b.asks[i].price;
  }

  // ----- the index through each change -----

  /** No resting order bears the newest id. */
  lemma Unlisted(h: Heap, index: seq<Ptr>, u: Update)
    requires HeapOk(h) && ById(h, index) && Follows(BookOf(h), u) && u.kind == ADD
    ensures u.orderId < |index| && index[u.orderId] == NULL
  {
    hide HeapOk;
    if index[u.orderId] != NULL {
      var x := index[u.orderId];
      var side := if x in PtrsIn(h, BUY) then BUY else SELL;
      SidesIn(h, side);
      assert false;
    }
  }

  /** Changes that keep every linked order's place and id keep the index right. */
  lemma ByIdKept(h: Heap, t: Heap, index: seq<Ptr>)
    requires ById(h, index) && |t.os| == |h.os|
    requires PtrsIn(t, BUY) == PtrsIn(h, BUY) && PtrsIn(t, SELL) == PtrsIn(h, SELL)
    requires forall x :: x in PtrsIn(h, BUY) || x in PtrsIn(h, SELL) ==>
               0 <= x < |h.os| && t.os[x].data.id == h.os[x].data.id
    ensures ById(t, index)
  {
  }

  lemma LinkedInRange(h: Heap, index: seq<Ptr>)
    requires ById(h, index)
    ensures forall x :: x in PtrsIn(h, BUY) || x in PtrsIn(h, SELL) ==> 0 <= x < |h.os|
  {
  }

  lemma ByIdEntered(h: Heap, t: Heap, index: seq<Ptr>, p: Ptr, id: nat)
    requires ById(h, index) && Inserted(h, t, p) && IsSide(h.os[p].data.side)
    requires id < |index| && index[id] == NULL && h.os[p].data.id == id
    ensures ById(t, index[id := p])
  {
    hide Inserted, PtrsIn;
    InsertedPtrs(h, t, p);
    InsertedSame(h, t, p);
    var next := index[id := p];
    forall i: nat | i < |next| && next[i] != NULL
      ensures IdOf(t, next[i], i)
    {
      assert i == id || IdOf(h, index[i], i);
    }
    forall x | x in PtrsIn(t, BUY) || x in PtrsIn(t, SELL)
      ensures FoundById(t, next, x)
    {
      assert x == p || FoundById(h, index, x);
    }
  }

  lemma ByIdTaken(h: Heap, t: Heap, index: seq<Ptr>, p: Ptr, x: nat, id: nat)
    requires HeapOk(h) && ById(h, index) && Taken(h, t, p, x) && IsSide(h.os[p].data.side)
    requires PtrsIn(h, h.os[p].data.side)[x] == p && h.os[p].data.id == id < |index| && index[id] == p
    ensures ById(t, index[id := NULL])
  {
    hide Taken, HeapOk, PtrsIn;
    TakenPtrs(h, t, p, x);
    TakenData(h, t, p, x);
    var next := index[id := NULL];
    forall i: nat | i < |next| && next[i] != NULL
      ensures IdOf(t, next[i], i)
    {
      assert IdOf(h, index[i], i);
    }
    forall y | y in PtrsIn(t, BUY) || y in PtrsIn(t, SELL)
      ensures FoundById(t, next, y)
    {
      assert FoundById(h, index, y);
    }
  }

  // ----- what each change means for the replica -----

  lemma ModifyMeans(b: Book, u: Update, k: nat)
    requires ReplicaOk(b) && Follows(b, u) && u.kind == MODIFY
    requires k < |b.Queue(u.side)| && b.Queue(u.side)[k].id == u.orderId
    ensures var q := b.Queue(u.side);
            && Apply(b, u).Queue(u.side) == q[k := q[k].(qty := u.qty)]
            && Apply(b, u).Queue(Opposite(u.side)) == b.Queue(Opposite(u.side))
  {
  }

  lemma CancelMeans(b: Book, u: Update, k: nat)
    requires ReplicaOk(b) && Follows(b, u) && u.kind == UpdateType.CANCEL
    requires k < |b.Queue(u.side)| && b.Queue(u.side)[k].id == u.orderId
    ensures Apply(b, u).Queue(u.side) == RemoveAt(b.Queue(u.side), k)
    ensures Apply(b, u).Queue(Opposite(u.side)) == b.Queue(Opposite(u.side))
  {
    var q, other := b.Queue(u.side), b.Queue(Opposite(u.side));
    assert forall i :: 0 <= i < k ==> q[i].id != q[k].id;
    RemoveIs(q, k);
    RemoveAbsent(other, u.orderId);
  }

  /** The place of the order an update names. */
  lemma NamedPlace(b: Book, u: Update) returns (k: nat)
    requires Follows(b, u) && (u.kind == MODIFY || u.kind == UpdateType.CANCEL)
    ensures IsSide(u.side) && k < |b.Queue(u.side)| && b.Queue(u.side)[k].id == u.orderId
  {
    k :| 0 <= k < |b.Queue(u.side)| && b.Queue(u.side)[k].id == u.orderId;
  }

  lemma SameQueues(b: Book, c: Book, side: Side)
    requires IsSide(side) && b.Queue(side) == c.Queue(side) && b.Queue(Opposite(side)) == c.Queue(Opposite(side))
    ensures b == c
  {
  }

  lemma QueueOfBook(h: Heap, side: Side)
    requires IsSide(side)
    ensures BookOf(h).Queue(side) == OrdersIn(h, side) && BookOf(h).Queue(Opposite(side)) == OrdersIn(h, Opposite(side))
  {
  }

  lemma AddMeans(b: Book, u: Update)
    requires Follows(b, u) && u.kind == ADD
    ensures IsSide(u.side)
    ensures Apply(b, u).Queue(u.side) == Insert(u.side, b.Queue(u.side), OrderOf(u))
    ensures Apply(b, u).Queue(Opposite(u.side)) == b.Queue(Opposite(u.side))
  {
  }

  // ----- a clear -----

  /** The blocks, array and heads once a clear has run: the price array keeps its entries. */
  ghost function Cleared(h: Heap): Heap {
    h.(bids := NULL, asks := NULL, bidLevels := [], askLevels := [])
  }

  /** A clear leaves a well-formed book exactly when there was nothing to clear; otherwise a price slot stays filled. */
  lemma ClearedShape(h: Heap)
    requires HeapOk(h)
    ensures BookOf(Cleared(h)) == EMPTY_BOOK
    ensures PtrsIn(Cleared(h), BUY) == [] && PtrsIn(Cleared(h), SELL) == []
    ensures HeapOk(Cleared(h)) <==> BookOf(h) == EMPTY_BOOK
    ensures BookOf(h) == EMPTY_BOOK ==> Cleared(h) == h
    ensures BookOf(h) != EMPTY_BOOK ==> exists x :: 0 <= x < |h.pm| && h.pm[x] != NULL
  {
    HeadOrder(h, BUY);
    HeadOrder(h, SELL);
    if BookOf(h) != EMPTY_BOOK {
      var side := if h.bidLevels != [] then BUY else SELL;
      LevelSlot(h, side, 0);
      LevelIn(h, side, 0);
      assert h.pm[PriceToIndex(PriceAt(h, side, 0))] != NULL;
    }
  }

  lemma LiveIds(h: Heap, index: seq<Ptr>, x: Ptr)
    requires ById(h, index) && (x in PtrsIn(h, BUY) || x in PtrsIn(h, SELL))
    ensures 0 <= x < |h.os| && h.os[x].data.id < |index| && index[h.os[x].data.id] == x
  {
  }

  lemma IndexedIds(h: Heap, index: seq<Ptr>, id: nat)
    requires ById(h, index) && id < |index| && index[id] != NULL
    ensures var x := index[id];
            (x in PtrsIn(h, BUY) || x in PtrsIn(h, SELL)) && 0 <= x < |h.os| && h.os[x].data.id == id
  {
  }

  /** The levels of a side as a ring of nodes. */
  lemma LevelRing(h: Heap, side: Side)
    requires HeapOk(h) && IsSide(side)
    ensures Ring(h.ls, Ats(h.Levels(side)))
    ensures h.Head(side) == if h.Levels(side) == [] then NULL else Ats(h.Levels(side))[0]
    ensures h.Levels(side) != [] ==> h.Head(side) != NULL
  {
  }

  lemma LevelsApart(h: Heap, x: Ptr)
    requires HeapOk(h) && x in Ats(h.bidLevels)
    ensures x !in Ats(h.askLevels)
  {
  }

  // ----- the top level -----

  /** The first level's ring holds the orders the best price is made of. */
  lemma {:induction false} TopLevel(h: Heap, side: Side)
    requires HeapOk(h) && IsSide(side) && h.Head(side) != NULL
    ensures h.Levels(side) != []
    ensures var f, q := h.Levels(side)[0].fifo, OrdersIn(h, side);
            && Ring(h.os, f) && f != [] && |f| <= |q|
            && 0 <= h.Head(side) < |h.ls| && h.ls[h.Head(side)].data.first == f[0]
            && h.ls[h.Head(side)].data.price == q[0].price
            && Rank(side, q, q[0].price) == |f|
            && forall i :: 0 <= i < |f| ==> 0 <= f[i] < |h.os| && h.os[f[i]].data == q[i]
  {
    LevelIn(h, side, 0);
    LastNode(h, side, 0);
    RankPast(h, side, 0);
    SidesIn(h, side);
    hide HeapOk, Ring, Rank;
    FirstFifo(h.Levels(side));
  }

  lemma {:induction false} FirstFifo(sp: seq<Level>)
    requires sp != []
    ensures Position(sp, 1, 0) == |sp[0].fifo| <= |Ptrs(sp)|
    ensures forall i :: 0 <= i < |sp[0].fifo| ==> Ptrs(sp)[i] == sp[0].fifo[i]
  {
    assert sp[..1] == [sp[0]] && sp[..1][1..] == [];
    assert Ptrs(sp[..1]) == sp[0].fifo + Ptrs(sp[..1][1..]);
  }

  lemma {:induction false} TotalGrows(q: seq<Order>, k: nat)
    requires k < |q|
    ensures Total(q[..k + 1]) == Total(q[..k]) + q[k].qty
  {
    if k == 0 {
      assert q[..1][1..] == [] && q[..0] == [];
    } else {
      TotalStep(q, k);
      TotalStep(q, k + 1);
      TotalGrows(q[1..], k - 1);
    }
  }

  class MarketOrderBook {
    const tickerId: nat
    const lists: LinkedBook
    const oidToOrder: array<Ptr>
    var bbo: BBO

    /** The abstract replica this book represents. */
    ghost function Abstract(): Book
      reads this, lists, lists.orders, lists.levels, lists.priceMap
    {
      BookOf(lists.View())
    }

    ghost predicate Linked()
      reads this, lists, lists.Parts(), oidToOrder
    {
      && lists.Valid() && oidToOrder.Length == ME_MAX_ORDER_IDS && ById(lists.View(), oidToOrder[..])
      && oidToOrder as object != lists.priceMap
      && oidToOrder as object != lists.orders.store && oidToOrder as object != lists.levels.store
      && |lists.orders.objs| == ME_MAX_ORDER_IDS && |lists.levels.objs| == ME_MAX_PRICE_LEVELS
    }

    ghost predicate Valid()
      reads this, lists, lists.Parts(), oidToOrder
    {
      Linked() && ReplicaOk(Abstract())
    }

    constructor (tickerId: nat)
      ensures Valid() && Abstract() == EMPTY_BOOK && bbo == BBO(NO_QUOTE, NO_QUOTE)
      ensures fresh(lists) && fresh(lists.Parts()) && fresh(oidToOrder)
    {
      hide HeapOk, ReplicaOk, ById, OrdersIn, PtrsIn, LinkedBook.Valid, LinkedBook.Shaped, MemoryPool.Valid;
      hide MemoryPool.Tied;
      this.tickerId := tickerId;
      lists := new LinkedBook(ME_MAX_ORDER_IDS, ME_MAX_PRICE_LEVELS);
      oidToOrder := new Ptr[ME_MAX_ORDER_IDS](_ => NULL);
      bbo := BBO(NO_QUOTE, NO_QUOTE);
      new;
      EmptyById(lists.View(), oidToOrder[..]);
    }

    /** The best price of a side and the quantity of its whole level, walking the level's ring. */
    method TopQuote(side: Side) returns (quote: Quote)
      requires lists.Valid() && IsSide(side) && Queue(side, Abstract().Queue(side))
      ensures quote == BestOf(side, Abstract().Queue(side)) && IsBest(side, Abstract().Queue(side), quote)
    {
      hide HeapOk, OrdersIn, Ring, Rank, Tally, MemoryPool.Tied, Queue, IsBest;
      ghost var h := lists.View();
      BestIs(side, Abstract().Queue(side), BestOf(side, Abstract().Queue(side)));
      HeadOrder(h, side);
      if lists.Head(side) == NULL {
        return NO_QUOTE;
      }
      TopLevel(h, side);
      ghost var f, q := h.Levels(side)[0].fifo, OrdersIn(h, side);
      var top := lists.levels.Get(lists.Head(side)).data;
      var qty := lists.orders.Get(top.first).data.qty % QTY_RANGE;
      TallyFirst(q);
      RingStep(h.os, f, 0);
      var order := lists.orders.Get(top.first).next;
      ghost var k := 1;
      while order != top.first
        invariant 0 < k <= |f| && order == (if k == |f| then f[0] else f[k])
        invariant qty == Tally(q, k)
        decreases |f| - k
      {
        RingStep(h.os, f, k);
        TallyNext(q, k);
        qty := (qty + lists.orders.Get(order).data.qty) % QTY_RANGE;
        order := lists.orders.Get(order).next;
        k := k + 1;
      }
      RingEnd(h.os, f, k);
      return Quote(top.price, qty);
    }

    method UpdateBBO(updateBid: bool, updateAsk: bool)
      requires updateBid || updateAsk ==> lists.Valid() && Queue(BUY, Abstract().bids) && Queue(SELL, Abstract().asks)
      modifies this`bbo
      ensures bbo == BBO(if updateBid then BestOf(BUY, Abstract().bids) else old(bbo).bid,
                         if updateAsk then BestOf(SELL, Abstract().asks) else old(bbo).ask)
      ensures if updateBid then IsBest(BUY, Abstract().bids, bbo.bid) else bbo.bid == old(bbo).bid
      ensures if updateAsk then IsBest(SELL, Abstract().asks, bbo.ask) else bbo.ask == old(bbo).ask
    {
      hide HeapOk, OrdersIn, BestOf, MemoryPool.Valid, IsBest, Queue;
      if updateBid {
        var quote := TopQuote(BUY);
        bbo := bbo.(bid := quote);
      }
      if updateAsk {
        var quote := TopQuote(SELL);
        bbo := bbo.(ask := quote);
      }
    }

    /** Rest the order an ADD describes. The replica is sound afterwards exactly when the order's slot is its own. */
    method Add(u: Update)
      requires Valid() && u.kind == ADD && Follows(Abstract(), u) && Listable(Abstract(), u)
      modifies oidToOrder, lists, lists.Parts()
      ensures Valid() <==> OwnsSlot(old(Abstract()), u)
      ensures Valid() ==> Abstract() == Apply(old(Abstract()), u)
    {
      hide MemoryPool.Tied, HeapOk, ById, ReplicaOk, Follows, Apply, Inserted, Indexable, PtrsIn, OrdersIn;
      hide PriceToIndex;
      hide UsedSlots;
      ghost var h, b := lists.View(), Abstract();
      AddMeans(b, u);
      ApplyKeeps(b, u);
      ListFits(h, u, lists.orders.live, lists.levels.live);
      Unlisted(h, oidToOrder[..], u);
      LinkedInRange(h, oidToOrder[..]);
      var p := lists.NewOrder(OrderOf(u));
      ghost var v := lists.View();
      ByIdKept(h, v, oidToOrder[..]);
      EnterOrder(p, u.orderId, v);
      ghost var t := lists.View();
      if Linked() {
        InsertedMeans(v, t, p);
        QueueOfBook(h, u.side);
        QueueOfBook(t, u.side);
        SameQueues(Abstract(), Apply(b, u), u.side);
      }
    }

    /** Link an allocated order and enter it into the index. */
    method EnterOrder(p: Ptr, id: nat, ghost h: Heap)
      requires |lists.orders.objs| == ME_MAX_ORDER_IDS && |lists.levels.objs| == ME_MAX_PRICE_LEVELS
      requires oidToOrder as object != lists.priceMap
      requires oidToOrder as object != lists.orders.store && oidToOrder as object != lists.levels.store
      requires lists.Shaped() && h == lists.View() && ById(h, oidToOrder[..])
      requires 0 <= p < |h.os| && IsSide(h.os[p].data.side) && h.os[p].data.id == id
      requires forall x :: x in lists.orders.live <==> x == p || x in PtrsIn(h, BUY) || x in PtrsIn(h, SELL)
      requires p !in PtrsIn(h, BUY) && p !in PtrsIn(h, SELL)
      requires h.pm[PriceToIndex(h.os[p].data.price)] == NULL ==> |lists.levels.live| + 1 < |lists.levels.objs|
      requires id < oidToOrder.Length == ME_MAX_ORDER_IDS && oidToOrder[..][id] == NULL
      modifies oidToOrder, lists, lists.Parts()
      ensures Linked() <==> Indexable(OrdersIn(h, BUY), OrdersIn(h, SELL), h.os[p].data.side, h.os[p].data.price)
      ensures Linked() ==> Inserted(h, lists.View(), p)
    {
      hide HeapOk, ById, Inserted, Indexable, PtrsIn, OrdersIn, PriceToIndex;
      lists.AddOrder(p);
      if lists.Valid() {
        ByIdEntered(h, lists.View(), oidToOrder[..], p, id);
      }
      oidToOrder[id] := p;
    }

    method Modify(u: Update)
      requires Valid() && u.kind == MODIFY && Follows(Abstract(), u)
      modifies lists.orders`objs, lists.orders.store
      ensures Valid() && Abstract() == Apply(old(Abstract()), u)
    {
      hide MemoryPool.Tied, HeapOk, ById, ReplicaOk, Follows, Apply, PtrsIn, OrdersIn;
      ghost var h, b := lists.View(), Abstract();
      ghost var k := NamedPlace(b, u);
      ModifyMeans(b, u, k);
      ApplyKeeps(b, u);
      QueueOfBook(h, u.side);
      ghost var x := FindById(h, oidToOrder[..], u.side, k);
      LinkedInRange(h, oidToOrder[..]);
      QtyMeans(h, u.side, k, u.qty);
      var p := oidToOrder[u.orderId];
      lists.SetOrderQty(p, u.qty);
      ghost var t := lists.View();
      SamePtrs(h, t);
      ByIdKept(h, t, oidToOrder[..]);
      QueueOfBook(t, u.side);
      SameQueues(Abstract(), Apply(b, u), u.side);
    }

    method Cancel(u: Update)
      requires Valid() && u.kind == UpdateType.CANCEL && Follows(Abstract(), u)
      modifies oidToOrder, lists, lists.Parts()
      ensures Valid() && Abstract() == Apply(old(Abstract()), u)
    {
      hide HeapOk, ById, ReplicaOk, Follows, Apply, PtrsIn, OrdersIn, Taken;
      ghost var h, b := lists.View(), Abstract();
      ghost var k := NamedPlace(b, u);
      CancelMeans(b, u, k);
      ApplyKeeps(b, u);
      QueueOfBook(h, u.side);
      ghost var x := FindById(h, oidToOrder[..], u.side, k);
      var p := oidToOrder[u.orderId];
      lists.RemoveOrder(p, k);
      ghost var t := lists.View();
      ByIdTaken(h, t, oidToOrder[..], p, k, u.orderId);
      TakenMeans(h, t, p, k);
      oidToOrder[u.orderId] := NULL;
      QueueOfBook(t, u.side);
      SameQueues(Abstract(), Apply(b, u), u.side);
    }

    /** Give back every order block the index names. */
    method FreeOrders()
      requires Linked()
      modifies lists.orders`live, lists.orders.store
      ensures lists.orders.Valid() && lists.orders.live == {}
    {
      hide HeapOk, ById, PtrsIn, OrdersIn;
      ghost var h, index := lists.View(), oidToOrder[..];
      ghost var live := lists.orders.live;
      for id := 0 to oidToOrder.Length
        invariant lists.orders.Valid() && lists.View() == h && oidToOrder[..] == index
        invariant lists.orders.live <= live
        invariant forall x :: x in live ==> 0 <= x < |h.os| && (x in lists.orders.live <==> h.os[x].data.id >= id)
      {
        var order := oidToOrder[id];
        if order != NULL {
          IndexedIds(h, index, id);
          lists.orders.Deallocate(order);
        }
        forall x | x in live && h.os[x].data.id == id
          ensures x == order
        {
          LiveIds(h, index, x);
        }
      }
      forall x | x in lists.orders.live
        ensures false
      {
        LiveIds(h, index, x);
      }
    }

    /** Give back every level block of one side, the best one last. */
    method FreeLevels(side: Side)
      requires IsSide(side) && lists.levels.Valid() && HeapOk(lists.View())
      requires forall x :: x in Ats(lists.View().Levels(side)) ==> x in lists.levels.live
      modifies lists.levels`live, lists.levels.store
      ensures lists.levels.Valid()
      ensures forall x :: x in lists.levels.live <==>
                x in old(lists.levels.live) && x !in Ats(lists.View().Levels(side))
    {
      hide MemoryPool.Tied, HeapOk;
      ghost var h, live := lists.View(), lists.levels.live;
      ghost var s := Ats(h.Levels(side));
      LevelRing(h, side);
      var head := lists.Head(side);
      if head != NULL {
        RingStep(h.ls, s, 0);
        var level := lists.levels.Get(head).next;
        ghost var k := 1;
        while level != head
          invariant 0 < k <= |s| && level == (if k == |s| then s[0] else s[k])
          invariant lists.levels.Valid() && lists.View() == h
          invariant forall x :: x in lists.levels.live <==> x in live && x !in s[1..k]
          decreases |s| - k
        {
          RingStep(h.ls, s, k);
          NotYet(h.ls, s, k);
          lists.levels.Deallocate(level);
          level := lists.levels.Get(level).next;
          k := k + 1;
        }
        RingEnd(h.ls, s, k);
        NotYet(h.ls, s, 0);
        assert s == [s[0]] + s[1..k];
        lists.levels.Deallocate(head);
      }
    }

    /** Give back both sides' levels and empty the lists. */
    method DropLevels()
      requires lists.Shaped()
      modifies lists, lists.levels`live, lists.levels.store
      ensures lists.levels.Valid() && lists.levels.live == {}
      ensures lists.View() == Cleared(old(lists.View()))
    {
      hide MemoryPool.Tied, HeapOk;
      ghost var h := lists.View();
      FreeLevels(BUY);
      forall x | x in Ats(h.bidLevels)
        ensures x !in Ats(h.askLevels)
      {
        LevelsApart(h, x);
      }
      FreeLevels(SELL);
      assert forall x :: x !in lists.levels.live;
      lists.SetHead(BUY, NULL);
      lists.SetHead(SELL, NULL);
      lists.SetLevels(BUY, []);
      lists.SetLevels(SELL, []);
    }

    /** Drop everything: the blocks, the index and the two heads. The price array is left as it was. */
    method ClearAll()
      requires Valid()
      modifies oidToOrder, lists, lists.Parts()
      ensures lists.View() == Cleared(old(lists.View())) && Abstract() == EMPTY_BOOK
      ensures lists.orders.live == {} && lists.levels.live == {}
      ensures forall id :: 0 <= id < oidToOrder.Length ==> oidToOrder[id] == NULL
      ensures Valid() <==> old(Abstract()) == EMPTY_BOOK
      ensures !Valid() ==> exists x :: 0 <= x < lists.priceMap.Length && lists.priceMap[..][x] != NULL
    {
      hide HeapOk, ById, ReplicaOk, PtrsIn, OrdersIn, Ring, MemoryPool.Tied;
      ghost var h := lists.View();
      FreeOrders();
      forall id | 0 <= id < oidToOrder.Length {
        oidToOrder[id] := NULL;
      }
      DropLevels();
      ClearedShape(h);
      EmptyById(lists.View(), oidToOrder[..]);
    }

    /** Process one market data update. */
    method OnMarketUpdate(u: Update)
      requires Valid()
      requires u.kind == CLEAR || u.kind == SNAPSHOT_START || u.kind == SNAPSHOT_END || Follows(Abstract(), u)
      requires u.kind == ADD ==> Listable(Abstract(), u) && OwnsSlot(Abstract(), u)
      requires u.kind == CLEAR || u.kind == SNAPSHOT_START || u.kind == SNAPSHOT_END ==> u.side == INVALID_SIDE
      modifies this`bbo, oidToOrder, lists, lists.Parts()
      ensures Abstract() == Apply(old(Abstract()), u)
      ensures bbo == NextBBO(old(Abstract()), u, old(bbo))
      ensures Valid() <==> u.kind != CLEAR || old(Abstract()) == EMPTY_BOOK
    {
      hide MemoryPool.Tied, HeapOk, ById, ReplicaOk, OrdersIn, PtrsIn, BestOf, Follows, OwnsSlot, Room;
      hide Queue, IsBest;
      hide MemoryPool.Valid;
      hide LinkedBook.Shaped;
      var bidUpdated := Improves(u, BUY);
      var askUpdated := Improves(u, SELL);
      match u.kind {
        case ADD => Add(u);
        case MODIFY => Modify(u);
        case CANCEL => Cancel(u);
        case TRADE => return;
        case CLEAR => ClearAll();
        case _ =>
      }
      if u.kind != CLEAR {
        BothSorted(Abstract());
      }
      UpdateBBO(bidUpdated, askUpdated);
    }

    /** Is the update for this side, at or better than its best price? */
    method Improves(u: Update, side: Side) returns (yes: bool)
      requires lists.Valid() && IsSide(side)
      ensures yes <==> Touches(Abstract(), u, side)
    {
      hide MemoryPool.Tied, HeapOk, OrdersIn, Ring;
      HeadOrder(lists.View(), side);
      yes := false;
      if lists.Head(side) != NULL {
        TopLevel(lists.View(), side);
        var best := lists.levels.Get(lists.Head(side)).data.price;
        yes := u.side == side && (if side == BUY then u.price >= best else u.price <= best);
      }
    }
  }

  lemma BothSorted(b: Book)
    requires ReplicaOk(b)
    ensures Queue(BUY, b.bids) && Queue(SELL, b.asks)
  {
  }

  lemma NotYet<T>(st: seq<Node<T>>, s: seq<Ptr>, k: nat)
    requires Ring(st, s) && k < |s|
    ensures s[k] !in s[1..if k == 0 then |s| else k] && s[k] in s
  {
  }

  lemma SamePtrs(h: Heap, t: Heap)
    requires t == h.(os := t.os)
    ensures PtrsIn(t, BUY) == PtrsIn(h, BUY) && PtrsIn(t, SELL) == PtrsIn(h, SELL)
  {
  }

  lemma TallyNext(q: seq<Order>, k: nat)
    requires k < |q|
    ensures Tally(q, k + 1) == (Tally(q, k) + q[k].qty) % QTY_RANGE
  {
    TotalGrows(q, k);
  }

  lemma TallyFirst(q: seq<Order>)
    requires q != []
    ensures Tally(q, 1) == q[0].qty % QTY_RANGE
  {
    TotalGrows(q, 0);
    assert q[..0] == [];
  }

  lemma RingStep<T>(st: seq<Node<T>>, f: seq<Ptr>, k: nat)
    requires Ring(st, f) && k < |f|
    ensures 0 <= f[k] < |st| && st[f[k]].next == if k + 1 == |f| then f[0] else f[k + 1]
  {
    assert LinkedAt(st, f, k);
  }

  /** Back at the first node, the walk has passed them all. */
  lemma RingEnd<T>(st: seq<Node<T>>, f: seq<Ptr>, k: nat)
    requires Ring(st, f) && 0 < k <= |f| && (k < |f| ==> f[k] == f[0])
    ensures k == |f|
  {
  }
}
