/**
 * The level for a price is found by the price modulo the number of slots, and the price itself is never compared.
 * Exactly when that is harmless.
 */
module PriceSlots {
  import opened Types
  import opened Pools
  import opened LevelLists
  import opened BookHeap
  import opened LinkedBooks
  import opened Matching
  import opened MatchingEngineOrderBook

  /** Two prices share a slot exactly when they differ by a multiple of the number of slots, below zero too. */
  lemma SharedSlot(p: int, q: int)
    ensures PriceToIndex(p) == PriceToIndex(q) <==> exists k :: p == q + k * ME_MAX_PRICE_LEVELS
  {
    if PriceToIndex(p) == PriceToIndex(q) {
      assert p == q + (p / ME_MAX_PRICE_LEVELS - q / ME_MAX_PRICE_LEVELS) * ME_MAX_PRICE_LEVELS;
    }
  }

  /** If another live price shares the slot of a price, the slot names a level of that other price. */
  lemma {:induction false} CollisionLevel(h: Heap, price: int) returns (side: Side, i: nat)
    requires HeapOk(h) && !NoCollision(BookOf(h), price)
    ensures IsSide(side) && i < |h.Levels(side)| && PriceAt(h, side, i) != price
    ensures |h.pm| == ME_MAX_PRICE_LEVELS && h.pm[PriceToIndex(price)] == h.Levels(side)[i].at
  {
    hide HeapOk, PriceToIndex;
    var all := BookOf(h).All();
    var x :| 0 <= x < |all| && PriceToIndex(all[x].price) == PriceToIndex(price) && all[x].price != price;
    side := if x < |OrdersIn(h, BUY)| then BUY else SELL;
    SidesIn(h, side);
    var j;
    i, j := PtrsLocate(h.Levels(side), if side == BUY then x else x - |OrdersIn(h, BUY)|);
    OrderAt(h, side, i, j);
    LevelSlot(h, side, i);
  }

  /** An order at that price is linked into the other price's list, and the book is not well formed. */
  lemma {:induction false} CollisionBreaks(h: Heap, p: Ptr) returns (side: Side, i: nat)
    requires HeapOk(h) && 0 <= p < |h.os| && !NoCollision(BookOf(h), h.os[p].data.price)
    requires p !in PtrsIn(h, BUY) && p !in PtrsIn(h, SELL)
    ensures IsSide(side) && i < |h.Levels(side)| && p !in h.Levels(side)[i].fifo
    ensures |h.pm| == ME_MAX_PRICE_LEVELS && h.pm[PriceToIndex(h.os[p].data.price)] == h.Levels(side)[i].at
    ensures !HeapOk(Appended(h, side, i, p))
  {
    side, i := CollisionLevel(h, h.os[p].data.price);
    FifoIn(h.Levels(side), i, p);
    hide HeapOk, Appended;
    SlotExact(h, side, i, p);
  }

  /** Reachable in two requests: bids at 100 and 356 share a slot. */
  lemma CollisionReachable(t: nat, c: nat)
    requires c < ME_MAX_NUM_CLIENTS
    ensures var m := AddOrder(NEW_EXCHANGE, t, c, 1, BUY, 100, 5).next; var b := AfterTrades(m, t, c, 2, BUY, 356, 5);
            && MatchNew(m, t, c, 2, BUY, 356, 5).leaves == 5 && CanRest(b, 356, c, 2) && !NoCollision(b, 356)
  {
    var m := AddOrder(NEW_EXCHANGE, t, c, 1, BUY, 100, 5).next;
    var o := Order(Owner(c, 1), 1, BUY, 100, 5, 1);
    assert m.book == Book([o], []);
    assert MatchNew(m, t, c, 2, BUY, 356, 5) == Matched([], 5, [], []);
    var b := AfterTrades(m, t, c, 2, BUY, 356, 5);
    assert b == m.book && b.All() == [o];
    OneSlot(b, 100);
    assert IndexOf([o][1..], Owner(c, 2)) == 0;
  }

  lemma OneSlot(b: Book, price: int)
    requires |b.All()| == 1 && b.All()[0].price == price
    ensures UsedSlots(b) == {PriceToIndex(price)}
  {
  }

  /** The same two requests at the linked book leave it unsound. */
  method Collide() returns (book: MEOrderBook)
    ensures !book.Valid()
  {
    hide MEOrderBook.Valid, HeapOk, OrdersIn, CanRest, NoCollision;
    book := new MEOrderBook(0);
    CollisionReachable(0, 0);
    FirstRests(0, 0);
    book.AddOrder(0, 1, BUY, 100, 5);
    book.AddOrder(0, 2, BUY, 356, 5);
  }

  lemma FirstRests(t: nat, c: nat)
    requires c < ME_MAX_NUM_CLIENTS
    ensures var b := AfterTrades(NEW_EXCHANGE, t, c, 1, BUY, 100, 5); CanRest(b, 100, c, 1) && NoCollision(b, 100)
  {
    var b := AfterTrades(NEW_EXCHANGE, t, c, 1, BUY, 100, 5);
    assert b == EMPTY_BOOK;
    assert UsedSlots(b) == {};
  }
}
