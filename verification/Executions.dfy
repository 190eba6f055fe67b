/**
 * What the exchange tells its clients and the market, field by field: who trades with whom, at which price, within
 * which limit, and what a cancel reports.
 */
module Executions {
  import opened Types
  import opened OrderQueue
  import opened Matching
  import opened Guarantees

  /** A price that an order of this side and limit may not trade at. */
  predicate Beyond(side: Side, limit: int, price: int) {
    if side == BUY then price > limit else price < limit
  }

  /** How many of a queue's orders trade, which ones, and that no fill is beyond the limit. */
  ghost predicate TradesAre(a: Aggressor, q: seq<Order>, qty: nat, rs: seq<Response>, n: nat) {
    && n <= |q| && |rs| == 2 * n
    && (forall k :: 0 <= k < |q| ==> (k < n <==> !Beyond(a.side, a.price, q[k].price) && Total(q[..k]) < qty))
    && (forall i :: 0 <= i < |rs| ==> !Beyond(a.side, a.price, rs[i].price))
  }

  /**
   * A trade with order k exists exactly when its price is within the incoming order's limit and the orders before it
   * leave something to trade. An order beyond the limit stays as it is; and while anything is left of the incoming
   * order, no order within its limit stays.
   */
  lemma {:induction false} WithinLimit(t: nat, a: Aggressor, q: seq<Order>, qty: nat)
    requires (a.side == BUY || a.side == SELL) && Queue(Opposite(a.side), q) && Positive(q) && Owned(q)
    ensures var r := MatchQueue(t, a, q, qty);
            && |r.updates| == |r.responses| && TradesAre(a, q, qty, r.responses, |r.responses| / 2)
            && (forall k :: 0 <= k < |r.responses| / 2 ==> TradeShown(t, a, q, qty, r.responses, r.updates, k))
            && (forall k :: 0 <= k < |q| && Beyond(a.side, a.price, q[k].price) ==> q[k] in r.queue)
            && (r.leaves > 0 ==> forall o :: o in r.queue ==> Beyond(a.side, a.price, o.price))
  {
    var r := MatchQueue(t, a, q, qty);
    var gone := PriceTimePriority(t, a, q, qty);
    var g := MatchShrinks(t, a, q, qty);
    ShrunkSorted(Opposite(a.side), q, r.queue, g);
    if r.leaves > 0 {
      AllClear(a.side, r.queue, a.price);
    }
    hide MatchQueue, Queue;
    Traded(t, a, q, qty, r, gone);
  }

  lemma ShrunkSorted(side: Side, q: seq<Order>, q': seq<Order>, gone: nat)
    requires Queue(side, q) && Shrunk(q, q', gone)
    ensures Queue(side, q')
  {
  }

  lemma Traded(t: nat, a: Aggressor, q: seq<Order>, qty: nat, r: Matched, gone: nat)
    requires (a.side == BUY || a.side == SELL) && Positive(q) && Prioritised(t, a, q, qty, r, gone)
    ensures TradesAre(a, q, qty, r.responses, |r.responses| / 2)
    ensures forall k :: 0 <= k < |q| && Beyond(a.side, a.price, q[k].price) ==> q[k] in r.queue
  {
    var n, rs := |r.responses| / 2, r.responses;
    forall k | 0 <= k < |q|
      ensures k < n <==> !Beyond(a.side, a.price, q[k].price) && Total(q[..k]) < qty
      ensures Beyond(a.side, a.price, q[k].price) ==> q[k] in r.queue
    {
      assert k < n ==> TradeShown(t, a, q, qty, rs, r.updates, k);
      if Beyond(a.side, a.price, q[k].price) {
        assert gone <= k;
        assert LeftShown(a, q, qty, r.queue, gone, k - gone);
        assert r.queue[k - gone] == q[k];
      }
    }
    forall i | 0 <= i < |rs|
      ensures !Beyond(a.side, a.price, rs[i].price)
    {
      assert TradeShown(t, a, q, qty, rs, r.updates, i / 2);
      assert i == 2 * (i / 2) || i == 2 * (i / 2) + 1;
    }
  }

  // ----- a new order -----

  /** One more than the highest priority among the orders at a price; 1 if there are none. */
  ghost predicate NextInLine(q: seq<Order>, price: int, priority: nat) {
    && (forall o :: o in q && o.price == price ==> o.priority < priority)
    && (priority == 1 || exists o :: o in q && o.price == price && priority == o.priority + 1)
  }

  lemma LineEnds(side: Side, q: seq<Order>, price: int)
    requires Queue(side, q) && (side == BUY || side == SELL)
    ensures NextInLine(q, price, NextPriority(side, q, price))
  {
    forall o | o in q && o.price == price
      ensures o.priority < NextPriority(side, q, price)
    {
      var i :| 0 <= i < |q| && q[i] == o;
      NextPriorityIsLast(side, q, price, i);
    }
    var k := Rank(side, q, price);
    assert k > 0 ==> q[k - 1] in q;
  }

  /** What a new order sends: its acceptance, two fills and two updates for each trade, and an ADD for what rests. */
  ghost predicate NewOrderSays(m: Exchange, t: nat, c: nat, oid: nat, side: Side, price: int, qty: nat,
    rs: seq<Response>, us: seq<Update>, leaves: nat)
  {
    var a, q, n := Aggressor(c, oid, m.nextId, side, price), m.book.Queue(Opposite(side)), |rs| / 2;
    && |rs| % 2 == 1
    && rs[0] == Response(ACCEPTED, c, t, oid, m.nextId, side, price, 0, qty)
    && TradesAre(a, q, qty, rs[1..], n)
    && 2 * n <= |us| && (forall k :: 0 <= k < n ==> TradeShown(t, a, q, qty, rs[1..], us[..2 * n], k))
    && |us| == 2 * n + (if leaves > 0 then 1 else 0)
    && (leaves > 0 ==>
          && NextInLine(m.book.Queue(side), price, us[2 * n].priority)
          && us[2 * n] == Update(ADD, m.nextId, t, side, price, leaves, us[2 * n].priority))
  }

  lemma InPairs(a: Aggressor, q: seq<Order>, qty: nat, rs: seq<Response>, n: nat)
    requires TradesAre(a, q, qty, rs, n)
    ensures |rs| == 2 * n
  {
  }

  lemma {:induction false} NewOrderParts(m: Exchange, t: nat, c: nat, oid: nat, side: Side, price: int, qty: nat)
    requires side == BUY || side == SELL
    ensures var r := AddOrder(m, t, c, oid, side, price, qty);
            var s := MatchQueue(t, Aggressor(c, oid, m.nextId, side, price), m.book.Queue(Opposite(side)), qty);
            && s == MatchNew(m, t, c, oid, side, price, qty)
            && r.responses == [Response(ACCEPTED, c, t, oid, m.nextId, side, price, 0, qty)] + s.responses
            && r.updates == s.updates +
                 (if s.leaves == 0 then []
                  else [Update(ADD, m.nextId, t, side, price, s.leaves, NextPriority(side, m.book.Queue(side), price))])
  {
    hide MatchQueue, NextPriority;
  }

  lemma NewOrderTold(m: Exchange, t: nat, c: nat, oid: nat, side: Side, price: int, qty: nat)
    requires ExchangeOk(m) && (side == BUY || side == SELL)
    ensures var r := AddOrder(m, t, c, oid, side, price, qty);
            NewOrderSays(m, t, c, oid, side, price, qty, r.responses, r.updates,
                         MatchNew(m, t, c, oid, side, price, qty).leaves)
  {
    hide MatchQueue, MatchNew, AddOrder, ExchangeOk, TradeShown, TradesAre, Queue, Positive, Owned, NextPriority,
        NextInLine;
    var a, q := Aggressor(c, oid, m.nextId, side, price), m.book.Queue(Opposite(side));
    Sound(m, Opposite(side));
    Sound(m, side);
    WithinLimit(t, a, q, qty);
    LineEnds(side, m.book.Queue(side), price);
    NewOrderParts(m, t, c, oid, side, price, qty);
    var r, s := AddOrder(m, t, c, oid, side, price, qty), MatchQueue(t, a, q, qty);
    InPairs(a, q, qty, s.responses, |s.responses| / 2);
    assert r.responses[1..] == s.responses;
    assert r.updates[..|s.responses|] == s.updates;
  }

  lemma Sound(m: Exchange, side: Side)
    requires ExchangeOk(m) && (side == BUY || side == SELL)
    ensures var q := m.book.Queue(side); Queue(side, q) && Positive(q) && Owned(q)
  {
    assert forall i :: 0 <= i < |m.book.Queue(side)| ==> OrderOk(m.book.Queue(side)[i], m.nextId);
  }

  // ----- a cancel -----

  /** What a cancel sends and leaves: the one order of that owner is reported and gone, or the request is rejected. */
  ghost predicate CancelSays(b: Book, t: nat, c: nat, oid: nat, rs: seq<Response>, us: seq<Update>, b': Book) {
    && (forall o :: o in b.All() && o.owner == Owner(c, oid) ==>
          && rs == [Response(CANCELED, c, t, oid, o.id, o.side, o.price, 0xFFFF_FFFF, o.qty)]
          && us == [Update(UpdateType.CANCEL, o.id, t, o.side, o.price, 0, o.priority)]
          && forall x :: x in b'.All() <==> x in b.All() && x != o)
    && ((forall o :: o in b.All() ==> o.owner != Owner(c, oid)) ==>
          && rs == [Response(CANCEL_REJECTED, c, t, oid, ORDER_ID_INVALID, INVALID_SIDE, PRICE_INVALID, 0xFFFF_FFFF,
                             0xFFFF_FFFF)]
          && us == [] && b' == b)
  }

  lemma CancelTold(m: Exchange, t: nat, c: nat, oid: nat)
    requires ExchangeOk(m)
    ensures var r := CancelOrder(m, t, c, oid);
            CancelSays(m.book, t, c, oid, r.responses, r.updates, r.next.book) && r.next.nextId == m.nextId
  {
    var b, w, side := m.book, Owner(c, oid), SideOfOwner(m.book, Owner(c, oid));
    if side != INVALID_SIDE {
      var q := b.Queue(side);
      var k := IndexOf(q, w);
      OnlyOwner(m, side, k);
      Sound(m, side);
      hide ExchangeOk;
      RemoveQueue(side, q, k);
    }
  }

  /** The owner of an order owns no other. */
  lemma OnlyOwner(m: Exchange, side: Side, k: nat)
    requires ExchangeOk(m) && (side == BUY || side == SELL) && k < |m.book.Queue(side)|
    ensures var o := m.book.Queue(side)[k];
            && o in m.book.All() && (forall x :: x in m.book.All() && x.owner == o.owner ==> x == o)
            && o.side == side && o !in m.book.Queue(Opposite(side))
  {
  }
}
