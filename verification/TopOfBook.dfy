/** The client's cached best prices, and when the incremental rule that maintains them agrees with the book. */
module TopOfBook {
  import opened Types
  import opened Sequences
  import opened OrderQueue
  import opened Matching
  import opened Replication
  import opened Snapshot

  datatype Quote = Quote(price: int, qty: nat)

  datatype BBO = BBO(bid: Quote, ask: Quote)

  const NO_QUOTE := Quote(PRICE_INVALID, QTY_INVALID)

  /** The 32-bit sum of the first k quantities. */
  function Tally(q: seq<Order>, k: nat): nat
    requires k <= |q|
  {
    Total(q[..k]) % QTY_RANGE
  }

  /** The best price of a side and the 32-bit sum of the quantities there. */
  function BestOf(side: Side, q: seq<Order>): Quote {
    if q == [] then NO_QUOTE else Quote(q[0].price, Tally(q, Rank(side, q, q[0].price)))
  }

  /** The sum of the quantities of exactly the orders at a price. */
  function QtyAt(q: seq<Order>, price: int): nat {
    if q == [] then 0 else (if q[0].price == price then q[0].qty else 0) + QtyAt(q[1..], price)
  }

  /** The quote of a side: no order is priced ahead of it, and its quantity is that of all orders at its price. */
  ghost predicate IsBest(side: Side, q: seq<Order>, quote: Quote) {
    if q == [] then quote == Quote(PRICE_INVALID, QTY_INVALID)
    else
      && (exists o :: o in q && o.price == quote.price)
      && (forall o :: o in q ==> if side == BUY then o.price <= quote.price else o.price >= quote.price)
      && quote.qty == QtyAt(q, quote.price) % 0x1_0000_0000
  }

  /** A sorted side's quote is read off its first orders; there is only one. */
  lemma {:induction false} BestIs(side: Side, q: seq<Order>, quote: Quote)
    requires Queue(side, q) && (side == BUY || side == SELL)
    ensures IsBest(side, q, quote) <==> quote == BestOf(side, q)
  {
    if q != [] {
      TopPrices(side, q);
      var k := Rank(side, q, q[0].price);
      FirstQty(q, k, q[0].price);
      assert q[0] in q;
      if IsBest(side, q, quote) {
        var o :| o in q && o.price == quote.price;
        assert o.price == q[0].price;
      }
    }
  }

  /** When exactly the first k orders are at a price, their quantities are all the quantity there. */
  lemma {:induction false} FirstQty(q: seq<Order>, k: nat, price: int)
    requires k <= |q| && (forall i :: 0 <= i < k ==> q[i].price == price)
    requires forall i :: k <= i < |q| ==> q[i].price != price
    ensures QtyAt(q, price) == Total(q[..k])
  {
    if k > 0 {
      FirstQty(q[1..], k - 1, price);
      assert q[..k][1..] == q[1..][..k - 1];
    } else if q != [] {
      FirstQty(q[1..], 0, price);
      assert q[1..][..0] == q[..0] == [];
    }
  }

  /** The update is at or better than the best price its side had before it. */
  predicate Touches(b: Book, u: Update, side: Side) {
    b.Queue(side) != [] && u.side == side && !Ahead(side, b.Queue(side)[0].price, u.price)
  }

  /** A trade report leaves the handler before the cache is looked at. */
  function NextQuote(b: Book, u: Update, side: Side, cached: Quote): Quote {
    if u.kind != TRADE && Touches(b, u, side) then BestOf(side, Apply(b, u).Queue(side)) else cached
  }

  function NextBBO(b: Book, u: Update, cached: BBO): BBO {
    BBO(NextQuote(b, u, BUY, cached.bid), NextQuote(b, u, SELL, cached.ask))
  }

  /** The only updates that can part the cache from the book: the first order of a side, and a clear. */
  predicate Breaks(b: Book, u: Update, side: Side) {
    || (u.kind == ADD && u.side == side && b.Queue(side) == [])
    || (u.kind == CLEAR && b.Queue(side) != [])
  }

  /** Up to its rank, the queue is at the best price; the first order is always among them. */
  lemma {:induction false} TopPrices(side: Side, q: seq<Order>)
    requires Queue(side, q) && q != [] && (side == BUY || side == SELL)
    ensures var k := Rank(side, q, q[0].price); 0 < k && forall i :: 0 <= i < k ==> q[i].price == q[0].price
  {
  }

  lemma {:induction false} SameTop(side: Side, q: seq<Order>, r: seq<Order>)
    requires q != [] && r != [] && q[0].price == r[0].price
    requires var k := Rank(side, q, q[0].price);
             k <= |r| && q[..k] == r[..k] && (k < |r| ==> Ahead(side, q[0].price, r[k].price))
    ensures BestOf(side, r) == BestOf(side, q)
  {
  }

  lemma AddBelow(side: Side, q: seq<Order>, o: Order)
    requires Queue(side, q) && q != [] && (side == BUY || side == SELL) && Ahead(side, q[0].price, o.price)
    ensures BestOf(side, Insert(side, q, o)) == BestOf(side, q)
  {
    TopPrices(side, q);
    var k, r := Rank(side, q, q[0].price), Rank(side, q, o.price);
    assert k <= r;
    assert Insert(side, q, o)[..k] == q[..k];
    SameTop(side, q, Insert(side, q, o));
  }

  lemma ModifyBelow(side: Side, q: seq<Order>, j: nat, n: nat)
    requires Queue(side, q) && IdsDistinct(q) && (side == BUY || side == SELL)
    requires j < |q| && Ahead(side, q[0].price, q[j].price)
    ensures BestOf(side, SetQty(q, q[j].id, n)) == BestOf(side, q)
  {
    TopPrices(side, q);
    var k, r := Rank(side, q, q[0].price), SetQty(q, q[j].id, n);
    forall i | 0 <= i < k
      ensures r[i] == q[i]
    {
      assert i < j && q[i].id != q[j].id;
    }
    assert r[..k] == q[..k];
    SameTop(side, q, r);
  }

  lemma {:induction false} CancelBelow(side: Side, q: seq<Order>, j: nat)
    requires Queue(side, q) && IdsDistinct(q) && (side == BUY || side == SELL)
    requires j < |q| && Ahead(side, q[0].price, q[j].price)
    ensures BestOf(side, Remove(q, q[j].id)) == BestOf(side, q)
  {
    TopPrices(side, q);
    var k := Rank(side, q, q[0].price);
    assert k <= j;
    assert forall i :: 0 <= i < j ==> q[i].id != q[j].id;
    RemoveIs(q, j);
    assert RemoveAt(q, j)[..k] == q[..k];
    SameTop(side, q, RemoveAt(q, j));
  }

  /** An update of the other side does not change this one. */
  lemma OtherSideUntouched(b: Book, u: Update, side: Side)
    requires ReplicaOk(b) && Follows(b, u) && (side == BUY || side == SELL) && u.side != side
    ensures Apply(b, u).Queue(side) == b.Queue(side)
  {
    var q := b.Queue(side);
    if u.kind == MODIFY || u.kind == UpdateType.CANCEL {
      var i :| 0 <= i < |b.Queue(u.side)| && b.Queue(u.side)[i].id == u.orderId;
      forall j | 0 <= j < |q|
        ensures q[j].id != u.orderId
      {
      }
      RemoveAbsent(q, u.orderId);
      SetQtyAbsent(q, u.orderId, u.qty);
    }
  }

  lemma TopUnchanged(b: Book, u: Update, side: Side)
    requires ReplicaOk(b) && Follows(b, u) && (side == BUY || side == SELL)
    requires b.Queue(side) != [] && !Touches(b, u, side)
    ensures BestOf(side, Apply(b, u).Queue(side)) == BestOf(side, b.Queue(side))
  {
    if u.kind != TRADE {
      if u.side != side {
        OtherSideUntouched(b, u, side);
      } else {
        SameSideBehind(b, u);
      }
    }
  }

  lemma SameSideBehind(b: Book, u: Update)
    requires ReplicaOk(b) && Follows(b, u) && u.kind != TRADE
    requires b.Queue(u.side) != [] && !Touches(b, u, u.side)
    ensures BestOf(u.side, Apply(b, u).Queue(u.side)) == BestOf(u.side, b.Queue(u.side))
  {
    hide BestOf, Queue, IdsDistinct, Insert;
    var q := b.Queue(u.side);
    if u.kind == ADD {
      AddBelow(u.side, q, OrderOf(u));
    } else {
      var j :| 0 <= j < |q| && q[j].id == u.orderId && q[j].price == u.price;
      if u.kind == MODIFY {
        ModifyBelow(u.side, q, j, u.qty);
      } else {
        CancelBelow(u.side, q, j);
      }
    }
  }

  lemma CacheComputed(b: Book, u: Update, side: Side, stale: Quote)
    requires ReplicaOk(b) && (side == BUY || side == SELL)
    requires Follows(b, u) || (u.kind == CLEAR && u.side == INVALID_SIDE)
    requires u.price != PRICE_INVALID || u.kind == CLEAR
    requires b.Queue(side) != [] ==> b.Queue(side)[0].price != PRICE_INVALID
    ensures NextQuote(b, u, side, BestOf(side, b.Queue(side))) == BestOf(side, Apply(b, u).Queue(side)) <==>
              !Breaks(b, u, side)
    ensures u.kind != TRADE && Touches(b, u, side) ==>
              NextQuote(b, u, side, stale) == BestOf(side, Apply(b, u).Queue(side))
  {
    var q := b.Queue(side);
    if Follows(b, u) {
      if q != [] && !Touches(b, u, side) {
        TopUnchanged(b, u, side);
      } else if q == [] && u.side != side {
        OtherSideUntouched(b, u, side);
      }
    }
  }

  lemma SidesSorted(b: Book, u: Update, side: Side)
    requires ReplicaOk(b) && (side == BUY || side == SELL)
    requires Follows(b, u) || (u.kind == CLEAR && u.side == INVALID_SIDE)
    ensures Queue(side, b.Queue(side)) && Queue(side, Apply(b, u).Queue(side))
  {
    if Follows(b, u) {
      ApplyKeeps(b, u);
    }
    hide Apply;
  }

  /** An update strictly behind the best price, or of the other side, leaves the best price and its quantity alone. */
  lemma BehindTheTop(b: Book, u: Update, side: Side, quote: Quote)
    requires ReplicaOk(b) && Follows(b, u) && (side == BUY || side == SELL)
    requires b.Queue(side) != [] && !Touches(b, u, side)
    ensures IsBest(side, Apply(b, u).Queue(side), quote) <==> IsBest(side, b.Queue(side), quote)
  {
    SidesSorted(b, u, side);
    TopUnchanged(b, u, side);
    BestIs(side, b.Queue(side), quote);
    BestIs(side, Apply(b, u).Queue(side), quote);
    hide IsBest, BestOf, Apply;
  }

  /**
   * From a cache in step with the book, the next update leaves it in step exactly when it is not one that breaks it;
   * and however stale the cache, an update at or better than the top puts it in step.
   */
  lemma CacheKept(b: Book, u: Update, side: Side, cached: Quote, stale: Quote)
    requires ReplicaOk(b) && (side == BUY || side == SELL)
    requires Follows(b, u) || (u.kind == CLEAR && u.side == INVALID_SIDE)
    requires u.price != PRICE_INVALID || u.kind == CLEAR
    requires b.Queue(side) != [] ==> b.Queue(side)[0].price != PRICE_INVALID
    requires IsBest(side, b.Queue(side), cached)
    ensures IsBest(side, Apply(b, u).Queue(side), NextQuote(b, u, side, cached)) <==> !Breaks(b, u, side)
    ensures u.kind != TRADE && Touches(b, u, side) ==>
              IsBest(side, Apply(b, u).Queue(side), NextQuote(b, u, side, stale))
  {
    SidesSorted(b, u, side);
    CacheComputed(b, u, side, stale);
    BestIs(side, b.Queue(side), cached);
    BestIs(side, Apply(b, u).Queue(side), NextQuote(b, u, side, cached));
    BestIs(side, Apply(b, u).Queue(side), NextQuote(b, u, side, stale));
    hide IsBest, BestOf, Apply;
  }
}
