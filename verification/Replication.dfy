/**
 * The market data stream: what each update does to a replica of the book, and the theorem that the exchange's updates
 * rebuild the exchange's book.
 */
module Replication {
  import opened Types
  import opened Sequences
  import opened OrderQueue
  import opened Matching
  import opened Guarantees

  // ----- what the market sees -----

  function Anon(o: Order): Order {
    o.(owner := Anonymous)
  }

  function AnonAll(q: seq<Order>): (p: seq<Order>)
    ensures |p| == |q| && forall i :: 0 <= i < |q| ==> p[i] == Anon(q[i])
  {
    seq(|q|, i requires 0 <= i < |q| => Anon(q[i]))
  }

  /** A book without its owners. */
  function Public(b: Book): Book {
    Book(AnonAll(b.bids), AnonAll(b.asks))
  }

  function OrderOf(u: Update): Order {
    Order(Anonymous, u.orderId, u.side, u.price, u.qty, u.priority)
  }

  /** What an update does to a replica. */
  function Apply(b: Book, u: Update): Book {
    match u.kind
    case ADD => b.With(u.side, Insert(u.side, b.Queue(u.side), OrderOf(u)))
    case MODIFY => Book(SetQty(b.bids, u.orderId, u.qty), SetQty(b.asks, u.orderId, u.qty))
    case CANCEL => Book(Remove(b.bids, u.orderId), Remove(b.asks, u.orderId))
    case CLEAR => EMPTY_BOOK
    case _ => b
  }

  function ApplyAll(b: Book, us: seq<Update>): Book
    decreases |us|
  {
    if us == [] then b else ApplyAll(Apply(b, us[0]), us[1..])
  }

  // ----- well-formed streams -----

  ghost predicate Resting'(b: Book, side: Side, id: nat, price: int) {
    exists i :: 0 <= i < |b.Queue(side)| && b.Queue(side)[i].id == id && b.Queue(side)[i].price == price
  }

  ghost predicate Newest(b: Book, u: Update) {
    && (forall i :: 0 <= i < |b.bids| ==> b.bids[i].id < u.orderId)
    && (forall i :: 0 <= i < |b.asks| ==> b.asks[i].id < u.orderId)
    && (forall i :: 0 <= i < |b.Queue(u.side)| && b.Queue(u.side)[i].price == u.price ==>
        b.Queue(u.side)[i].priority < u.priority)
  }

  /** An update the exchange can send when its book is b: it adds the newest order or names a resting one. */
  ghost predicate Follows(b: Book, u: Update) {
    && (u.kind == ADD || u.kind == MODIFY || u.kind == UpdateType.CANCEL || u.kind == TRADE)
    && (u.kind == ADD ==>
          (u.side == BUY || u.side == SELL) && u.qty > 0 && u.orderId < ME_MAX_ORDER_IDS && Newest(b, u))
    && (u.kind == MODIFY || u.kind == UpdateType.CANCEL ==>
          (u.side == BUY || u.side == SELL) && Resting'(b, u.side, u.orderId, u.price))
    && (u.kind == MODIFY ==> u.qty > 0)
  }

  ghost predicate FollowsAll(b: Book, us: seq<Update>)
    decreases |us|
  {
    us != [] ==> Follows(b, us[0]) && FollowsAll(Apply(b, us[0]), us[1..])
  }

  lemma {:induction false} ApplyConcat(b: Book, us: seq<Update>, vs: seq<Update>)
    ensures ApplyAll(b, us + vs) == ApplyAll(ApplyAll(b, us), vs)
    ensures FollowsAll(b, us + vs) <==> FollowsAll(b, us) && FollowsAll(ApplyAll(b, us), vs)
    decreases |us|
  {
    if us == [] {
      assert us + vs == vs;
    } else {
      assert (us + vs)[1..] == us[1..] + vs;
      ApplyConcat(Apply(b, us[0]), us[1..], vs);
    }
  }

  lemma {:induction false} ApplyOne(b: Book, u: Update)
    ensures ApplyAll(b, [u]) == Apply(b, u)
    ensures FollowsAll(b, [u]) <==> Follows(b, u)
  {
  }

  lemma {:induction false} ApplyTwo(b: Book, u: Update, v: Update)
    ensures ApplyAll(b, [u, v]) == Apply(Apply(b, u), v)
    ensures FollowsAll(b, [u, v]) <==> Follows(b, u) && Follows(Apply(b, u), v)
  {
    assert [u, v][1..] == [v];
    ApplyOne(Apply(b, u), v);
  }

  // ----- the replica theorem, one request at a time -----

  ghost predicate IdsDistinct(q: seq<Order>) {
    forall i, j :: 0 <= i < j < |q| ==> q[i].id != q[j].id
  }

  ghost predicate IdsApart(a: seq<Order>, b: seq<Order>) {
    forall i, j :: 0 <= i < |a| && 0 <= j < |b| ==> a[i].id != b[j].id
  }

  ghost predicate IdsUnique(b: Book) {
    IdsDistinct(b.bids) && IdsDistinct(b.asks) && IdsApart(b.bids, b.asks)
  }

  lemma SetQtyAbsent(q: seq<Order>, id: nat, n: nat)
    requires forall i :: 0 <= i < |q| ==> q[i].id != id
    ensures SetQty(q, id, n) == q
  {
  }

  lemma SetQtyFirst(q: seq<Order>, n: nat)
    requires q != [] && IdsDistinct(q)
    ensures SetQty(AnonAll(q), q[0].id, n) == AnonAll([q[0].(qty := n)] + q[1..])
  {
  }

  lemma RemoveFirst(q: seq<Order>)
    requires q != []
    ensures Remove(AnonAll(q), q[0].id) == AnonAll(q[1..])
  {
  }

  /** One trade's reports bring the replica to the book after the trade. */
  lemma TradeReplica(t: nat, a: Aggressor, b: Book, side: Side, fill: nat)
    requires IdsUnique(b) && (side == BUY || side == SELL) && b.Queue(side) != []
    requires b.Queue(side)[0].side == side && fill <= b.Queue(side)[0].qty
    ensures var q := b.Queue(side);
            var after := b.With(side, if q[0].qty == fill then q[1..] else [q[0].(qty := q[0].qty - fill)] + q[1..]);
            && ApplyAll(Public(b), Reports(t, a, q[0], fill)) == Public(after)
            && FollowsAll(Public(b), Reports(t, a, q[0], fill))
            && IdsUnique(after)
  {
    var q, p := b.Queue(side), Public(b);
    var us := Reports(t, a, q[0], fill);
    ApplyTwo(p, us[0], us[1]);
    assert Resting'(p, side, q[0].id, q[0].price) by {
      assert p.Queue(side)[0] == Anon(q[0]);
    }
    if q[0].qty == fill {
      PassiveGone(b, side, us[1]);
    } else {
      PassiveLeft(b, side, us[1]);
    }
  }

  /** The report that the best order is gone takes it out of the replica. */
  lemma PassiveGone(b: Book, side: Side, u: Update)
    requires IdsUnique(b) && (side == BUY || side == SELL) && b.Queue(side) != []
    requires u.kind == UpdateType.CANCEL && u.orderId == b.Queue(side)[0].id
    ensures var after := b.With(side, b.Queue(side)[1..]); Apply(Public(b), u) == Public(after) && IdsUnique(after)
  {
    var q, other := b.Queue(side), b.Queue(Opposite(side));
    OtherIds(b, side);
    RemoveFirst(q);
    RemoveAbsent(AnonAll(other), q[0].id);
  }

  /** The report of what the best order has left changes it in the replica. */
  lemma PassiveLeft(b: Book, side: Side, u: Update)
    requires IdsUnique(b) && (side == BUY || side == SELL) && b.Queue(side) != []
    requires u.kind == MODIFY && u.orderId == b.Queue(side)[0].id
    ensures var q := b.Queue(side);
            var after := b.With(side, [q[0].(qty := u.qty)] + q[1..]);
            Apply(Public(b), u) == Public(after) && IdsUnique(after)
  {
    var q, other := b.Queue(side), b.Queue(Opposite(side));
    OtherIds(b, side);
    SetQtyFirst(q, u.qty);
    SetQtyAbsent(AnonAll(other), q[0].id, u.qty);
  }

  lemma OtherIds(b: Book, side: Side)
    requires IdsUnique(b) && (side == BUY || side == SELL) && b.Queue(side) != []
    ensures var other := AnonAll(b.Queue(Opposite(side)));
            forall i :: 0 <= i < |other| ==> other[i].id != b.Queue(side)[0].id
  {
  }

  lemma {:induction false} MatchReplica(t: nat, a: Aggressor, b: Book, side: Side, leaves: nat)
    requires IdsUnique(b) && (side == BUY || side == SELL)
    requires forall i :: 0 <= i < |b.Queue(side)| ==> b.Queue(side)[i].side == side
    ensures var r := MatchQueue(t, a, b.Queue(side), leaves);
            && ApplyAll(Public(b), r.updates) == Public(b.With(side, r.queue))
            && FollowsAll(Public(b), r.updates)
    decreases |b.Queue(side)|
  {
    hide IdsUnique, Public, Apply, Follows;
    var q := b.Queue(side);
    if leaves > 0 && q != [] && Marketable(a.side, a.price, q[0].price) {
      var fill := Min(leaves, q[0].qty);
      TradeReplica(t, a, b, side, fill);
      if q[0].qty == fill {
        var b' := b.With(side, q[1..]);
        MatchReplica(t, a, b', side, leaves - fill);
        var r := MatchQueue(t, a, q[1..], leaves - fill);
        assert b'.With(side, r.queue) == b.With(side, r.queue);
        hide Reports;
        ApplyConcat(Public(b), Reports(t, a, q[0], fill), r.updates);
      }
    }
  }

  lemma IdsOf(m: Exchange)
    requires ExchangeOk(m)
    ensures IdsUnique(m.book)
  {
  }

  lemma InsertAnon(side: Side, q: seq<Order>, o: Order)
    ensures AnonAll(Insert(side, q, o)) == Insert(side, AnonAll(q), Anon(o))
  {
  }

  /** The newest order's update: the replica rests it where the exchange did. */
  lemma RestReplica(t: nat, b: Book, nextId: nat, side: Side, o: Order)
    requires (side == BUY || side == SELL) && ExchangeOk(Exchange(b, nextId)) && nextId < ME_MAX_ORDER_IDS
    requires o.side == side && o.id == nextId && o.qty > 0 && o.priority == NextPriority(side, b.Queue(side), o.price)
    ensures var u := Update(ADD, o.id, t, side, o.price, o.qty, o.priority);
            && Apply(Public(b), u) == Public(b.With(side, Insert(side, b.Queue(side), o)))
            && Follows(Public(b), u)
  {
    var q, p := b.Queue(side), Public(b);
    var u := Update(ADD, o.id, t, side, o.price, o.qty, o.priority);
    InsertAnon(side, q, o);
    assert OrderOf(u) == Anon(o);
    forall i | 0 <= i < |q| && q[i].price == o.price
      ensures q[i].priority < o.priority
    {
      NextPriorityIsLast(side, q, o.price, i);
    }
    assert forall i :: 0 <= i < |b.bids| ==> OrderOk(b.bids[i], nextId);
    assert forall i :: 0 <= i < |b.asks| ==> OrderOk(b.asks[i], nextId);
  }

  /** A new order's updates take a replica from the book before it to the book after it. */
  lemma AddOrderReplica(m: Exchange, t: nat, c: nat, oid: nat, side: Side, price: int, qty: nat)
    requires ExchangeOk(m) && Admitted(m, t, New(c, oid, side, price, qty)) && m.nextId < ME_MAX_ORDER_IDS
    ensures var r := AddOrder(m, t, c, oid, side, price, qty);
            && ApplyAll(Public(m.book), r.updates) == Public(r.next.book)
            && FollowsAll(Public(m.book), r.updates)
  {
    IdsOf(m);
    var opp := Opposite(side);
    MatchReplica(t, IncomingOf(m, c, oid, side, price), m.book, opp, qty);
    TradesKeep(m, t, c, oid, side, price, qty);
    var r, b := MatchNew(m, t, c, oid, side, price, qty), AfterTrades(m, t, c, oid, side, price, qty);
    hide ExchangeOk, MatchNew, AfterTrades, Public, Apply, Follows;
    if r.leaves > 0 {
      var o := Residual(m, b, c, oid, side, price, r.leaves);
      var u := Update(ADD, o.id, t, side, price, o.qty, o.priority);
      RestReplica(t, b, m.nextId, side, o);
      ApplyOne(Public(b), u);
      ApplyConcat(Public(m.book), r.updates, [u]);
    }
  }

  lemma CancelOrderReplica(m: Exchange, t: nat, c: nat, oid: nat)
    requires ExchangeOk(m)
    ensures var r := CancelOrder(m, t, c, oid);
            && ApplyAll(Public(m.book), r.updates) == Public(r.next.book)
            && FollowsAll(Public(m.book), r.updates)
  {
    var r, side := CancelOrder(m, t, c, oid), SideOfOwner(m.book, Owner(c, oid));
    if side != INVALID_SIDE {
      var q, other := m.book.Queue(side), m.book.Queue(Opposite(side));
      var k := IndexOf(q, Owner(c, oid));
      ApplyOne(Public(m.book), r.updates[0]);
      RemoveAnon(q, k);
      forall i | 0 <= i < |other|
        ensures AnonAll(other)[i].id != q[k].id
      {
      }
      RemoveAbsent(AnonAll(other), q[k].id);
      assert Public(m.book).Queue(side)[k].id == q[k].id;
    }
  }

  lemma RemoveAnon(q: seq<Order>, k: nat)
    requires k < |q| && IdsDistinct(q)
    ensures Remove(AnonAll(q), q[k].id) == AnonAll(RemoveAt(q, k))
  {
    assert forall i :: 0 <= i < k ==> q[i].id != q[k].id;
    RemoveIs(AnonAll(q), k);
  }

  /** Market order ids index fixed arrays downstream. */
  predicate Numberable(m: Exchange, r: Request) {
    r.New? ==> m.nextId < ME_MAX_ORDER_IDS
  }

  lemma ProcessReplica(m: Exchange, t: nat, r: Request)
    requires ExchangeOk(m) && Admitted(m, t, r) && Numberable(m, r)
    ensures var s := Process(m, t, r);
            && ApplyAll(Public(m.book), s.updates) == Public(s.next.book)
            && FollowsAll(Public(m.book), s.updates)
  {
    match r
    case New(c, oid, side, price, qty) => AddOrderReplica(m, t, c, oid, side, price, qty);
    case Cancel(c, oid) => CancelOrderReplica(m, t, c, oid);
  }
}
