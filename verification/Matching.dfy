/**
 * The exchange as a function of its requests: an abstract matcher over price-time queues, and what it guarantees.
 * MatchingEngineOrderBook is proved to compute exactly this.
 */
module Matching {
  import opened Types
  import opened Sequences
  import opened OrderQueue

  datatype Book = Book(bids: seq<Order>, asks: seq<Order>) {
    function Queue(side: Side): seq<Order> {
      if side == BUY then bids else asks
    }

    function With(side: Side, q: seq<Order>): Book {
      if side == BUY then this.(bids := q) else this.(asks := q)
    }

    function All(): seq<Order> {
      bids + asks
    }
  }

  /** One instrument's book and the id its next order receives. */
  datatype Exchange = Exchange(book: Book, nextId: nat)

  const EMPTY_BOOK := Book([], [])
  const NEW_EXCHANGE := Exchange(EMPTY_BOOK, 1)

  datatype Request =
    | New(clientId: nat, orderId: nat, side: Side, price: int, qty: nat)
    | Cancel(clientId: nat, orderId: nat)

  datatype Result = Result(next: Exchange, responses: seq<Response>, updates: seq<Update>)

  // ----- matching -----

  /** The incoming order while it trades. */
  datatype Aggressor = Aggressor(clientId: nat, clientOrderId: nat, id: nat, side: Side, price: int)

  /** What is left of the opposite queue and of the incoming quantity, and what was sent on the way. */
  datatype Matched = Matched(queue: seq<Order>, leaves: nat, responses: seq<Response>, updates: seq<Update>)

  function Min(a: nat, b: nat): nat {
    if a < b then a else b
  }

  predicate Marketable(side: Side, price: int, passive: int) {
    if side == BUY then price >= passive else price <= passive
  }

  function ClientOf(o: Order): nat {
    if o.owner.Owner? then o.owner.clientId else 0
  }

  function ClientOrderOf(o: Order): nat {
    if o.owner.Owner? then o.owner.clientOrderId else 0
  }

  /** The two fills of one trade. The matcher hands the incoming order's id on as a 32-bit quantity. */
  function AggressorFill(t: nat, a: Aggressor, o: Order, fill: nat, leaves: nat): Response {
    Response(FILLED, a.clientId, t, a.clientOrderId, a.id % QTY_RANGE, a.side, o.price, fill, leaves)
  }

  function PassiveFill(t: nat, o: Order, fill: nat, left: nat): Response {
    Response(FILLED, ClientOf(o), t, ClientOrderOf(o), o.id, o.side, o.price, fill, left)
  }

  function TradeUpdate(t: nat, a: Aggressor, o: Order, fill: nat): Update {
    Update(TRADE, ORDER_ID_INVALID, t, a.side, o.price, fill, PRIORITY_INVALID)
  }

  /** What the market sees of the passive order after the trade. */
  function PassiveUpdate(t: nat, o: Order, fill: nat): Update
    requires fill <= o.qty
  {
    if o.qty == fill then Update(UpdateType.CANCEL, o.id, t, o.side, o.price, o.qty, PRIORITY_INVALID)
    else Update(MODIFY, o.id, t, o.side, o.price, o.qty - fill, o.priority)
  }

  /** One trade as the two clients hear of it, and as the market does. */
  function Fills(t: nat, a: Aggressor, o: Order, fill: nat, leaves: nat): seq<Response>
    requires fill <= o.qty
  {
    [AggressorFill(t, a, o, fill, leaves), PassiveFill(t, o, fill, o.qty - fill)]
  }

  function Reports(t: nat, a: Aggressor, o: Order, fill: nat): seq<Update>
    requires fill <= o.qty
  {
    [TradeUpdate(t, a, o, fill), PassiveUpdate(t, o, fill)]
  }

  function MatchQueue(t: nat, a: Aggressor, q: seq<Order>, leaves: nat): (r: Matched)
    ensures r.leaves <= leaves
  {
    if leaves == 0 || q == [] || !Marketable(a.side, a.price, q[0].price) then Matched(q, leaves, [], [])
    else
      var o := q[0];
      var fill := Min(leaves, o.qty);
      var rs, us := Fills(t, a, o, fill, leaves - fill), Reports(t, a, o, fill);
      if o.qty == fill then
        var r := MatchQueue(t, a, q[1..], leaves - fill);
        r.(responses := rs + r.responses, updates := us + r.updates)
      else Matched([o.(qty := o.qty - fill)] + q[1..], 0, rs, us)
  }

  /** The first trade, when it uses up the best order. */
  lemma MatchFirst(t: nat, a: Aggressor, q: seq<Order>, leaves: nat)
    requires leaves > 0 && q != [] && Marketable(a.side, a.price, q[0].price) && q[0].qty <= leaves
    ensures var r, s := MatchQueue(t, a, q, leaves), MatchQueue(t, a, q[1..], leaves - q[0].qty);
            && r.queue == s.queue && r.leaves == s.leaves
            && r.responses == Fills(t, a, q[0], q[0].qty, leaves - q[0].qty) + s.responses
            && r.updates == Reports(t, a, q[0], q[0].qty) + s.updates
  {
  }

  // ----- requests -----

  function IncomingOf(m: Exchange, c: nat, oid: nat, side: Side, price: int): Aggressor {
    Aggressor(c, oid, m.nextId, side, price)
  }

  /** The trades of a new order. */
  function MatchNew(m: Exchange, t: nat, c: nat, oid: nat, side: Side, price: int, qty: nat): Matched {
    MatchQueue(t, IncomingOf(m, c, oid, side, price), m.book.Queue(Opposite(side)), qty)
  }

  /** The book once the trades are done, before any residual rests. */
  function AfterTrades(m: Exchange, t: nat, c: nat, oid: nat, side: Side, price: int, qty: nat): Book {
    m.book.With(Opposite(side), MatchNew(m, t, c, oid, side, price, qty).queue)
  }

  function Residual(m: Exchange, b: Book, c: nat, oid: nat, side: Side, price: int, leaves: nat): Order {
    Order(Owner(c, oid), m.nextId, side, price, leaves, NextPriority(side, b.Queue(side), price))
  }

  function AddOrder(m: Exchange, t: nat, c: nat, oid: nat, side: Side, price: int, qty: nat): Result {
    var accepted := Response(ACCEPTED, c, t, oid, m.nextId, side, price, 0, qty);
    var r := MatchNew(m, t, c, oid, side, price, qty);
    var b := AfterTrades(m, t, c, oid, side, price, qty);
    if r.leaves == 0 then Result(Exchange(b, m.nextId + 1), [accepted] + r.responses, r.updates)
    else
      var o := Residual(m, b, c, oid, side, price, r.leaves);
      Result(Exchange(b.With(side, Insert(side, b.Queue(side), o)), m.nextId + 1), [accepted] + r.responses,
             r.updates + [Update(ADD, o.id, t, side, price, o.qty, o.priority)])
  }

  /** The place of an owner's order in a queue, or the queue's length. */
  function IndexOf(q: seq<Order>, w: Owner): (k: nat)
    ensures k <= |q|
    ensures k < |q| ==> q[k].owner == w
    ensures forall i :: 0 <= i < k ==> q[i].owner != w
  {
    if q == [] || q[0].owner == w then 0 else 1 + IndexOf(q[1..], w)
  }

  /** The side an owner's order rests on; INVALID_SIDE when there is none. */
  function SideOfOwner(b: Book, w: Owner): Side {
    if IndexOf(b.bids, w) < |b.bids| then BUY
    else if IndexOf(b.asks, w) < |b.asks| then SELL
    else INVALID_SIDE
  }

  function CancelOrder(m: Exchange, t: nat, c: nat, oid: nat): Result {
    var side := SideOfOwner(m.book, Owner(c, oid));
    if side == INVALID_SIDE then
      Result(m, [Response(CANCEL_REJECTED, c, t, oid, ORDER_ID_INVALID, INVALID_SIDE, PRICE_INVALID, QTY_INVALID,
          QTY_INVALID)], [])
    else
      var q := m.book.Queue(side);
      var k := IndexOf(q, Owner(c, oid));
      var o := q[k];
      Result(m.(book := m.book.With(side, RemoveAt(q, k))),
             [Response(CANCELED, c, t, oid, o.id, o.side, o.price, QTY_INVALID, o.qty)],
             [Update(UpdateType.CANCEL, o.id, t, o.side, o.price, 0, o.priority)])
  }

  function Process(m: Exchange, t: nat, r: Request): Result {
    match r
    case New(c, oid, side, price, qty) => AddOrder(m, t, c, oid, side, price, qty)
    case Cancel(c, oid) => CancelOrder(m, t, c, oid)
  }

  /** A whole session on one instrument. */
  function Session(m: Exchange, t: nat, rs: seq<Request>): Result
    decreases |rs|
  {
    if rs == [] then Result(m, [], [])
    else
      var first := Process(m, t, rs[0]);
      var rest := Session(first.next, t, rs[1..]);
      Result(rest.next, first.responses + rest.responses, first.updates + rest.updates)
  }

  // ----- price-time priority -----

  /**
   * What order k of the queue trades: nothing beyond the incoming order's limit, and else all it has, as far as the
   * orders before it leave anything to trade.
   */
  function Exec(a: Aggressor, q: seq<Order>, qty: nat, k: nat): nat
    requires k < |q|
  {
    if (if a.side == BUY then q[k].price <= a.price else q[k].price >= a.price) && Total(q[..k]) < qty then
      if q[k].qty < qty - Total(q[..k]) then q[k].qty else qty - Total(q[..k])
    else 0
  }

  ghost predicate Positive(q: seq<Order>) {
    forall i :: 0 <= i < |q| ==> q[i].qty > 0
  }

  ghost predicate Owned(q: seq<Order>) {
    forall i :: 0 <= i < |q| ==> q[i].owner.Owner?
  }

  /** A trade with order k: what each of the two clients and the market is told, all at the resting order's price. */
  ghost predicate TradeShown(t: nat, a: Aggressor, q: seq<Order>, qty: nat, rs: seq<Response>, us: seq<Update>, k: nat)
    requires k < |q|
  {
    var e := Exec(a, q, qty, k);
    && 2 * k + 1 < |rs| && 2 * k + 1 < |us|
    && 0 < e <= q[k].qty && Total(q[..k]) + e <= qty
    && q[k].owner.Owner?
    && rs[2 * k] == Response(FILLED, a.clientId, t, a.clientOrderId, a.id % 0x1_0000_0000, a.side, q[k].price, e,
                             qty - Total(q[..k]) - e)
    && rs[2 * k + 1] == Response(FILLED, q[k].owner.clientId, t, q[k].owner.clientOrderId, q[k].id, q[k].side,
                                 q[k].price, e, q[k].qty - e)
    && us[2 * k] == Update(TRADE, ORDER_ID_INVALID, t, a.side, q[k].price, e, PRIORITY_INVALID)
    && us[2 * k + 1] ==
         if e == q[k].qty then Update(UpdateType.CANCEL, q[k].id, t, q[k].side, q[k].price, e, PRIORITY_INVALID)
         else Update(MODIFY, q[k].id, t, q[k].side, q[k].price, q[k].qty - e, q[k].priority)
  }

  /** The order that is now j-th keeps what it has not traded. */
  ghost predicate LeftShown(a: Aggressor, q: seq<Order>, qty: nat, left: seq<Order>, gone: nat, j: nat)
    requires gone + |left| == |q| && j < |left|
  {
    var e := Exec(a, q, qty, gone + j);
    e < q[gone + j].qty && left[j] == q[gone + j].(qty := q[gone + j].qty - e)
  }

  /** Every order of the queue trades what price-time priority gives it, and keeps the rest. */
  ghost predicate Prioritised(t: nat, a: Aggressor, q: seq<Order>, qty: nat, r: Matched, gone: nat) {
    && gone + |r.queue| == |q|
    && (forall k :: 0 <= k < gone ==> Exec(a, q, qty, k) == q[k].qty)
    && (forall j :: 0 <= j < |r.queue| ==> LeftShown(a, q, qty, r.queue, gone, j))
    && |r.responses| == |r.updates| && |r.responses| % 2 == 0 && |r.responses| / 2 <= |q|
    && (forall k :: 0 <= k < |r.responses| / 2 ==> TradeShown(t, a, q, qty, r.responses, r.updates, k))
    && (forall k :: |r.responses| / 2 <= k < |q| ==> Exec(a, q, qty, k) == 0)
  }

  lemma TotalStep(q: seq<Order>, k: nat)
    requires 0 < k <= |q|
    ensures Total(q[..k]) == q[0].qty + Total(q[1..][..k - 1])
  {
    assert q[..k][1..] == q[1..][..k - 1];
  }

  lemma ExecStep(a: Aggressor, q: seq<Order>, qty: nat, k: nat)
    requires 0 < k < |q| && q[0].qty <= qty
    ensures Total(q[..k]) == q[0].qty + Total(q[1..][..k - 1])
    ensures Exec(a, q, qty, k) == Exec(a, q[1..], qty - q[0].qty, k - 1)
  {
    TotalStep(q, k);
  }

  /** No order behind one that has to wait trades at all. */
  lemma ExecBehind(a: Aggressor, q: seq<Order>, qty: nat, k: nat)
    requires Queue(Opposite(a.side), q) && (a.side == BUY || a.side == SELL) && k < |q|
    requires !Marketable(a.side, a.price, q[0].price) || (qty < q[0].qty && k > 0) || qty == 0
    ensures Exec(a, q, qty, k) == 0
  {
  }

  /**
   * The loop over the best order is price-time priority: each resting order trades exactly what is left of the
   * incoming quantity after all orders before it, and the responses and updates report exactly those trades.
   */
  lemma {:induction false} PriceTimePriority(t: nat, a: Aggressor, q: seq<Order>, qty: nat) returns (gone: nat)
    requires a.side == BUY || a.side == SELL
    requires Queue(Opposite(a.side), q) && Positive(q) && Owned(q)
    ensures Prioritised(t, a, q, qty, MatchQueue(t, a, q, qty), gone)
  {
    hide Prioritised, Positive, Queue, Owned;
    gone := 0;
    if qty == 0 || q == [] || !Marketable(a.side, a.price, q[0].price) {
      NoTrade(t, a, q, qty);
    } else {
      TailKeeps(Opposite(a.side), q);
      if q[0].qty <= qty {
        var g := PriceTimePriority(t, a, q[1..], qty - q[0].qty);
        gone := g + 1;
        PrioritisedStep(t, a, q, qty, g);
      } else {
        LastTrade(t, a, q, qty);
      }
    }
  }

  lemma TailKeeps(side: Side, q: seq<Order>)
    requires Queue(side, q) && Positive(q) && Owned(q) && q != []
    ensures Queue(side, q[1..]) && Positive(q[1..]) && Owned(q[1..]) && q[0].qty > 0 && q[0].owner.Owner?
  {
  }

  lemma NoTrade(t: nat, a: Aggressor, q: seq<Order>, qty: nat)
    requires (a.side == BUY || a.side == SELL) && Queue(Opposite(a.side), q) && Positive(q)
    requires qty == 0 || q == [] || !Marketable(a.side, a.price, q[0].price)
    ensures Prioritised(t, a, q, qty, Matched(q, qty, [], []), 0)
  {
  }

  lemma {:induction false} LastTrade(t: nat, a: Aggressor, q: seq<Order>, qty: nat)
    requires (a.side == BUY || a.side == SELL) && Queue(Opposite(a.side), q) && Positive(q) && Owned(q)
    requires q != [] && Marketable(a.side, a.price, q[0].price) && 0 < qty < q[0].qty
    ensures Prioritised(t, a, q, qty, MatchQueue(t, a, q, qty), 0)
  {
    forall k | 0 < k < |q|
      ensures Exec(a, q, qty, k) == 0
    {
      ExecBehind(a, q, qty, k);
    }
    assert Exec(a, q, qty, 0) == qty;
    assert q[..0] == [];
    hide Exec;
  }

  lemma PrioritisedStep(t: nat, a: Aggressor, q: seq<Order>, qty: nat, g: nat)
    requires q != [] && 0 < q[0].qty <= qty && Marketable(a.side, a.price, q[0].price) && q[0].owner.Owner?
    requires Prioritised(t, a, q[1..], qty - q[0].qty, MatchQueue(t, a, q[1..], qty - q[0].qty), g)
    ensures Prioritised(t, a, q, qty, MatchQueue(t, a, q, qty), g + 1)
  {
    hide TradeShown, LeftShown, Exec;
    var r, g' := MatchQueue(t, a, q, qty), g + 1;
    forall j | 0 <= j < |r.queue|
      ensures LeftShown(a, q, qty, r.queue, g', j)
    {
      LeftStep(a, q, qty, r.queue, g, j);
    }
    forall k | 0 <= k < |r.responses| / 2
      ensures TradeShown(t, a, q, qty, r.responses, r.updates, k)
    {
      TradeStep(t, a, q, qty, k);
    }
    forall k | 0 <= k < |q|
      ensures k < g' ==> Exec(a, q, qty, k) == q[k].qty
      ensures |r.responses| / 2 <= k ==> Exec(a, q, qty, k) == 0
    {
      if k > 0 {
        ExecStep(a, q, qty, k);
      } else {
        ExecFirst(a, q, qty);
      }
    }
  }

  lemma ExecFirst(a: Aggressor, q: seq<Order>, qty: nat)
    requires q != [] && 0 < q[0].qty <= qty && Marketable(a.side, a.price, q[0].price)
    ensures Exec(a, q, qty, 0) == q[0].qty
  {
  }

  lemma LeftStep(a: Aggressor, q: seq<Order>, qty: nat, left: seq<Order>, g: nat, j: nat)
    requires q != [] && q[0].qty <= qty && g + 1 + |left| == |q| && j < |left|
    requires LeftShown(a, q[1..], qty - q[0].qty, left, g, j)
    ensures LeftShown(a, q, qty, left, g + 1, j)
  {
    ExecStep(a, q, qty, g + 1 + j);
  }

  lemma TradeStep(t: nat, a: Aggressor, q: seq<Order>, qty: nat, k: nat)
    requires q != [] && 0 < q[0].qty <= qty && Marketable(a.side, a.price, q[0].price) && q[0].owner.Owner?
    requires k < |q|
    requires var s := MatchQueue(t, a, q[1..], qty - q[0].qty);
             k > 0 ==> TradeShown(t, a, q[1..], qty - q[0].qty, s.responses, s.updates, k - 1)
    ensures var r := MatchQueue(t, a, q, qty); TradeShown(t, a, q, qty, r.responses, r.updates, k)
  {
    var r, s := MatchQueue(t, a, q, qty), MatchQueue(t, a, q[1..], qty - q[0].qty);
    if k > 0 {
      ExecStep(a, q, qty, k);
      assert r.responses[2 * k] == s.responses[2 * (k - 1)] && r.responses[2 * k + 1] == s.responses[2 * (k - 1) + 1];
      assert r.updates[2 * k] == s.updates[2 * (k - 1)] && r.updates[2 * k + 1] == s.updates[2 * (k - 1) + 1];
    }
  }
}
