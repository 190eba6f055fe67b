/**
 * What the abstract exchange keeps over every request: a well-formed, uncrossed book and a balanced quantity ledger.
 */
module Guarantees {
  import opened Types
  import opened Sequences
  import opened OrderQueue
  import opened Matching

  // ----- the invariant of the book -----

  ghost predicate OrderOk(o: Order, nextId: nat) {
    o.qty > 0 && 0 < o.id < nextId && o.owner.Owner?
  }

  ghost predicate AllOk(q: seq<Order>, nextId: nat) {
    forall i :: 0 <= i < |q| ==> OrderOk(q[i], nextId)
  }

  ghost predicate Distinct(q: seq<Order>) {
    forall i, j :: 0 <= i < j < |q| ==> q[i].id != q[j].id && q[i].owner != q[j].owner
  }

  ghost predicate Apart(a: seq<Order>, b: seq<Order>) {
    forall i, j :: 0 <= i < |a| && 0 <= j < |b| ==> a[i].id != b[j].id && a[i].owner != b[j].owner
  }

  /** Best bid below best ask; in a sorted book, every bid below every ask. */
  ghost predicate Uncrossed(b: Book) {
    forall i, j :: 0 <= i < |b.bids| && 0 <= j < |b.asks| ==> b.bids[i].price < b.asks[j].price
  }

  ghost predicate ExchangeOk(m: Exchange) {
    && Queue(BUY, m.book.bids) && Queue(SELL, m.book.asks)
    && AllOk(m.book.bids, m.nextId) && AllOk(m.book.asks, m.nextId)
    && Distinct(m.book.bids) && Distinct(m.book.asks) && Apart(m.book.bids, m.book.asks)
    && Uncrossed(m.book)
    && m.nextId > 0
  }

  /**
   * The requests the exchange is built for: a real side, and no id of a live order reused for a residual that rests.
   */
  ghost predicate Admitted(m: Exchange, t: nat, r: Request) {
    r.New? ==>
      && (r.side == BUY || r.side == SELL)
      && (MatchNew(m, t, r.clientId, r.orderId, r.side, r.price, r.qty).leaves > 0 ==>
            SideOfOwner(AfterTrades(m, t, r.clientId, r.orderId, r.side, r.price, r.qty),
                Owner(r.clientId, r.orderId)) == INVALID_SIDE)
  }

  /** A queue that lost its first orders and part of the next one's quantity. */
  ghost predicate Shrunk(q: seq<Order>, q': seq<Order>, gone: nat) {
    && gone + |q'| == |q|
    && forall j :: 0 <= j < |q'| ==> 0 < q'[j].qty <= q[gone + j].qty && q'[j] == q[gone + j].(qty := q'[j].qty)
  }

  lemma {:induction false} MatchShrinks(t: nat, a: Aggressor, q: seq<Order>, leaves: nat) returns (gone: nat)
    requires Positive(q)
    ensures var r := MatchQueue(t, a, q, leaves);
            && Shrunk(q, r.queue, gone)
            && (r.leaves > 0 && r.queue != [] ==> !Marketable(a.side, a.price, r.queue[0].price))
  {
    hide Marketable, Positive, Fills, Reports, Shrunk;
    gone := 0;
    if leaves > 0 && q != [] && Marketable(a.side, a.price, q[0].price) && q[0].qty <= leaves {
      PositiveTail(q);
      var g := MatchShrinks(t, a, q[1..], leaves - q[0].qty);
      gone := g + 1;
      ShrunkStep(q, MatchQueue(t, a, q[1..], leaves - q[0].qty).queue, g);
    } else {
      ShrunkFirst(q, MatchQueue(t, a, q, leaves).queue);
    }
  }

  lemma PositiveTail(q: seq<Order>)
    requires Positive(q) && q != []
    ensures Positive(q[1..])
  {
  }

  lemma ShrunkStep(q: seq<Order>, q': seq<Order>, g: nat)
    requires q != [] && Shrunk(q[1..], q', g)
    ensures Shrunk(q, q', g + 1)
  {
  }

  lemma ShrunkFirst(q: seq<Order>, q': seq<Order>)
    requires Positive(q)
    requires q' == q || (q != [] && |q'| == |q| && q'[1..] == q[1..] && 0 < q'[0].qty < q[0].qty
               && q'[0] == q[0].(qty := q'[0].qty))
    ensures Shrunk(q, q', 0)
  {
  }

  /** All that holds of one side, given the other side. */
  ghost predicate SideKept(side: Side, q: seq<Order>, nextId: nat, other: seq<Order>) {
    Queue(side, q) && AllOk(q, nextId) && Distinct(q) && Apart(q, other)
  }

  lemma ApartFlip(a: seq<Order>, b: seq<Order>)
    requires Apart(a, b)
    ensures Apart(b, a)
  {
  }

  lemma ShrunkKeeps(side: Side, q: seq<Order>, q': seq<Order>, gone: nat, nextId: nat, other: seq<Order>)
    requires Shrunk(q, q', gone) && SideKept(side, q, nextId, other)
    ensures SideKept(side, q', nextId, other)
  {
  }

  /** A newcomer at a price has the highest priority number there, one past the last. */
  lemma NextPriorityIsLast(side: Side, q: seq<Order>, price: int, i: nat)
    requires Queue(side, q) && (side == BUY || side == SELL) && i < |q| && q[i].price == price
    ensures q[i].priority < NextPriority(side, q, price)
  {
  }

  lemma RestQueue(side: Side, q: seq<Order>, o: Order, nextId: nat)
    requires (side == BUY || side == SELL) && Queue(side, q) && AllOk(q, nextId)
    requires o.side == side && o.id == nextId && o.priority == NextPriority(side, q, o.price)
    ensures Queue(side, Insert(side, q, o))
  {
    forall i | 0 <= i < |q| && q[i].price == o.price
      ensures q[i].id < o.id && q[i].priority < o.priority
    {
      NextPriorityIsLast(side, q, o.price, i);
      assert OrderOk(q[i], nextId);
    }
    InsertQueue(side, q, o);
  }

  lemma RestDistinct(q: seq<Order>, k: nat, o: Order, nextId: nat, other: seq<Order>)
    requires k <= |q| && AllOk(q, nextId) && AllOk(other, nextId) && Distinct(q) && Apart(q, other)
    requires o.id == nextId > 0 && o.qty > 0 && o.owner.Owner?
    requires forall i :: 0 <= i < |q| ==> q[i].owner != o.owner
    requires forall i :: 0 <= i < |other| ==> other[i].owner != o.owner
    ensures var q' := InsertAt(q, k, o); AllOk(q', nextId + 1) && Distinct(q') && Apart(q', other)
  {
  }

  /** After the trades of a new order the book is well formed and, if quantity is left, open to its price. */
  lemma TradesKeep(m: Exchange, t: nat, c: nat, oid: nat, side: Side, price: int, qty: nat)
    requires ExchangeOk(m) && (side == BUY || side == SELL)
    ensures var b := AfterTrades(m, t, c, oid, side, price, qty);
            && ExchangeOk(Exchange(b, m.nextId)) && b.Queue(side) == m.book.Queue(side)
            && (MatchNew(m, t, c, oid, side, price, qty).leaves > 0 ==> Clear(side, b.Queue(Opposite(side)), price))
  {
    var opp, a := Opposite(side), IncomingOf(m, c, oid, side, price);
    var q, other := m.book.Queue(opp), m.book.Queue(side);
    hide Queue, Distinct;
    assert Positive(q) by {
      assert forall i :: 0 <= i < |q| ==> OrderOk(q[i], m.nextId);
    }
    var gone := MatchShrinks(t, a, q, qty);
    var r := MatchQueue(t, a, q, qty);
    hide MatchQueue, Shrunk;
    ApartFlip(m.book.bids, m.book.asks);
    ShrunkKeeps(opp, q, r.queue, gone, m.nextId, other);
    ApartFlip(r.queue, other);
    ShrunkUncrossed(m.book, side, r.queue, gone);
    if r.leaves > 0 {
      AllClear(side, r.queue, price);
    }
  }

  /** No order of the opposite queue trades at the price. */
  ghost predicate Clear(side: Side, q: seq<Order>, price: int) {
    forall i :: 0 <= i < |q| ==> !Marketable(side, price, q[i].price)
  }

  lemma AllClear(side: Side, q: seq<Order>, price: int)
    requires (side == BUY || side == SELL) && Queue(Opposite(side), q)
    requires q != [] ==> !Marketable(side, price, q[0].price)
    ensures Clear(side, q, price)
  {
  }

  lemma ShrunkUncrossed(b: Book, side: Side, q': seq<Order>, gone: nat)
    requires Uncrossed(b) && (side == BUY || side == SELL) && Shrunk(b.Queue(Opposite(side)), q', gone)
    ensures Uncrossed(b.With(Opposite(side), q'))
  {
  }

  lemma RestUncrossed(b: Book, side: Side, o: Order)
    requires Uncrossed(b) && (side == BUY || side == SELL) && Clear(side, b.Queue(Opposite(side)), o.price)
    ensures Uncrossed(b.With(side, Insert(side, b.Queue(side), o)))
  {
  }

  lemma AddOrderKeeps(m: Exchange, t: nat, c: nat, oid: nat, side: Side, price: int, qty: nat)
    requires ExchangeOk(m) && Admitted(m, t, New(c, oid, side, price, qty))
    ensures ExchangeOk(AddOrder(m, t, c, oid, side, price, qty).next)
  {
    TradesKeep(m, t, c, oid, side, price, qty);
    var b, leaves := AfterTrades(m, t, c, oid, side, price, qty), MatchNew(m, t, c, oid, side, price, qty).leaves;
    hide AfterTrades, MatchNew, Queue, Distinct, Clear, Uncrossed;
    if leaves > 0 {
      var q, other := b.Queue(side), b.Queue(Opposite(side));
      var o := Residual(m, b, c, oid, side, price, leaves);
      ApartFlip(b.bids, b.asks);
      RestQueue(side, q, o, m.nextId);
      RestDistinct(q, Rank(side, q, o.price), o, m.nextId, other);
      RestUncrossed(b, side, o);
      ApartFlip(Insert(side, q, o), other);
    }
    assert AllOk(b.bids, m.nextId + 1) && AllOk(b.asks, m.nextId + 1) by {
      AllOkLater(b.bids, m.nextId);
      AllOkLater(b.asks, m.nextId);
    }
  }

  lemma AllOkLater(q: seq<Order>, nextId: nat)
    requires AllOk(q, nextId)
    ensures AllOk(q, nextId + 1)
  {
  }

  lemma CancelOrderKeeps(m: Exchange, t: nat, c: nat, oid: nat)
    requires ExchangeOk(m)
    ensures ExchangeOk(CancelOrder(m, t, c, oid).next)
  {
    var side := SideOfOwner(m.book, Owner(c, oid));
    if side != INVALID_SIDE {
      var q, other := m.book.Queue(side), m.book.Queue(Opposite(side));
      var k := IndexOf(q, Owner(c, oid));
      ApartFlip(m.book.bids, m.book.asks);
      DropKeeps(side, q, k, m.nextId, other);
      ApartFlip(RemoveAt(q, k), other);
    }
  }

  lemma DropKeeps(side: Side, q: seq<Order>, k: nat, nextId: nat, other: seq<Order>)
    requires SideKept(side, q, nextId, other) && k < |q|
    ensures SideKept(side, RemoveAt(q, k), nextId, other)
  {
  }

  /** Every reachable book is sorted, uncrossed, free of duplicates and of empty orders. */
  lemma {:induction false} SessionKeeps(m: Exchange, t: nat, rs: seq<Request>)
    requires ExchangeOk(m) && AllAdmitted(m, t, rs)
    ensures ExchangeOk(Session(m, t, rs).next)
    decreases |rs|
  {
    if rs != [] {
      ProcessKeeps(m, t, rs[0]);
      SessionKeeps(Process(m, t, rs[0]).next, t, rs[1..]);
    }
  }

  ghost predicate AllAdmitted(m: Exchange, t: nat, rs: seq<Request>)
    decreases |rs|
  {
    rs != [] ==> Admitted(m, t, rs[0]) && AllAdmitted(Process(m, t, rs[0]).next, t, rs[1..])
  }

  lemma ProcessKeeps(m: Exchange, t: nat, r: Request)
    requires ExchangeOk(m) && Admitted(m, t, r)
    ensures ExchangeOk(Process(m, t, r).next)
  {
    hide ExchangeOk, Admitted;
    match r
    case New(c, oid, side, price, qty) => AddOrderKeeps(m, t, c, oid, side, price, qty);
    case Cancel(c, oid) => CancelOrderKeeps(m, t, c, oid);
  }

  // ----- the quantity ledger -----

  function SumBy<T>(f: T -> nat, s: seq<T>): nat {
    if s == [] then 0 else f(s[0]) + SumBy(f, s[1..])
  }

  lemma {:induction false} SumConcat<T>(f: T -> nat, a: seq<T>, b: seq<T>)
    ensures SumBy(f, a + b) == SumBy(f, a) + SumBy(f, b)
  {
    if a == [] {
      assert a + b == b;
    } else {
      assert (a + b)[1..] == a[1..] + b;
      SumConcat(f, a[1..], b);
    }
  }

  function Accepted(r: Response): nat {
    if r.kind == ACCEPTED then r.leavesQty else 0
  }

  function Cancelled(r: Response): nat {
    if r.kind == CANCELED then r.leavesQty else 0
  }

  function Filled(r: Response): nat {
    if r.kind == FILLED then r.execQty else 0
  }

  function Traded(u: Update): nat {
    if u.kind == TRADE then u.qty else 0
  }

  function Resting(b: Book): nat {
    Total(b.bids) + Total(b.asks)
  }

  /**
   * From book b to book b', nothing accepted is lost: it rests, it was cancelled or it traded, and every trade
   * takes its quantity from two orders and reports it to both.
   */
  ghost predicate Balanced(b: Book, b': Book, rs: seq<Response>, us: seq<Update>) {
    && Resting(b) + SumBy(Accepted, rs) == Resting(b') + SumBy(Cancelled, rs) + 2 * SumBy(Traded, us)
    && SumBy(Filled, rs) == 2 * SumBy(Traded, us)
  }

  /** What trades of a total quantity come to in the ledger. */
  ghost predicate TradesSum(rs: seq<Response>, us: seq<Update>, traded: nat) {
    && SumBy(Traded, us) == traded && SumBy(Filled, rs) == 2 * traded
    && SumBy(Accepted, rs) == 0 == SumBy(Cancelled, rs)
  }

  lemma TradesSumConcat(rs: seq<Response>, us: seq<Update>, x: nat, rs': seq<Response>, us': seq<Update>, y: nat)
    requires TradesSum(rs, us, x) && TradesSum(rs', us', y)
    ensures TradesSum(rs + rs', us + us', x + y)
  {
    SumsConcat(rs, rs', us, us');
  }

  lemma NoTrades()
    ensures TradesSum([], [], 0)
  {
  }

  lemma {:induction false} MatchTrades(t: nat, a: Aggressor, q: seq<Order>, leaves: nat) returns (traded: nat)
    ensures var r := MatchQueue(t, a, q, leaves);
            Total(q) == Total(r.queue) + traded && leaves == r.leaves + traded
                && TradesSum(r.responses, r.updates, traded)
  {
    hide TradesSum, Fills, Reports;
    traded := 0;
    NoTrades();
    if leaves > 0 && q != [] && Marketable(a.side, a.price, q[0].price) {
      if q[0].qty <= leaves {
        var later := MatchTrades(t, a, q[1..], leaves - q[0].qty);
        MatchFirst(t, a, q, leaves);
        TradeBalances(t, a, q[0], q[0].qty, leaves - q[0].qty);
        var s := MatchQueue(t, a, q[1..], leaves - q[0].qty);
        TradesSumConcat(Fills(t, a, q[0], q[0].qty, leaves - q[0].qty), Reports(t, a, q[0], q[0].qty), q[0].qty,
                        s.responses, s.updates, later);
        traded := q[0].qty + later;
      } else {
        TradeBalances(t, a, q[0], leaves, 0);
        traded := leaves;
      }
    }
  }

  lemma {:induction false} MatchBalances(t: nat, a: Aggressor, q: seq<Order>, leaves: nat)
    ensures var r := MatchQueue(t, a, q, leaves); var traded := SumBy(Traded, r.updates);
            && Total(q) == Total(r.queue) + traded && leaves == r.leaves + traded
            && SumBy(Filled, r.responses) == 2 * traded
            && SumBy(Accepted, r.responses) == 0 == SumBy(Cancelled, r.responses)
  {
    hide MatchQueue;
    var traded := MatchTrades(t, a, q, leaves);
  }

  lemma {:induction false} SumsConcat(rs: seq<Response>, rs': seq<Response>, us: seq<Update>, us': seq<Update>)
    ensures SumBy(Filled, rs + rs') == SumBy(Filled, rs) + SumBy(Filled, rs')
    ensures SumBy(Accepted, rs + rs') == SumBy(Accepted, rs) + SumBy(Accepted, rs')
    ensures SumBy(Cancelled, rs + rs') == SumBy(Cancelled, rs) + SumBy(Cancelled, rs')
    ensures SumBy(Traded, us + us') == SumBy(Traded, us) + SumBy(Traded, us')
  {
    SumConcat(Filled, rs, rs');
    SumConcat(Accepted, rs, rs');
    SumConcat(Cancelled, rs, rs');
    SumConcat(Traded, us, us');
  }

  lemma TradeBalances(t: nat, a: Aggressor, o: Order, fill: nat, leaves: nat)
    requires fill <= o.qty
    ensures TradesSum(Fills(t, a, o, fill, leaves), Reports(t, a, o, fill), fill)
  {
    var x, y := AggressorFill(t, a, o, fill, leaves), PassiveFill(t, o, fill, o.qty - fill);
    SumTwo(Filled, x, y);
    SumTwo(Accepted, x, y);
    SumTwo(Cancelled, x, y);
    SumTwo(Traded, TradeUpdate(t, a, o, fill), PassiveUpdate(t, o, fill));
  }

  lemma SumTwo<T>(f: T -> nat, x: T, y: T)
    ensures SumBy(f, [x, y]) == f(x) + f(y)
  {
    SumConcat(f, [x], [y]);
    SumOne(f, x);
    SumOne(f, y);
    assert [x, y] == [x] + [y];
  }

  lemma {:induction false} TotalInsert(q: seq<Order>, k: nat, o: Order)
    requires k <= |q|
    ensures Total(InsertAt(q, k, o)) == Total(q) + o.qty
  {
    if k > 0 {
      assert InsertAt(q, k, o)[1..] == InsertAt(q[1..], k - 1, o);
      TotalInsert(q[1..], k - 1, o);
    } else {
      assert InsertAt(q, k, o)[1..] == q;
    }
  }

  lemma {:induction false} TotalRemove(q: seq<Order>, k: nat)
    requires k < |q|
    ensures Total(q) == Total(RemoveAt(q, k)) + q[k].qty
  {
    TotalInsert(RemoveAt(q, k), k, q[k]);
    RemoveInsert(q, k);
  }

  lemma SumOne<T>(f: T -> nat, x: T)
    ensures SumBy(f, [x]) == f(x)
  {
  }

  lemma AddOrderBalances(m: Exchange, t: nat, c: nat, oid: nat, side: Side, price: int, qty: nat)
    requires side == BUY || side == SELL
    ensures var r := AddOrder(m, t, c, oid, side, price, qty); Balanced(m.book, r.next.book, r.responses, r.updates)
  {
    var a, q := IncomingOf(m, c, oid, side, price), m.book.Queue(Opposite(side));
    MatchBalances(t, a, q, qty);
    var r, b := MatchNew(m, t, c, oid, side, price, qty), AfterTrades(m, t, c, oid, side, price, qty);
    assert r == MatchQueue(t, a, q, qty) && b == m.book.With(Opposite(side), r.queue);
    hide MatchNew, AfterTrades, MatchQueue, SumBy, Total, NextPriority;
    var accepted := Response(ACCEPTED, c, t, oid, m.nextId, side, price, 0, qty);
    AcceptedFirst(accepted, r.responses);
    if r.leaves > 0 {
      var o := Residual(m, b, c, oid, side, price, r.leaves);
      AddLast(r.updates, Update(ADD, o.id, t, side, price, o.qty, o.priority));
      TotalInsert(b.Queue(side), Rank(side, b.Queue(side), o.price), o);
    }
  }

  lemma {:induction false} AcceptedFirst(x: Response, rs: seq<Response>)
    requires x.kind == ACCEPTED
    ensures SumBy(Accepted, [x] + rs) == x.leavesQty + SumBy(Accepted, rs)
    ensures SumBy(Cancelled, [x] + rs) == SumBy(Cancelled, rs)
    ensures SumBy(Filled, [x] + rs) == SumBy(Filled, rs)
  {
  }

  lemma {:induction false} AddLast(us: seq<Update>, u: Update)
    requires u.kind == ADD
    ensures SumBy(Traded, us + [u]) == SumBy(Traded, us)
  {
    SumConcat(Traded, us, [u]);
    SumOne(Traded, u);
  }

  lemma CancelOrderBalances(m: Exchange, t: nat, c: nat, oid: nat)
    ensures var r := CancelOrder(m, t, c, oid); Balanced(m.book, r.next.book, r.responses, r.updates)
  {
    var r, side := CancelOrder(m, t, c, oid), SideOfOwner(m.book, Owner(c, oid));
    SumOne(Accepted, r.responses[0]);
    SumOne(Cancelled, r.responses[0]);
    SumOne(Filled, r.responses[0]);
    if side != INVALID_SIDE {
      SumOne(Traded, r.updates[0]);
      TotalRemove(m.book.Queue(side), IndexOf(m.book.Queue(side), Owner(c, oid)));
    }
  }

  lemma ProcessBalances(m: Exchange, t: nat, r: Request)
    requires r.New? ==> r.side == BUY || r.side == SELL
    ensures var s := Process(m, t, r); Balanced(m.book, s.next.book, s.responses, s.updates)
  {
    hide AddOrder, CancelOrder, Balanced;
    match r
    case New(c, oid, side, price, qty) => AddOrderBalances(m, t, c, oid, side, price, qty);
    case Cancel(c, oid) => CancelOrderBalances(m, t, c, oid);
  }

  lemma BalancedOnward(b: Book, b': Book, b'': Book, rs: seq<Response>, rs': seq<Response>, us: seq<Update>,
        us': seq<Update>)
    requires Balanced(b, b', rs, us) && Balanced(b', b'', rs', us')
    ensures Balanced(b, b'', rs + rs', us + us')
  {
    hide SumBy, Resting;
    SumsConcat(rs, rs', us, us');
  }

  lemma NothingBalanced(b: Book)
    ensures Balanced(b, b, [], [])
  {
  }

  /** The ledger balances over every session, whatever the requests. */
  lemma {:induction false} SessionBalances(m: Exchange, t: nat, rs: seq<Request>)
    requires forall i :: 0 <= i < |rs| && rs[i].New? ==> rs[i].side == BUY || rs[i].side == SELL
    ensures var r := Session(m, t, rs); Balanced(m.book, r.next.book, r.responses, r.updates)
    decreases |rs|
  {
    hide Process, Balanced;
    if rs != [] {
      var first := Process(m, t, rs[0]);
      ProcessBalances(m, t, rs[0]);
      SessionBalances(first.next, t, rs[1..]);
      var rest := Session(first.next, t, rs[1..]);
      BalancedOnward(m.book, first.next.book, rest.next.book, first.responses, rest.responses, first.updates,
          rest.updates);
    } else {
      NothingBalanced(m.book);
    }
  }
}
