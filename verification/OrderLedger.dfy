/**
 * The ledger of every single order: what all responses of a session that bear its id say, taken together, and that
 * they add up to what the order still has in the book.
 */
module OrderLedger {
  import opened Types
  import opened Sequences
  import opened OrderQueue
  import opened Matching
  import opened Guarantees
  import opened OwnOrders

  /** The responses that bear a market order id. */
  function By(rs: seq<Response>, id: nat): seq<Response> {
    if rs == [] then [] else (if rs[0].marketOrderId == id then [rs[0]] else []) + By(rs[1..], id)
  }

  /** What rests under an id. */
  function RestIn(q: seq<Order>, id: nat): nat {
    if q == [] then 0 else if q[0].id == id then q[0].qty else RestIn(q[1..], id)
  }

  function Rest(b: Book, id: nat): nat {
    RestIn(b.bids, id) + RestIn(b.asks, id)
  }

  /** Fills from n to m, or fills from n to some rest and the report that the rest was cancelled, leaving nothing. */
  predicate Life(rs: seq<Response>, n: nat, m: nat) {
    Chain(rs, n, m) || (Ended(rs, n) && m == 0)
  }

  lemma {:induction false} LifeConcat(p: seq<Response>, q: seq<Response>, n: nat, k: nat, m: nat)
    requires Life(p, n, k) && Life(q, k, m)
    ensures Life(p + q, n, m)
  {
    NotEnded(q);
    if Chain(p, n, k) && Chain(q, k, m) {
      ChainConcat(p, q, n, k, m);
    } else if Chain(p, n, k) {
      var f, last := q[..|q| - 1], q[|q| - 1];
      ChainConcat(p, f, n, k, last.leavesQty);
      assert (p + q)[..|p + q| - 1] == p + f;
    } else {
      ChainFromNone(q, m);
      assert p + q == p;
    }
  }

  lemma {:induction false} ByConcat(p: seq<Response>, q: seq<Response>, id: nat)
    ensures By(p + q, id) == By(p, id) + By(q, id)
  {
    if p == [] {
      assert p + q == q;
    } else {
      assert (p + q)[1..] == p[1..] + q;
      ByConcat(p[1..], q, id);
      ConcatAssoc(if p[0].marketOrderId == id then [p[0]] else [], By(p[1..], id), By(q, id));
    }
  }

  lemma {:induction false} ByOne(r: Response, id: nat)
    ensures By([r], id) == if r.marketOrderId == id then [r] else []
  {
  }

  // ----- what rests -----

  lemma {:induction false} RestAbsent(q: seq<Order>, id: nat)
    requires forall i :: 0 <= i < |q| ==> q[i].id != id
    ensures RestIn(q, id) == 0
  {
    if q != [] {
      RestAbsent(q[1..], id);
    }
  }

  lemma {:induction false} RestAt(q: seq<Order>, k: nat)
    requires k < |q| && Distinct(q)
    ensures RestIn(q, q[k].id) == q[k].qty
  {
    if k > 0 {
      DistinctTail(q);
      RestAt(q[1..], k - 1);
    }
  }

  lemma DistinctTail(q: seq<Order>)
    requires Distinct(q) && q != []
    ensures Distinct(q[1..]) && forall i :: 0 <= i < |q[1..]| ==> q[1..][i].id != q[0].id
  {
  }

  lemma {:induction false} RestInserted(q: seq<Order>, k: nat, o: Order, id: nat)
    requires k <= |q| && forall i :: 0 <= i < |q| ==> q[i].id != o.id
    ensures RestIn(InsertAt(q, k, o), id) == if id == o.id then o.qty else RestIn(q, id)
  {
    if k > 0 {
      assert InsertAt(q, k, o)[1..] == InsertAt(q[1..], k - 1, o);
      RestInserted(q[1..], k - 1, o, id);
    } else {
      assert InsertAt(q, k, o)[1..] == q;
    }
  }

  lemma {:induction false} RestRemoved(q: seq<Order>, k: nat, id: nat)
    requires k < |q| && Distinct(q)
    ensures RestIn(RemoveAt(q, k), id) == if id == q[k].id then 0 else RestIn(q, id)
  {
    var p := RemoveAt(q, k);
    assert forall i :: 0 <= i < |p| ==> p[i].id != q[k].id;
    RestInserted(p, k, q[k], id);
    RemoveInsert(q, k);
    if id == q[k].id {
      RestAbsent(p, id);
    }
  }

  // ----- one matching -----

  lemma {:induction false} FillsBy(t: nat, a: Aggressor, o: Order, fill: nat, leaves: nat, id: nat)
    requires fill <= o.qty
    ensures By(Fills(t, a, o, fill, leaves), id) ==
            (if a.id % QTY_RANGE == id then [AggressorFill(t, a, o, fill, leaves)] else [])
            + (if o.id == id then [PassiveFill(t, o, fill, o.qty - fill)] else [])
  {
    var x, y := AggressorFill(t, a, o, fill, leaves), PassiveFill(t, o, fill, o.qty - fill);
    assert Fills(t, a, o, fill, leaves) == [x] + [y];
    ByConcat([x], [y], id);
    ByOne(x, id);
    ByOne(y, id);
  }

  /** No resting order bears the incoming order's id, nor the one its fills bear. */
  ghost predicate Foreign(a: Aggressor, q: seq<Order>) {
    forall i :: 0 <= i < |q| ==> q[i].id != a.id && q[i].id != a.id % QTY_RANGE
  }

  /** What one matching tells of an order: the incoming one, if its id fits its fills, or any other. */
  ghost predicate MatchTells(a: Aggressor, q: seq<Order>, leaves: nat, r: Matched, id: nat) {
    if id == a.id % QTY_RANGE then Chain(By(r.responses, id), leaves, r.leaves)
    else Chain(By(r.responses, id), RestIn(q, id), RestIn(r.queue, id))
  }

  lemma {:induction false} MatchLife(t: nat, a: Aggressor, q: seq<Order>, leaves: nat, id: nat)
    requires Distinct(q) && Positive(q) && Foreign(a, q)
    ensures MatchTells(a, q, leaves, MatchQueue(t, a, q, leaves), id)
  {
    if leaves > 0 && q != [] && Marketable(a.side, a.price, q[0].price) {
      DistinctTail(q);
      if q[0].qty <= leaves {
        MatchLife(t, a, q[1..], leaves - q[0].qty, id);
        MatchFirst(t, a, q, leaves);
        FullLife(t, a, q, leaves, id);
      } else {
        FillsBy(t, a, q[0], leaves, 0, id);
        assert ([q[0].(qty := q[0].qty - leaves)] + q[1..])[1..] == q[1..];
      }
    }
  }

  lemma FullLife(t: nat, a: Aggressor, q: seq<Order>, leaves: nat, id: nat)
    requires Distinct(q) && Positive(q) && Foreign(a, q)
    requires q != [] && q[0].qty <= leaves && Marketable(a.side, a.price, q[0].price)
    requires MatchTells(a, q[1..], leaves - q[0].qty, MatchQueue(t, a, q[1..], leaves - q[0].qty), id)
    ensures MatchTells(a, q, leaves, MatchQueue(t, a, q, leaves), id)
  {
    var o, s := q[0], MatchQueue(t, a, q[1..], leaves - q[0].qty);
    MatchFirst(t, a, q, leaves);
    hide MatchQueue, Fills;
    DistinctTail(q);
    FillsBy(t, a, o, o.qty, leaves - o.qty, id);
    ByConcat(Fills(t, a, o, o.qty, leaves - o.qty), s.responses, id);
    var later := By(s.responses, id);
    assert [] + later == later;
    if id == o.id {
      RestAbsent(q[1..], id);
    }
  }

  // ----- one request -----

  /** What the two queues of a sound book say about ids. */
  lemma {:induction false} BookIds(m: Exchange, side: Side, id: nat)
    requires ExchangeOk(m) && (side == BUY || side == SELL)
    ensures var q, other := m.book.Queue(side), m.book.Queue(Opposite(side));
            && Distinct(q) && Positive(q) && Rest(m.book, id) == RestIn(q, id) + RestIn(other, id)
            && (forall i :: 0 <= i < |q| ==> q[i].id < m.nextId)
            && (forall i, j :: 0 <= i < |q| && 0 <= j < |other| ==> q[i].id != other[j].id)
  {
    assert forall i :: 0 <= i < |m.book.Queue(side)| ==> OrderOk(m.book.Queue(side)[i], m.nextId);
  }

  /** An id not yet given out rests nowhere. */
  lemma RestLater(m: Exchange, id: nat)
    requires ExchangeOk(m) && id >= m.nextId
    ensures Rest(m.book, id) == 0
  {
    BookIds(m, BUY, id);
    BookIds(m, SELL, id);
    RestAbsent(m.book.bids, id);
    RestAbsent(m.book.asks, id);
  }

  lemma ForeignId(m: Exchange, c: nat, oid: nat, side: Side, price: int)
    requires ExchangeOk(m) && (side == BUY || side == SELL) && m.nextId < QTY_RANGE
    ensures var a := IncomingOf(m, c, oid, side, price);
            a.id % QTY_RANGE == m.nextId && Foreign(a, m.book.Queue(Opposite(side)))
  {
    BookIds(m, Opposite(side), m.nextId);
    hide ExchangeOk;
  }

  /** What the trades tell of an id, and what is left of the opposite queue. */
  lemma {:induction false} TradesTell(m: Exchange, t: nat, c: nat, oid: nat, side: Side, price: int, qty: nat, id: nat)
    requires ExchangeOk(m) && (side == BUY || side == SELL) && m.nextId < QTY_RANGE
    ensures var r, q := MatchNew(m, t, c, oid, side, price, qty), m.book.Queue(Opposite(side));
            if id == m.nextId then Chain(By(r.responses, id), qty, r.leaves)
            else Chain(By(r.responses, id), RestIn(q, id), RestIn(r.queue, id))
  {
    BookIds(m, Opposite(side), id);
    ForeignId(m, c, oid, side, price);
    hide ExchangeOk, Distinct, Positive, MatchQueue, Foreign, Chain;
    MatchLife(t, IncomingOf(m, c, oid, side, price), m.book.Queue(Opposite(side)), qty, id);
  }

  lemma AfterQueues(m: Exchange, t: nat, c: nat, oid: nat, side: Side, price: int, qty: nat)
    requires side == BUY || side == SELL
    ensures var b := AfterTrades(m, t, c, oid, side, price, qty);
            && b.Queue(Opposite(side)) == MatchNew(m, t, c, oid, side, price, qty).queue
            && b.Queue(side) == m.book.Queue(side)
  {
  }

  /** After the trades: the opposite queue by matching, the order's own side untouched. */
  lemma {:induction false} TradesRest(m: Exchange, t: nat, c: nat, oid: nat, side: Side, price: int, qty: nat, id: nat)
    requires ExchangeOk(m) && (side == BUY || side == SELL) && m.nextId < QTY_RANGE
    ensures var r, b := MatchNew(m, t, c, oid, side, price, qty), AfterTrades(m, t, c, oid, side, price, qty);
            && ExchangeOk(Exchange(b, m.nextId))
            && (if id == m.nextId then Chain(By(r.responses, id), qty, r.leaves) && Rest(b, id) == 0
                else Life(By(r.responses, id), Rest(m.book, id), Rest(b, id)))
  {
    hide MatchNew, AfterTrades, ExchangeOk, Distinct, Positive, Chain, RestIn, By, Life;
    BookIds(m, Opposite(side), id);
    TradesKeep(m, t, c, oid, side, price, qty);
    TradesTell(m, t, c, oid, side, price, qty, id);
    AfterQueues(m, t, c, oid, side, price, qty);
    var r, b := MatchNew(m, t, c, oid, side, price, qty), AfterTrades(m, t, c, oid, side, price, qty);
    BookIds(Exchange(b, m.nextId), Opposite(side), id);
    RestLater(Exchange(b, m.nextId), m.nextId);
    if id != m.nextId {
      OneSide(m.book.Queue(side), m.book.Queue(Opposite(side)), r.queue, By(r.responses, id), id);
    }
  }

  /** A queue's orders have fills only if no order of the other queue bears the id. */
  lemma {:induction false} OneSide(own: seq<Order>, q: seq<Order>, q': seq<Order>, rs: seq<Response>, id: nat)
    requires forall i, j :: 0 <= i < |q| && 0 <= j < |own| ==> q[i].id != own[j].id
    requires forall i, j :: 0 <= i < |q'| && 0 <= j < |own| ==> q'[i].id != own[j].id
    requires Chain(rs, RestIn(q, id), RestIn(q', id))
    ensures Life(rs, RestIn(q, id) + RestIn(own, id), RestIn(q', id) + RestIn(own, id))
  {
    if RestIn(own, id) > 0 {
      OnlyThere(own, q, id);
      OnlyThere(own, q', id);
      ChainFromNone(rs, 0);
    }
  }

  /** An id that rests in one queue does not rest in one whose ids are all different. */
  lemma {:induction false} OnlyThere(p: seq<Order>, q: seq<Order>, id: nat)
    requires RestIn(p, id) > 0
    requires forall i, j :: 0 <= i < |q| && 0 <= j < |p| ==> q[i].id != p[j].id
    ensures RestIn(q, id) == 0
  {
    if p[0].id == id {
      RestAbsent(q, id);
    } else {
      OnlyThere(p[1..], q, id);
    }
  }

  /** Resting what is left puts it under the new id and changes nothing under any other. */
  lemma ResidualRests(m: Exchange, t: nat, c: nat, oid: nat, side: Side, price: int, qty: nat, id: nat)
    requires (side == BUY || side == SELL)
    requires ExchangeOk(Exchange(AfterTrades(m, t, c, oid, side, price, qty), m.nextId))
    ensures var r := MatchNew(m, t, c, oid, side, price, qty);
            Rest(AddOrder(m, t, c, oid, side, price, qty).next.book, id) ==
            if id == m.nextId then r.leaves else Rest(AfterTrades(m, t, c, oid, side, price, qty), id)
  {
    var r, b := MatchNew(m, t, c, oid, side, price, qty), AfterTrades(m, t, c, oid, side, price, qty);
    hide MatchNew, AfterTrades, ExchangeOk;
    BookIds(Exchange(b, m.nextId), side, id);
    RestLater(Exchange(b, m.nextId), m.nextId);
    if r.leaves > 0 {
      var q, o := b.Queue(side), Residual(m, b, c, oid, side, price, r.leaves);
      RestInserted(q, Rank(side, q, price), o, id);
    }
  }

  /** A new order adds its own acceptance and fills, and lets every earlier order's life go on. */
  lemma {:induction false} AddOrderTells(m: Exchange, t: nat, c: nat, oid: nat, side: Side, price: int, qty: nat,
        id: nat)
    requires ExchangeOk(m) && (side == BUY || side == SELL) && m.nextId < QTY_RANGE
    ensures var r := AddOrder(m, t, c, oid, side, price, qty); var rs, n := By(r.responses, id), Rest(r.next.book, id);
            if id == m.nextId then
              && rs != [] && rs[0] == Response(ACCEPTED, c, t, oid, id, side, price, 0, qty)
              && Chain(rs[1..], qty, n)
            else Life(rs, Rest(m.book, id), n)
  {
    TradesRest(m, t, c, oid, side, price, qty, id);
    ResidualRests(m, t, c, oid, side, price, qty, id);
    var r := MatchNew(m, t, c, oid, side, price, qty);
    hide MatchNew, AfterTrades, ExchangeOk, Life, Chain, Rest, Residual, Insert;
    var accepted := Response(ACCEPTED, c, t, oid, m.nextId, side, price, 0, qty);
    ByConcat([accepted], r.responses, id);
    ByOne(accepted, id);
    hide By;
    assert [] + By(r.responses, id) == By(r.responses, id);
  }

  lemma {:induction false} CancelOrderTells(m: Exchange, t: nat, c: nat, oid: nat, id: nat)
    requires ExchangeOk(m) && id < QTY_RANGE
    ensures var r := CancelOrder(m, t, c, oid); Life(By(r.responses, id), Rest(m.book, id), Rest(r.next.book, id))
  {
    var side, r := SideOfOwner(m.book, Owner(c, oid)), CancelOrder(m, t, c, oid);
    ByOne(r.responses[0], id);
    if side != INVALID_SIDE {
      var q, other := m.book.Queue(side), m.book.Queue(Opposite(side));
      var k := IndexOf(q, Owner(c, oid));
      BookIds(m, side, id);
      RestAt(q, k);
      RestRemoved(q, k, id);
      if id == q[k].id {
        OnlyThere(q, other, id);
      }
    }
  }

  /** One request lets the life of every order accepted earlier go on. */
  lemma {:induction false} ProcessTells(m: Exchange, t: nat, r: Request, id: nat)
    requires ExchangeOk(m) && Admitted(m, t, r) && (r.New? ==> m.nextId < QTY_RANGE)
    requires id < QTY_RANGE && !(r.New? && id == m.nextId)
    ensures var s := Process(m, t, r); Life(By(s.responses, id), Rest(m.book, id), Rest(s.next.book, id))
  {
    hide ExchangeOk, AddOrder, CancelOrder, Life;
    match r
    case New(c, oid, side, price, qty) => AddOrderTells(m, t, c, oid, side, price, qty, id);
    case Cancel(c, oid) => CancelOrderTells(m, t, c, oid, id);
  }

  // ----- a whole session -----

  /** The new orders of a session. */
  function Asked(rs: seq<Request>): seq<Request> {
    if rs == [] then [] else (if rs[0].New? then [rs[0]] else []) + Asked(rs[1..])
  }

  lemma NextIds(m: Exchange, t: nat, r: Request)
    ensures Process(m, t, r).next.nextId == m.nextId + if r.New? then 1 else 0
  {
  }

  lemma {:induction false} SessionIds(m: Exchange, t: nat, rs: seq<Request>)
    ensures Session(m, t, rs).next.nextId == m.nextId + |Asked(rs)|
    decreases |rs|
  {
    if rs != [] {
      NextIds(m, t, rs[0]);
      SessionIds(Process(m, t, rs[0]).next, t, rs[1..]);
    }
  }

  /** A session is its first request and a session after it. */
  lemma {:induction false} SessionSplit(m: Exchange, t: nat, rs: seq<Request>, id: nat)
    requires ExchangeOk(m) && AllAdmitted(m, t, rs) && rs != []
    ensures var s, first := Session(m, t, rs), Process(m, t, rs[0]);
            var rest := Session(first.next, t, rs[1..]);
            && Admitted(m, t, rs[0]) && ExchangeOk(first.next) && AllAdmitted(first.next, t, rs[1..])
            && first.next.nextId == m.nextId + (if rs[0].New? then 1 else 0)
            && s.next == rest.next && By(s.responses, id) == By(first.responses, id) + By(rest.responses, id)
  {
    NextIds(m, t, rs[0]);
    ProcessKeeps(m, t, rs[0]);
    var first := Process(m, t, rs[0]);
    ByConcat(first.responses, Session(first.next, t, rs[1..]).responses, id);
  }

  /** Over a session, every id but those it gives out goes on living from what rests under it before. */
  lemma {:induction false} SessionLife(m: Exchange, t: nat, rs: seq<Request>, id: nat)
    requires ExchangeOk(m) && AllAdmitted(m, t, rs) && m.nextId + |Asked(rs)| <= QTY_RANGE
    requires id < QTY_RANGE && !(m.nextId <= id < m.nextId + |Asked(rs)|)
    ensures var s := Session(m, t, rs); Life(By(s.responses, id), Rest(m.book, id), Rest(s.next.book, id))
    decreases |rs|
  {
    if rs != [] {
      var first := Process(m, t, rs[0]);
      SessionSplit(m, t, rs, id);
      hide Process, ExchangeOk, Life, Admitted, AllAdmitted, Session, Rest, By;
      ProcessTells(m, t, rs[0], id);
      SessionLife(first.next, t, rs[1..], id);
      var rest := Session(first.next, t, rs[1..]);
      LifeConcat(By(first.responses, id), By(rest.responses, id), Rest(m.book, id), Rest(first.next.book, id),
                 Rest(rest.next.book, id));
    }
  }

  /** The responses of one order: its acceptance, then its life from the quantity asked for to what rests. */
  ghost predicate Told(t: nat, id: nat, r: Request, rs: seq<Response>, n: nat) {
    && r.New? && rs != []
    && rs[0] == Response(ACCEPTED, r.clientId, t, r.orderId, id, r.side, r.price, 0, r.qty)
    && Life(rs[1..], r.qty, n)
  }

  lemma BornAs(m: Exchange, t: nat, r: Request)
    requires ExchangeOk(m) && Admitted(m, t, r) && r.New? && m.nextId < QTY_RANGE
    ensures var s := Process(m, t, r); Told(t, m.nextId, r, By(s.responses, m.nextId), Rest(s.next.book, m.nextId))
  {
    hide ExchangeOk, AddOrder, Rest, By, Chain;
    AddOrderTells(m, t, r.clientId, r.orderId, r.side, r.price, r.qty, m.nextId);
  }

  /** The first request of a session gives its order an id, and the rest of the session tells the rest of its life. */
  lemma {:induction false} BornFirst(m: Exchange, t: nat, rs: seq<Request>)
    requires ExchangeOk(m) && AllAdmitted(m, t, rs) && m.nextId + |Asked(rs)| <= QTY_RANGE
    requires rs != [] && rs[0].New?
    ensures var s := Session(m, t, rs);
            Told(t, m.nextId, rs[0], By(s.responses, m.nextId), Rest(s.next.book, m.nextId))
  {
    hide Process, ExchangeOk, AllAdmitted, Session, Rest, By, Told, Life, Admitted;
    var id, first := m.nextId, Process(m, t, rs[0]);
    SessionSplit(m, t, rs, id);
    BornAs(m, t, rs[0]);
    SessionLife(first.next, t, rs[1..], id);
    var rest := Session(first.next, t, rs[1..]);
    ToldLonger(t, id, rs[0], By(first.responses, id), Rest(first.next.book, id), By(rest.responses, id),
               Rest(rest.next.book, id));
  }

  lemma ToldLonger(t: nat, id: nat, r: Request, p: seq<Response>, k: nat, q: seq<Response>, n: nat)
    requires Told(t, id, r, p, k) && Life(q, k, n)
    ensures Told(t, id, r, p + q, n)
  {
    hide Life;
    LifeConcat(p[1..], q, r.qty, k, n);
    assert (p + q)[1..] == p[1..] + q;
  }

  lemma {:induction false} SessionTells(m: Exchange, t: nat, rs: seq<Request>, k: nat)
    requires ExchangeOk(m) && AllAdmitted(m, t, rs) && m.nextId + |Asked(rs)| <= QTY_RANGE && k < |Asked(rs)|
    ensures var s, id := Session(m, t, rs), m.nextId + k;
            Told(t, id, Asked(rs)[k], By(s.responses, id), Rest(s.next.book, id))
    decreases |rs|
  {
    hide Process, ExchangeOk, AllAdmitted, Admitted, Session, Told, Rest, By, Life;
    if rs[0].New? && k == 0 {
      BornFirst(m, t, rs);
    } else {
      var id, first := m.nextId + k, Process(m, t, rs[0]);
      SessionSplit(m, t, rs, id);
      ProcessTells(m, t, rs[0], id);
      RestLater(m, id);
      RestLater(first.next, id);
      SessionTells(first.next, t, rs[1..], if rs[0].New? then k - 1 else k);
      NoLife(By(first.responses, id));
      var told := By(Session(first.next, t, rs[1..]).responses, id);
      assert [] + told == told;
    }
  }

  lemma {:induction false} NoLife(rs: seq<Response>)
    requires Life(rs, 0, 0)
    ensures rs == []
  {
    NotEnded(rs);
    ChainFromNone(rs, 0);
  }

  /**
   * For every session and every id below 2^32: the k-th new order is told of under id k by one acceptance of its
   * quantity, fills from that to n, and then either nothing, n being what rests under the id, or the report that n
   * was cancelled, nothing resting. Of any other id there is not a word.
   */
  lemma {:induction false} EveryOrder(t: nat, rs: seq<Request>, id: nat)
    requires AllAdmitted(NEW_EXCHANGE, t, rs) && |Asked(rs)| < QTY_RANGE && id < QTY_RANGE
    ensures var s := Session(NEW_EXCHANGE, t, rs); var told, n := By(s.responses, id), Rest(s.next.book, id);
            if 0 < id <= |Asked(rs)| then Told(t, id, Asked(rs)[id - 1], told, n) else told == [] && n == 0
  {
    assert ExchangeOk(NEW_EXCHANGE);
    var s := Session(NEW_EXCHANGE, t, rs);
    if 0 < id <= |Asked(rs)| {
      SessionTells(NEW_EXCHANGE, t, rs, id - 1);
    } else {
      SessionLife(NEW_EXCHANGE, t, rs, id);
      SessionKeeps(NEW_EXCHANGE, t, rs);
      SessionIds(NEW_EXCHANGE, t, rs);
      hide ExchangeOk, Life, Session;
      NeverResting(s.next, id);
      RestAbsent(NEW_EXCHANGE.book.bids, id);
      NoLife(By(s.responses, id));
    }
  }

  /** Neither id 0 nor one not given out yet rests. */
  lemma NeverResting(m: Exchange, id: nat)
    requires ExchangeOk(m) && (id == 0 || id >= m.nextId)
    ensures Rest(m.book, id) == 0
  {
    if id == 0 {
      assert forall i :: 0 <= i < |m.book.bids| ==> OrderOk(m.book.bids[i], m.nextId);
      assert forall i :: 0 <= i < |m.book.asks| ==> OrderOk(m.book.asks[i], m.nextId);
      RestAbsent(m.book.bids, 0);
      RestAbsent(m.book.asks, 0);
    } else {
      RestLater(m, id);
    }
  }

  // ----- beyond 2^32 -----

  /** An incoming order whose id does not fit 32 bits has no fill that bears it. */
  lemma {:induction false} Nameless(t: nat, a: Aggressor, q: seq<Order>, leaves: nat)
    requires a.id >= QTY_RANGE && Positive(q) && forall i :: 0 <= i < |q| ==> q[i].id != a.id
    ensures By(MatchQueue(t, a, q, leaves).responses, a.id) == []
  {
    if leaves > 0 && q != [] && Marketable(a.side, a.price, q[0].price) {
      if q[0].qty <= leaves {
        Nameless(t, a, q[1..], leaves - q[0].qty);
        MatchFirst(t, a, q, leaves);
        FillsBy(t, a, q[0], q[0].qty, leaves - q[0].qty, a.id);
        ByConcat(Fills(t, a, q[0], q[0].qty, leaves - q[0].qty),
                 MatchQueue(t, a, q[1..], leaves - q[0].qty).responses, a.id);
      } else {
        FillsBy(t, a, q[0], leaves, 0, a.id);
      }
    }
  }

  /**
   * The bound of EveryOrder is exact: a new order with id 2^32 or more is told of rightly only if it does not trade.
   */
  lemma {:induction false} ToldExactly(m: Exchange, t: nat, c: nat, oid: nat, side: Side, price: int, qty: nat)
    requires ExchangeOk(m) && (side == BUY || side == SELL)
    ensures var r, id := AddOrder(m, t, c, oid, side, price, qty), m.nextId;
            Told(t, id, New(c, oid, side, price, qty), By(r.responses, id), Rest(r.next.book, id)) <==>
            id < QTY_RANGE || MatchNew(m, t, c, oid, side, price, qty).leaves == qty
  {
    var id, a, opp := m.nextId, IncomingOf(m, c, oid, side, price), Opposite(side);
    if id < QTY_RANGE {
      AddOrderTells(m, t, c, oid, side, price, qty, id);
    } else {
      BookIds(m, opp, id);
      Nameless(t, a, m.book.Queue(opp), qty);
      TradesKeep(m, t, c, oid, side, price, qty);
      ResidualRests(m, t, c, oid, side, price, qty, id);
      var r := MatchNew(m, t, c, oid, side, price, qty);
      assert r == MatchQueue(t, a, m.book.Queue(opp), qty);
      hide MatchNew, AfterTrades, MatchQueue, ExchangeOk, Rest, Residual, Insert;
      var accepted := Response(ACCEPTED, c, t, oid, id, side, price, 0, qty);
      ByConcat([accepted], r.responses, id);
      ByOne(accepted, id);
    }
  }
}
