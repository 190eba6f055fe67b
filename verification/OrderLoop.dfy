/**
 * A client's order manager, its two channels and the exchange as one system, and what holds in every state it can
 * reach whatever the strategy asks for and whatever the other clients do.
 */
module OrderLoop {
  import opened Types
  import opened Sequences
  import opened Matching
  import opened Guarantees
  import opened RiskManager
  import opened OrderManager
  import opened OwnOrders

  /** One instrument: the client's slots and position, its requests and all responses under way, and the exchange. */
  datatype System = System(slots: Slots, position: int, reqs: seq<Request>, resps: seq<Response>, exch: Exchange)

  /** Who the client is, which instrument it is, and its limits. */
  datatype Setup = Setup(client: nat, ticker: nat, cfg: RiskCfg)

  datatype Action =
    | Strategy(side: Side, price: int, clip: nat, totalPnL: real)
    | Serve(index: nat)
    | Others(request: Request)
    | Receive
    | OtherTicker

  const START := System(Slots(EMPTY_SLOT, EMPTY_SLOT, 1), 0, [], [], NEW_EXCHANGE)

  ghost predicate Enabled(u: Setup, s: System, a: Action) {
    match a
    case Strategy(side, _, _, _) => Real(side)
    case Serve(i) => i < |s.reqs|
    case Others(r) => r.clientId != u.client && Admitted(s.exch, u.ticker, r)
    case Receive => s.resps != []
    case OtherTicker => true
  }

  function Fill(position: int, r: Response): int {
    if r.kind == FILLED then position + Signed(r.side, r.execQty) else position
  }

  /**
   * What the system does. The exchange may take the client's pending requests in any order; a response to another
   * client goes elsewhere, and other instruments use up order ids.
   */
  function Next(u: Setup, s: System, a: Action): System {
    match a
    case Strategy(side, price, clip, pnl) =>
      var m := Move(s.slots, u.client, u.ticker, price, side, clip, RiskInfo(s.position, pnl, u.cfg));
      s.(slots := m.next, reqs := s.reqs + m.sent)
    case Serve(i) =>
      if i >= |s.reqs| then s
      else
        var r := Process(s.exch, u.ticker, s.reqs[i]);
        s.(reqs := RemoveAt(s.reqs, i), resps := s.resps + r.responses, exch := r.next)
    case Others(request) =>
      var r := Process(s.exch, u.ticker, request);
      s.(resps := s.resps + r.responses, exch := r.next)
    case Receive =>
      if s.resps == [] then s
      else if s.resps[0].clientId != u.client then s.(resps := s.resps[1..])
      else
        s.(slots := Respond(s.slots, s.resps[0]), position := Fill(s.position, s.resps[0]), resps := s.resps[1..])
    case OtherTicker => s.(slots := s.slots.(nextOrderId := s.slots.nextOrderId + 1))
  }

  // ----- the protocol of one side -----

  /** The new-order requests of a side that are still under way. */
  function News(q: seq<Request>, side: Side): seq<Request> {
    if q == [] then [] else (if q[0].New? && q[0].side == side then [q[0]] else []) + News(q[1..], side)
  }

  lemma {:induction false} NewsConcat(p: seq<Request>, q: seq<Request>, side: Side)
    ensures News(p + q, side) == News(p, side) + News(q, side)
  {
    if p == [] {
      assert p + q == q;
    } else {
      assert (p + q)[1..] == p[1..] + q;
      NewsConcat(p[1..], q, side);
      ConcatAssoc(if p[0].New? && p[0].side == side then [p[0]] else [], News(p[1..], side), News(q, side));
    }
  }

  lemma {:induction false} NewsOne(r: Request, side: Side)
    ensures News([r], side) == if r.New? && r.side == side then [r] else []
  {
  }

  /**
   * What is under way for a slot: its own new-order request, then an acceptance, then fills that account for the
   * difference between the slot's quantity and what the exchange holds, then, after a cancel, its report.
   */
  ghost predicate Lane(s: Slot, side: Side, c: nat, news: seq<Request>, rs: seq<Response>, n: nat, cancelSent: bool) {
    match s.state
    case NEVER_USED => news == [] && rs == [] && n == 0
    case DEAD => news == [] && rs == [] && n == 0
    case PENDING_NEW =>
      && !cancelSent
      && (|| (news == [New(c, s.orderId, side, s.price, s.qty)] && rs == [] && n == 0)
          || (news == [] && Accepts(rs, s.qty, n)))
    case LIVE => !cancelSent && news == [] && Chain(rs, s.qty, n)
    case PENDING_CANCEL =>
      news == [] && ((Chain(rs, s.qty, n) && (n > 0 ==> cancelSent)) || (Ended(rs, s.qty) && n == 0))
  }

  predicate CancelSent(q: seq<Request>, c: nat, s: Slot) {
    Cancel(c, s.orderId) in q
  }

  ghost predicate SideOk(u: Setup, s: System, side: Side, n: nat) {
    var slot := s.slots.Of(side);
    && Lane(slot, side, u.client, News(s.reqs, side), For(s.resps, u.client, side), n,
        CancelSent(s.reqs, u.client, slot))
    && Held(s.exch.book.Queue(side), u.client, slot.orderId, n)
    && (slot.state != NEVER_USED ==> slot.orderId < s.slots.nextOrderId)
  }

  predicate ReqOk(c: nat, nextOrderId: nat, r: Request) {
    r.clientId == c && r.orderId < nextOrderId && (r.New? ==> Real(r.side) && r.price != PRICE_INVALID)
  }

  predicate ReqsOk(c: nat, nextOrderId: nat, q: seq<Request>) {
    forall i :: 0 <= i < |q| ==> ReqOk(c, nextOrderId, q[i])
  }

  predicate IdsDiffer(m: Slots) {
    m.bid.state != NEVER_USED && m.ask.state != NEVER_USED ==> m.bid.orderId != m.ask.orderId
  }

  /** The invariant, given what the exchange holds for the client on each side. */
  ghost predicate LoopOk(u: Setup, s: System, bid: nat, ask: nat) {
    && ExchangeOk(s.exch)
    && SideOk(u, s, BUY, bid) && SideOk(u, s, SELL, ask)
    && IdsDiffer(s.slots) && ReqsOk(u.client, s.slots.nextOrderId, s.reqs) && Sendable(s.resps)
  }

  lemma StartOk(u: Setup)
    ensures LoopOk(u, START, 0, 0)
  {
  }

  // ----- the strategy -----

  lemma {:induction false} CancelStep(c: nat, q: seq<Request>, s: Slot, side: Side, rs: seq<Response>, n: nat)
    requires Lane(s, side, c, News(q, side), rs, n, CancelSent(q, c, s)) && s.state == LIVE
    ensures var q' := q + [Cancel(c, s.orderId)]; var s' := s.(state := PENDING_CANCEL);
            Lane(s', side, c, News(q', side), rs, n, CancelSent(q', c, s'))
  {
    var q' := q + [Cancel(c, s.orderId)];
    NewsConcat(q, [Cancel(c, s.orderId)], side);
    NewsOne(Cancel(c, s.orderId), side);
    assert q'[|q|] == Cancel(c, s.orderId);
  }

  lemma {:induction false} NewStep(c: nat, t: nat, q: seq<Request>, s: Slot, side: Side, rs: seq<Response>, n: nat,
        id: nat, price: int, qty: nat)
    requires Lane(s, side, c, News(q, side), rs, n, CancelSent(q, c, s)) && (s.state == NEVER_USED || s.state == DEAD)
    requires ReqsOk(c, id, q)
    ensures var r, s' := New(c, id, side, price, qty), Slot(t, id, side, price, qty, PENDING_NEW);
            n == 0 && Lane(s', side, c, News(q + [r], side), rs, n, CancelSent(q + [r], c, s'))
  {
    var r := New(c, id, side, price, qty);
    NewsConcat(q, [r], side);
    NewsOne(r, side);
    forall i | 0 <= i < |q|
      ensures q[i] != Cancel(c, id)
    {
      assert ReqOk(c, id, q[i]);
    }
  }

  /** A request of one side does not touch the other side's lane. */
  lemma {:induction false} OtherLane(c: nat, q: seq<Request>, r: Request, s: Slot, side: Side, rs: seq<Response>,
        n: nat)
    requires Lane(s, side, c, News(q, side), rs, n, CancelSent(q, c, s))
    requires r.New? ==> r.side != side
    requires r.Cancel? && s.state != NEVER_USED ==> r.orderId != s.orderId
    ensures Lane(s, side, c, News(q + [r], side), rs, n, CancelSent(q + [r], c, s))
  {
    hide News, Chain, Ended, Accepts;
    NewsConcat(q, [r], side);
    NewsOne(r, side);
    assert News(q, side) + [] == News(q, side);
    assert (q + [r])[|q|] == r;
    if CancelSent(q, c, s) {
      var i :| 0 <= i < |q| && q[i] == Cancel(c, s.orderId);
      assert (q + [r])[i] == q[i];
    }
  }

  lemma ReqsGrow(c: nat, id: nat, id': nat, q: seq<Request>, r: Request)
    requires ReqsOk(c, id, q) && id <= id' && ReqOk(c, id', r)
    ensures ReqsOk(c, id', q + [r])
  {
  }

  lemma StrategyKeeps(u: Setup, s: System, side: Side, price: int, clip: nat, pnl: real, bid: nat, ask: nat)
    requires LoopOk(u, s, bid, ask) && Real(side)
    ensures LoopOk(u, Next(u, s, Strategy(side, price, clip, pnl)), bid, ask)
  {
    hide Lane, Held, ExchangeOk, Sendable, CancelSent, News, For, ReqsOk;
    var slot, other := s.slots.Of(side), s.slots.Of(Opposite(side));
    var risk, id := RiskInfo(s.position, pnl, u.cfg), s.slots.nextOrderId;
    var n, k := if side == BUY then bid else ask, if side == BUY then ask else bid;
    var rs, ps := For(s.resps, u.client, side), For(s.resps, u.client, Opposite(side));
    hide RiskInfo.CheckPreTradeRisk;
    if slot.state == LIVE && slot.price != price {
      CancelStep(u.client, s.reqs, slot, side, rs, n);
      OtherLane(u.client, s.reqs, Cancel(u.client, slot.orderId), other, Opposite(side), ps, k);
      ReqsGrow(u.client, id, id, s.reqs, Cancel(u.client, slot.orderId));
    } else if (slot.state == NEVER_USED || slot.state == DEAD) && price != PRICE_INVALID
        && risk.CheckPreTradeRisk(side, clip) == ALLOWED {
      var r := New(u.client, id, side, price, clip);
      NewStep(u.client, u.ticker, s.reqs, slot, side, rs, n, id, price, clip);
      OtherLane(u.client, s.reqs, r, other, Opposite(side), ps, k);
      ReqsGrow(u.client, id, id + 1, s.reqs, r);
      HeldNone(s.exch.book.Queue(side), u.client, slot.orderId, id);
    } else {
      assert s.reqs + [] == s.reqs;
    }
  }

  lemma HeldNone(q: seq<Order>, c: nat, oid: nat, oid': nat)
    requires Held(q, c, oid, 0)
    ensures Held(q, c, oid', 0)
  {
  }

  // ----- the exchange -----

  /** A lane gains fills of the order the exchange holds. */
  lemma {:induction false} LaneFilled(s: Slot, side: Side, c: nat, news: seq<Request>, rs: seq<Response>, n: nat,
        sent: bool, more: seq<Response>, n': nat)
    requires Lane(s, side, c, news, rs, n, sent) && Chain(more, n, n')
    ensures Lane(s, side, c, news, rs + more, n', sent)
  {
    if n == 0 {
      assert more == [];
      assert rs + more == rs;
    } else if s.state == PENDING_NEW {
      ChainConcat(rs[1..], more, s.qty, n, n');
      assert (rs + more)[1..] == rs[1..] + more;
    } else {
      ChainConcat(rs, more, s.qty, n, n');
    }
  }

  lemma LaneCancelled(s: Slot, side: Side, c: nat, news: seq<Request>, rs: seq<Response>, n: nat, sent: bool,
        r: Response, sent': bool)
    requires Lane(s, side, c, news, rs, n, sent) && sent && n > 0 && r.kind == CANCELED && r.leavesQty == n
    ensures Lane(s, side, c, news, rs + [r], 0, sent')
  {
  }

  /** The client's new-order request reaches the exchange. */
  lemma LaneOpened(s: Slot, side: Side, c: nat, r: Request, news: seq<Request>, later: seq<Request>, rs: seq<Response>,
        n: nat, sent: bool, more: seq<Response>, n': nat, sent': bool)
    requires Lane(s, side, c, news, rs, n, sent) && r in news && |news| == |later| + 1
    requires (sent' ==> sent) && Accepts(more, s.qty, n')
    ensures r == New(c, s.orderId, side, s.price, s.qty) && n == 0
    ensures Lane(s, side, c, later, rs + more, n', sent')
  {
    assert rs + more == more;
  }

  /** Taking one request away takes it from the new orders of its side, and from those of the other side nothing. */
  lemma {:induction false} NewsTaken(q: seq<Request>, i: nat, side: Side)
    requires i < |q|
    ensures q[i].New? && q[i].side == side ==>
              q[i] in News(q, side) && |News(q, side)| == |News(RemoveAt(q, i), side)| + 1
    ensures !(q[i].New? && q[i].side == side) ==> News(RemoveAt(q, i), side) == News(q, side)
  {
    NewsConcat(q[..i] + [q[i]], q[i + 1..], side);
    NewsConcat(q[..i], [q[i]], side);
    NewsOne(q[i], side);
    NewsConcat(q[..i], q[i + 1..], side);
    assert q == q[..i] + [q[i]] + q[i + 1..];
  }

  lemma SentTaken(q: seq<Request>, i: nat, c: nat, s: Slot)
    requires i < |q|
    ensures CancelSent(RemoveAt(q, i), c, s) ==> CancelSent(q, c, s)
    ensures q[i] != Cancel(c, s.orderId) ==> (CancelSent(RemoveAt(q, i), c, s) <==> CancelSent(q, c, s))
    ensures q[i] == Cancel(c, s.orderId) ==> CancelSent(q, c, s)
  {
    var q' := RemoveAt(q, i);
    if CancelSent(q, c, s) && q[i] != Cancel(c, s.orderId) {
      var k :| 0 <= k < |q| && q[k] == Cancel(c, s.orderId);
      assert q'[if k < i then k else k - 1] == q[k];
    }
  }

  lemma ReqsTaken(c: nat, id: nat, q: seq<Request>, i: nat)
    requires ReqsOk(c, id, q) && i < |q|
    ensures ReqsOk(c, id, RemoveAt(q, i)) && ReqOk(c, id, q[i])
  {
  }

  lemma SendableConcat(p: seq<Response>, q: seq<Response>)
    requires Sendable(p) && Sendable(q)
    ensures Sendable(p + q)
  {
  }

  /** Without a request of its own under way, a side's responses only tell of fills. */
  lemma {:induction false} SideFilled(u: Setup, s: System, side: Side, n: nat, r: Result, n': nat, f: seq<Response>)
    requires SideOk(u, s, side, n) && Chain(f, n, n') && f == For(r.responses, u.client, side)
    requires Held(r.next.book.Queue(side), u.client, s.slots.Of(side).orderId, n')
    ensures SideOk(u, s.(resps := s.resps + r.responses, exch := r.next), side, n')
  {
    hide Lane, Held, CancelSent, News, For, Chain;
    var slot := s.slots.Of(side);
    ForConcat(s.resps, r.responses, u.client, side);
    LaneFilled(slot, side, u.client, News(s.reqs, side), For(s.resps, u.client, side), n,
               CancelSent(s.reqs, u.client, slot), f, n');
  }

  /** Taking a request that is neither the side's new order nor its cancel changes nothing for the side. */
  lemma SidePassedOver(u: Setup, s: System, side: Side, n: nat, i: nat)
    requires SideOk(u, s, side, n) && i < |s.reqs|
    requires !(s.reqs[i].New? && s.reqs[i].side == side)
    requires s.reqs[i] == Cancel(u.client, s.slots.Of(side).orderId) ==> n == 0
    ensures SideOk(u, s.(reqs := RemoveAt(s.reqs, i)), side, n)
  {
    hide Held, CancelSent, News, For;
    NewsTaken(s.reqs, i, side);
    SentTaken(s.reqs, i, u.client, s.slots.Of(side));
  }

  lemma SideHolds(u: Setup, s: System, side: Side, n: nat)
    requires SideOk(u, s, side, n)
    ensures Held(s.exch.book.Queue(side), u.client, s.slots.Of(side).orderId, n)
  {
  }

  lemma {:induction false} ChainNone(n: nat)
    ensures Chain([], n, n)
  {
  }

  lemma OthersKeep(u: Setup, s: System, r: Request, bid: nat, ask: nat) returns (bid': nat, ask': nat)
    requires LoopOk(u, s, bid, ask) && Enabled(u, s, Others(r))
    ensures LoopOk(u, Next(u, s, Others(r)), bid', ask')
  {
    hide Lane, Held, ExchangeOk, Sendable, CancelSent, News, For, ReqsOk, Chain, SideOk, AddOrder, CancelOrder;
    var c, res := u.client, Process(s.exch, u.ticker, r);
    ProcessKeeps(s.exch, u.ticker, r);
    bid', ask' := bid, ask;
    SideHolds(u, s, BUY, bid);
    SideHolds(u, s, SELL, ask);
    match r {
      case New(d, did, side, price, qty) =>
        var opp := Opposite(side);
        var n, k := if side == BUY then bid else ask, if side == BUY then ask else bid;
        var k' := OtherNewServed(s.exch, u.ticker, d, did, side, price, qty, c, s.slots.Of(side).orderId, n,
            s.slots.Of(opp).orderId, k);
        ChainNone(n);
        SideFilled(u, s, side, n, res, n, For(res.responses, c, side));
        SideFilled(u, s, opp, k, res, k', For(res.responses, c, opp));
        if side == BUY {
          ask' := k';
        } else {
          bid' := k';
        }
      case Cancel(d, did) =>
        ChainNone(bid);
        ChainNone(ask);
        var hitB, b' := CancelOnSide(s.exch, u.ticker, d, did, c, BUY, s.slots.bid.orderId, bid);
        var hitA, a' := CancelOnSide(s.exch, u.ticker, d, did, c, SELL, s.slots.ask.orderId, ask);
        SideFilled(u, s, BUY, bid, res, bid, For(res.responses, c, BUY));
        SideFilled(u, s, SELL, ask, res, ask, For(res.responses, c, SELL));
    }
    SendableConcat(s.resps, res.responses);
  }

  /** The exchange holds no order of that owner. */
  lemma {:induction false} NotThere(q: seq<Order>, c: nat, oid: nat, n: nat, x: nat)
    requires Held(q, c, oid, n) && (n == 0 || oid != x)
    ensures IndexOf(q, Owner(c, x)) == |q|
  {
    var k := IndexOf(q, Owner(c, x));
    if k < |q| {
      OwnAt(q, k, c);
      OwnRemove(q, k, c);
    }
  }

  lemma SideIds(u: Setup, s: System, side: Side, n: nat)
    requires SideOk(u, s, side, n)
    ensures n > 0 ==> s.slots.Of(side).state != NEVER_USED
  {
  }

  /** The client's own new order is one the exchange admits. */
  lemma OwnAdmitted(u: Setup, s: System, side: Side, n: nat, k: nat, k': nat)
    requires ExchangeOk(s.exch) && IdsDiffer(s.slots) && s.slots.Of(side).state == PENDING_NEW && Real(side)
    requires SideOk(u, s, side, 0) && SideOk(u, s, Opposite(side), k) && n == 0
    requires var slot := s.slots.Of(side);
             && k' <= k
             && Held(AfterTrades(s.exch, u.ticker, u.client, slot.orderId, side, slot.price,
                 slot.qty).Queue(Opposite(side)),
                  u.client, s.slots.Of(Opposite(side)).orderId, k')
    ensures var slot := s.slots.Of(side);
            Admitted(s.exch, u.ticker, New(u.client, slot.orderId, side, slot.price, slot.qty))
  {
    var slot, other := s.slots.Of(side), s.slots.Of(Opposite(side));
    SideIds(u, s, Opposite(side), k);
    var b := AfterTrades(s.exch, u.ticker, u.client, slot.orderId, side, slot.price, slot.qty);
    TradesKeep(s.exch, u.ticker, u.client, slot.orderId, side, slot.price, slot.qty);
    SideHolds(u, s, side, 0);
    hide SideOk, Lane, AfterTrades, ExchangeOk, Held;
    NotThere(b.Queue(side), u.client, slot.orderId, 0, slot.orderId);
    NotThere(b.Queue(Opposite(side)), u.client, other.orderId, k', slot.orderId);
  }

  lemma {:induction false} ChainFalls(rs: seq<Response>, n: nat, m: nat)
    requires Chain(rs, n, m)
    ensures m <= n
  {
    if rs != [] {
      ChainFalls(rs[1..], rs[0].leavesQty, m);
    }
  }

  lemma {:induction false} OpenedSide(u: Setup, s: System, i: nat, side: Side, n: nat, r: Result, n': nat)
    requires SideOk(u, s, side, n) && i < |s.reqs| && s.reqs[i].New? && s.reqs[i].side == side
    requires Accepts(For(r.responses, u.client, side), s.slots.Of(side).qty, n')
    requires Held(r.next.book.Queue(side), u.client, s.slots.Of(side).orderId, n')
    ensures SideOk(u, s.(reqs := RemoveAt(s.reqs, i), resps := s.resps + r.responses, exch := r.next), side, n')
  {
    var slot, f := s.slots.Of(side), For(r.responses, u.client, side);
    hide Lane, Held, CancelSent, News, For, Accepts;
    NewsTaken(s.reqs, i, side);
    SentTaken(s.reqs, i, u.client, slot);
    ForConcat(s.resps, r.responses, u.client, side);
    LaneOpened(slot, side, u.client, s.reqs[i], News(s.reqs, side), News(RemoveAt(s.reqs, i), side),
               For(s.resps, u.client, side), n,
               CancelSent(s.reqs, u.client, slot), f, n', CancelSent(RemoveAt(s.reqs, i), u.client, slot));
  }

  lemma {:induction false} OpeningSide(u: Setup, s: System, i: nat, side: Side, n: nat)
    requires SideOk(u, s, side, n) && i < |s.reqs| && s.reqs[i].New? && s.reqs[i].side == side
    ensures var slot := s.slots.Of(side);
            n == 0 && slot.state == PENDING_NEW && s.reqs[i] == New(u.client, slot.orderId, side, slot.price, slot.qty)
  {
    NewsTaken(s.reqs, i, side);
  }

  lemma ServeNewKeeps(u: Setup, s: System, i: nat, side: Side, bid: nat, ask: nat)
    returns (bid': nat, ask': nat)
    requires LoopOk(u, s, bid, ask) && i < |s.reqs| && s.reqs[i].New? && s.reqs[i].side == side
    ensures LoopOk(u, Next(u, s, Serve(i)), bid', ask')
  {
    hide Held, ExchangeOk, Sendable, CancelSent, News, For, ReqsOk, Chain, SideOk, AddOrder, Accepts, Lane, AfterTrades;
    var c, opp, req, slot := u.client, Opposite(side), s.reqs[i], s.slots.Of(side);
    ReqsTaken(c, s.slots.nextOrderId, s.reqs, i);
    var n, k := if side == BUY then bid else ask, if side == BUY then ask else bid;
    OpeningSide(u, s, i, side, n);
    SideHolds(u, s, side, n);
    SideHolds(u, s, opp, k);
    var n', k' := OwnNewServed(s.exch, u.ticker, c, slot.orderId, side, slot.price, slot.qty, s.slots.Of(opp).orderId,
        k);
    var res := Process(s.exch, u.ticker, req);
    ChainFalls(For(res.responses, c, opp), k, k');
    AfterIs(s.exch, u.ticker, c, slot.orderId, side, slot.price, slot.qty);
    OwnAdmitted(u, s, side, n, k, k');
    ProcessKeeps(s.exch, u.ticker, req);
    OpenedSide(u, s, i, side, n, res, n');
    var s1 := s.(reqs := RemoveAt(s.reqs, i));
    SidePassedOver(u, s, opp, k, i);
    SideFilled(u, s1, opp, k, res, k', For(res.responses, c, opp));
    SendableConcat(s.resps, res.responses);
    bid', ask' := if side == BUY then n' else k', if side == BUY then k' else n';
  }

  /** The opposite side after a new order is what it is after its trades. */
  lemma AfterIs(m: Exchange, t: nat, c: nat, oid: nat, side: Side, price: int, qty: nat)
    requires Real(side)
    ensures AddOrder(m, t, c, oid, side, price, qty).next.book.Queue(Opposite(side)) ==
            AfterTrades(m, t, c, oid, side, price, qty).Queue(Opposite(side))
  {
  }

  lemma {:induction false} CancelledSide(u: Setup, s: System, i: nat, side: Side, n: nat, r: Result, hit: bool,
        n': nat)
    requires SideOk(u, s, side, n) && i < |s.reqs| && s.reqs[i].Cancel?
    requires CancelEffect(hit, For(r.responses, u.client, side), n, n')
    requires Held(r.next.book.Queue(side), u.client, s.slots.Of(side).orderId, n')
    requires hit ==> s.reqs[i] == Cancel(u.client, s.slots.Of(side).orderId)
    requires s.reqs[i] == Cancel(u.client, s.slots.Of(side).orderId) && n > 0 ==> hit
    ensures SideOk(u, s.(reqs := RemoveAt(s.reqs, i), resps := s.resps + r.responses, exch := r.next), side, n')
  {
    var slot, f := s.slots.Of(side), For(r.responses, u.client, side);
    hide Lane, Held, CancelSent, News, For, Chain;
    var s1 := s.(reqs := RemoveAt(s.reqs, i));
    if hit {
      NewsTaken(s.reqs, i, side);
      SentTaken(s.reqs, i, u.client, slot);
      ForConcat(s.resps, r.responses, u.client, side);
      assert f == [f[0]];
      LaneCancelled(slot, side, u.client, News(s.reqs, side), For(s.resps, u.client, side), n,
                    CancelSent(s.reqs, u.client, slot), f[0], CancelSent(RemoveAt(s.reqs, i), u.client, slot));
    } else {
      SidePassedOver(u, s, side, n, i);
      ChainNone(n);
      SideFilled(u, s1, side, n, r, n, f);
    }
  }

  lemma ServeCancelKeeps(u: Setup, s: System, i: nat, bid: nat, ask: nat) returns (bid': nat, ask': nat)
    requires LoopOk(u, s, bid, ask) && i < |s.reqs| && s.reqs[i].Cancel?
    ensures LoopOk(u, Next(u, s, Serve(i)), bid', ask')
  {
    hide Held, ExchangeOk, Sendable, CancelSent, News, For, ReqsOk, SideOk, CancelOrder, CancelEffect;
    var c, x := u.client, s.reqs[i].orderId;
    ReqsTaken(c, s.slots.nextOrderId, s.reqs, i);
    SideHolds(u, s, BUY, bid);
    SideHolds(u, s, SELL, ask);
    var hitB, b' := CancelOnSide(s.exch, u.ticker, c, x, c, BUY, s.slots.bid.orderId, bid);
    var hitA, a' := CancelOnSide(s.exch, u.ticker, c, x, c, SELL, s.slots.ask.orderId, ask);
    bid', ask' := b', a';
    var res := Process(s.exch, u.ticker, s.reqs[i]);
    CancelledSide(u, s, i, BUY, bid, res, hitB, bid');
    CancelledSide(u, s, i, SELL, ask, res, hitA, ask');
    ProcessKeeps(s.exch, u.ticker, s.reqs[i]);
    SendableConcat(s.resps, res.responses);
  }

  // ----- responses -----

  /** What a slot may still add to the position. */
  function Left(s: Slot): nat {
    if s.state == NEVER_USED || s.state == DEAD then 0 else s.qty
  }

  /** The first response under way moves the slot along, and takes from what it may still add exactly what it fills. */
  lemma {:induction false} LaneReceived(s: Slot, side: Side, c: nat, news: seq<Request>, rs: seq<Response>, n: nat,
        sent: bool)
    requires Lane(s, side, c, news, rs, n, sent) && rs != []
    ensures var r := rs[0]; var s' := AfterResponse(s, r);
            && Lane(s', side, c, news, rs[1..], n, sent) && s'.orderId == s.orderId
            && s.state != NEVER_USED && s'.state != NEVER_USED
            && (if r.kind == FILLED then Left(s') + r.execQty == Left(s) else Left(s') <= Left(s))
  {
    var r := rs[0];
    if r.kind == FILLED && r.leavesQty == 0 && Chain(rs, s.qty, n) {
      ChainFromNone(rs[1..], n);
    }
    if s.state == PENDING_CANCEL && Ended(rs, s.qty) && |rs| > 1 {
      EndedTail(rs, s.qty);
    }
  }

  lemma {:induction false} EndedTail(rs: seq<Response>, q: nat)
    requires Ended(rs, q) && |rs| > 1
    ensures rs[0].kind == FILLED && rs[0].execQty + rs[0].leavesQty == q && rs[0].leavesQty > 0
              && Ended(rs[1..], rs[0].leavesQty)
  {
    assert rs[..|rs| - 1][1..] == rs[1..][..|rs| - 2];
    assert rs[..|rs| - 1][0] == rs[0];
    ChainFalls(rs[1..][..|rs| - 2], rs[0].leavesQty, rs[|rs| - 1].leavesQty);
  }

  lemma {:induction false} HeadFor(rs: seq<Response>, c: nat, side: Side)
    requires rs != []
    ensures For(rs, c, side) == (if rs[0].clientId == c && rs[0].side == side then [rs[0]] else [])
              + For(rs[1..], c, side)
    ensures !(rs[0].clientId == c && rs[0].side == side) ==> For(rs, c, side) == For(rs[1..], c, side)
    ensures rs[0].clientId == c && rs[0].side == side ==>
              For(rs, c, side) != [] && For(rs, c, side)[0] == rs[0] && For(rs, c, side)[1..] == For(rs[1..], c, side)
  {
  }

  /** A response that is not the side's leaves the side alone. */
  lemma SidePassed(u: Setup, s: System, side: Side, n: nat, slots: Slots, position: int)
    requires SideOk(u, s, side, n) && s.resps != []
    requires !(s.resps[0].clientId == u.client && s.resps[0].side == side)
    requires slots.Of(side) == s.slots.Of(side) && slots.nextOrderId == s.slots.nextOrderId
    ensures SideOk(u, s.(slots := slots, position := position, resps := s.resps[1..]), side, n)
  {
    hide Lane, Held, CancelSent, News, For;
    HeadFor(s.resps, u.client, side);
  }

  lemma SideReceived(u: Setup, s: System, side: Side, n: nat, position: int)
    requires SideOk(u, s, side, n) && s.resps != [] && s.resps[0].clientId == u.client && s.resps[0].side == side
    requires Real(side)
    ensures var slots := Respond(s.slots, s.resps[0]);
            && SideOk(u, s.(slots := slots, position := position, resps := s.resps[1..]), side, n)
            && slots.Of(Opposite(side)) == s.slots.Of(Opposite(side)) && slots.nextOrderId == s.slots.nextOrderId
            && slots.Of(side).orderId == s.slots.Of(side).orderId && s.slots.Of(side).state != NEVER_USED
            && (if s.resps[0].kind == FILLED then Left(slots.Of(side)) + s.resps[0].execQty == Left(s.slots.Of(side))
                else Left(slots.Of(side)) <= Left(s.slots.Of(side)))
  {
    hide Lane, Held, News, For, AfterResponse, Left;
    HeadFor(s.resps, u.client, side);
    var slot := s.slots.Of(side);
    LaneReceived(slot, side, u.client, News(s.reqs, side), For(s.resps, u.client, side), n,
        CancelSent(s.reqs, u.client, slot));
  }

  lemma SendableTail(rs: seq<Response>)
    requires Sendable(rs) && rs != []
    ensures Sendable(rs[1..]) && (Real(rs[0].side) || rs[0].kind == CANCEL_REJECTED)
  {
  }

  lemma ReceiveKeeps(u: Setup, s: System, bid: nat, ask: nat)
    requires LoopOk(u, s, bid, ask) && s.resps != []
    ensures LoopOk(u, Next(u, s, Receive), bid, ask)
  {
    hide SideOk, ExchangeOk, ReqsOk, Sendable, Left, AfterResponse;
    var r := s.resps[0];
    SendableTail(s.resps);
    if r.clientId != u.client || !Real(r.side) {
      SidePassed(u, s, BUY, bid, s.slots, s.position);
      SidePassed(u, s, SELL, ask, s.slots, s.position);
    } else {
      var slots, position := Respond(s.slots, r), Fill(s.position, r);
      SideReceived(u, s, r.side, if r.side == BUY then bid else ask, position);
      SidePassed(u, s, Opposite(r.side), if r.side == BUY then ask else bid, slots, position);
    }
  }

  lemma OtherTickerKeeps(u: Setup, s: System, bid: nat, ask: nat)
    requires LoopOk(u, s, bid, ask)
    ensures LoopOk(u, Next(u, s, OtherTicker), bid, ask)
  {
    hide Lane, Held, ExchangeOk, Sendable, CancelSent, News, For;
    forall i | 0 <= i < |s.reqs|
      ensures ReqOk(u.client, s.slots.nextOrderId + 1, s.reqs[i])
    {
      assert ReqOk(u.client, s.slots.nextOrderId, s.reqs[i]);
    }
  }

  // ----- every run -----

  lemma NextKeeps(u: Setup, s: System, a: Action, bid: nat, ask: nat) returns (bid': nat, ask': nat)
    requires LoopOk(u, s, bid, ask) && Enabled(u, s, a)
    ensures LoopOk(u, Next(u, s, a), bid', ask')
  {
    hide LoopOk, Admitted;
    bid', ask' := bid, ask;
    match a {
      case Strategy(side, price, clip, pnl) => StrategyKeeps(u, s, side, price, clip, pnl, bid, ask);
      case Serve(i) =>
        if s.reqs[i].New? {
          bid', ask' := ServeNewKeeps(u, s, i, s.reqs[i].side, bid, ask);
        } else {
          bid', ask' := ServeCancelKeeps(u, s, i, bid, ask);
        }
      case Others(r) => bid', ask' := OthersKeep(u, s, r, bid, ask);
      case Receive => ReceiveKeeps(u, s, bid, ask);
      case OtherTicker => OtherTickerKeeps(u, s, bid, ask);
    }
  }

  ghost predicate Possible(u: Setup, s: System, actions: seq<Action>)
    decreases |actions|
  {
    actions != [] ==> Enabled(u, s, actions[0]) && Possible(u, Next(u, s, actions[0]), actions[1..])
  }

  function Run(u: Setup, s: System, actions: seq<Action>): System
    decreases |actions|
  {
    if actions == [] then s else Run(u, Next(u, s, actions[0]), actions[1..])
  }

  lemma {:induction false} RunKeeps(u: Setup, s: System, actions: seq<Action>, bid: nat,
        ask: nat) returns (bid': nat, ask': nat)
    requires LoopOk(u, s, bid, ask) && Possible(u, s, actions)
    ensures LoopOk(u, Run(u, s, actions), bid', ask')
    decreases |actions|
  {
    hide LoopOk, Enabled, Next;
    bid', ask' := bid, ask;
    if actions != [] {
      var b, a := NextKeeps(u, s, actions[0], bid, ask);
      bid', ask' := RunKeeps(u, Next(u, s, actions[0]), actions[1..], b, a);
    }
  }

  // ----- the slot protocol -----

  /** A response after which the order is gone. */
  predicate Terminal(r: Response) {
    r.kind == CANCELED || (r.kind == FILLED && r.leavesQty == 0)
  }

  /** The order's end is under way: reported already, or to be brought about by a cancel the exchange has yet to see. */
  ghost predicate EndUnderWay(u: Setup, s: System, side: Side) {
    var rs := For(s.resps, u.client, side);
    || (exists i :: 0 <= i < |rs| && Terminal(rs[i]))
    || (Own(s.exch.book.Queue(side), u.client) != [] && CancelSent(s.reqs, u.client, s.slots.Of(side)))
  }

  /** What a slot's state says about the exchange and the channels. */
  ghost predicate SlotTrue(u: Setup, s: System, side: Side) {
    var slot, own := s.slots.Of(side), Own(s.exch.book.Queue(side), u.client);
    && |own| <= 1 && (own != [] ==> own[0].owner == Owner(u.client, slot.orderId))
    && (slot.state == NEVER_USED || slot.state == DEAD ==>
          own == [] && For(s.resps, u.client, side) == [] && News(s.reqs, side) == [])
    && (slot.state == PENDING_CANCEL ==> (slot.qty > 0 <==> EndUnderWay(u, s, side)))
  }

  lemma {:induction false} ChainEnds(rs: seq<Response>, n: nat, m: nat)
    requires Chain(rs, n, m)
    ensures m == 0 && n > 0 ==> exists i :: 0 <= i < |rs| && Terminal(rs[i])
  {
    if rs != [] && m == 0 {
      if rs[0].leavesQty == 0 {
        assert Terminal(rs[0]);
      } else {
        ChainEnds(rs[1..], rs[0].leavesQty, m);
        var i :| 0 <= i < |rs[1..]| && Terminal(rs[1..][i]);
        assert Terminal(rs[i + 1]);
      }
    }
  }

  lemma {:induction false} SideMeans(u: Setup, s: System, side: Side, n: nat)
    requires SideOk(u, s, side, n)
    ensures SlotTrue(u, s, side)
  {
    var slot, rs := s.slots.Of(side), For(s.resps, u.client, side);
    if slot.state == PENDING_CANCEL {
      if Chain(rs, slot.qty, n) {
        ChainEnds(rs, slot.qty, n);
        if slot.qty == 0 {
          ChainFromNone(rs, n);
        }
      } else {
        ChainFalls(rs[..|rs| - 1], slot.qty, rs[|rs| - 1].leavesQty);
        assert Terminal(rs[|rs| - 1]);
      }
    }
  }

  /** In every reachable state each slot tells the truth. */
  lemma {:induction false} SlotProtocol(u: Setup, actions: seq<Action>)
    requires Possible(u, START, actions)
    ensures SlotTrue(u, Run(u, START, actions), BUY) && SlotTrue(u, Run(u, START, actions), SELL)
  {
    StartOk(u);
    var bid, ask := RunKeeps(u, START, actions, 0, 0);
    var s := Run(u, START, actions);
    hide SlotTrue, SideOk, Run, Possible, ExchangeOk;
    SideMeans(u, s, BUY, bid);
    SideMeans(u, s, SELL, ask);
  }

  /** No new order under way bears the price that says that none is wanted. */
  lemma {:induction false} PricedRequests(u: Setup, actions: seq<Action>)
    requires Possible(u, START, actions)
    ensures forall r :: r in Run(u, START, actions).reqs && r.New? ==> r.price != PRICE_INVALID
  {
    StartOk(u);
    var bid, ask := RunKeeps(u, START, actions, 0, 0);
    var reqs := Run(u, START, actions).reqs;
    hide SideOk, Run, Possible, ExchangeOk;
    forall r | r in reqs && r.New?
      ensures r.price != PRICE_INVALID
    {
      var i :| 0 <= i < |reqs| && reqs[i] == r;
      assert ReqOk(u.client, Run(u, START, actions).slots.nextOrderId, reqs[i]);
    }
  }

  // ----- orders of size zero -----

  predicate Stuck(s: Slot) {
    s.state == PENDING_CANCEL && s.qty == 0
  }

  /** No response is under way for a stuck slot. */
  lemma {:induction false} StuckSilent(u: Setup, s: System, side: Side, n: nat)
    requires SideOk(u, s, side, n) && Stuck(s.slots.Of(side))
    ensures For(s.resps, u.client, side) == []
  {
    hide For, News, Ended, Chain, Held;
    NotEnded(For(s.resps, u.client, side));
    ChainFromNone(For(s.resps, u.client, side), n);
  }

  lemma StuckStep(u: Setup, s: System, a: Action, side: Side, bid: nat, ask: nat)
    requires LoopOk(u, s, bid, ask) && Enabled(u, s, a) && Real(side) && Stuck(s.slots.Of(side))
    ensures Next(u, s, a).slots.Of(side) == s.slots.Of(side)
  {
    StuckSilent(u, s, side, if side == BUY then bid else ask);
    if a.Receive? {
      HeadFor(s.resps, u.client, side);
    }
  }

  /** A slot waiting for the cancel of an order of size zero never leaves that state, whatever happens. */
  lemma {:induction false} StuckForever(u: Setup, s: System, actions: seq<Action>, side: Side, bid: nat, ask: nat)
    requires LoopOk(u, s, bid, ask) && Possible(u, s, actions) && Real(side) && Stuck(s.slots.Of(side))
    ensures Run(u, s, actions).slots.Of(side) == s.slots.Of(side)
    decreases |actions|
  {
    hide LoopOk, Enabled, Next;
    if actions != [] {
      StuckStep(u, s, actions[0], side, bid, ask);
      var b, a := NextKeeps(u, s, actions[0], bid, ask);
      StuckForever(u, Next(u, s, actions[0]), actions[1..], side, b, a);
    }
  }

  /** Such a slot is reachable: the exchange accepts an order of size zero, rests nothing, and rejects its cancel. */
  lemma ZeroClip(u: Setup) returns (actions: seq<Action>)
    requires u.cfg.maxPosition < 0x8000_0000
    ensures Possible(u, START, actions) && Stuck(Run(u, START, actions).slots.bid)
    ensures forall i :: 0 <= i < |actions| && actions[i].Strategy? ==> actions[i].clip == 0
  {
    var open, amend := Strategy(BUY, 100, 0, u.cfg.maxLoss), Strategy(BUY, 101, 0, u.cfg.maxLoss);
    var s1 := Next(u, START, open);
    var s2 := Next(u, s1, Serve(0));
    var s3 := Next(u, s2, Receive);
    assert s1.reqs == [New(u.client, 1, BUY, 100, 0)];
    assert s2.resps == [Response(ACCEPTED, u.client, u.ticker, 1, 1, BUY, 100, 0, 0)];
    assert s3.slots.bid == Slot(u.ticker, 1, BUY, 100, 0, LIVE);
    var s4 := Next(u, s3, amend);
    assert s4.slots.bid == s3.slots.bid.(state := PENDING_CANCEL);
    hide Next;
    RunFirst(u, s3, amend, []);
    RunFirst(u, s2, Receive, [amend]);
    RunFirst(u, s1, Serve(0), [Receive] + [amend]);
    RunFirst(u, START, open, [Serve(0)] + ([Receive] + [amend]));
    actions := [open] + ([Serve(0)] + ([Receive] + [amend]));
    assert [amend] + [] == [amend];
  }

  lemma {:induction false} RunFirst(u: Setup, s: System, a: Action, rest: seq<Action>)
    requires Enabled(u, s, a) && Possible(u, Next(u, s, a), rest)
    ensures Possible(u, s, [a] + rest) && Run(u, s, [a] + rest) == Run(u, Next(u, s, a), rest)
  {
  }

  predicate Sized(s: Slot) {
    s.state == NEVER_USED || s.state == DEAD || s.qty > 0
  }

  lemma MoveSized(m: Slots, c: nat, t: nat, price: int, side: Side, qty: nat, risk: RiskInfo)
    requires qty > 0 && Sized(m.bid) && Sized(m.ask)
    ensures var n := Move(m, c, t, price, side, qty, risk).next; Sized(n.bid) && Sized(n.ask)
  {
    hide RiskInfo.CheckPreTradeRisk;
  }

  /** A slot that a response is for has an order. */
  lemma SideActive(u: Setup, s: System, side: Side, n: nat)
    requires SideOk(u, s, side, n) && s.resps != [] && s.resps[0].clientId == u.client && s.resps[0].side == side
    ensures s.slots.Of(side).state != NEVER_USED && s.slots.Of(side).state != DEAD
  {
    HeadFor(s.resps, u.client, side);
  }

  lemma RespondSized(m: Slots, r: Response)
    requires Sized(m.bid) && Sized(m.ask)
    requires Real(r.side) ==> m.Of(r.side).state != NEVER_USED && m.Of(r.side).state != DEAD
    ensures Sized(Respond(m, r).bid) && Sized(Respond(m, r).ask)
  {
  }

  lemma SizedStep(u: Setup, s: System, a: Action, bid: nat, ask: nat)
    requires LoopOk(u, s, bid, ask) && Enabled(u, s, a) && (a.Strategy? ==> a.clip > 0)
    requires Sized(s.slots.bid) && Sized(s.slots.ask)
    ensures Sized(Next(u, s, a).slots.bid) && Sized(Next(u, s, a).slots.ask)
  {
    hide Sized, Move, Respond, Process, SideOk, ExchangeOk, ReqsOk, Sendable, Admitted;
    match a {
      case Strategy(side, price, clip, pnl) =>
        MoveSized(s.slots, u.client, u.ticker, price, side, clip, RiskInfo(s.position, pnl, u.cfg));
      case Receive =>
        var r := s.resps[0];
        if r.clientId == u.client {
          if Real(r.side) {
            SideActive(u, s, r.side, if r.side == BUY then bid else ask);
          }
          RespondSized(s.slots, r);
        }
      case _ =>
    }
  }

  /** A strategy that never asks for size zero always hears of the end of an order it cancels. */
  lemma {:induction false} CancelsResolve(u: Setup, s: System, actions: seq<Action>, bid: nat, ask: nat)
    requires LoopOk(u, s, bid, ask) && Possible(u, s, actions)
    requires Sized(s.slots.bid) && Sized(s.slots.ask)
    requires forall i :: 0 <= i < |actions| && actions[i].Strategy? ==> actions[i].clip > 0
    ensures var t := Run(u, s, actions);
            && (t.slots.bid.state == PENDING_CANCEL ==> EndUnderWay(u, t, BUY))
            && (t.slots.ask.state == PENDING_CANCEL ==> EndUnderWay(u, t, SELL))
    decreases |actions|
  {
    if actions == [] {
      hide SideOk;
      SideMeans(u, s, BUY, bid);
      SideMeans(u, s, SELL, ask);
    } else {
      hide LoopOk, Enabled, Next, Sized, EndUnderWay;
      SizedStep(u, s, actions[0], bid, ask);
      var b, a := NextKeeps(u, s, actions[0], bid, ask);
      CancelsResolve(u, Next(u, s, actions[0]), actions[1..], b, a);
    }
  }
}
