/** The position limit over every run of the order loop, and exactly the limits for which it holds. */
module PositionLimits {
  import opened Types
  import opened OrderQueue
  import opened Matching
  import opened Guarantees
  import opened RiskManager
  import opened OrderManager
  import opened OwnOrders
  import opened OrderLoop

  /** The position stays within the limit even if all that one side's slot may still add is filled. */
  predicate Within(u: Setup, s: System) {
    && s.position + Left(s.slots.bid) <= u.cfg.maxPosition
    && Left(s.slots.ask) - s.position <= u.cfg.maxPosition
  }

  lemma StrategyWithin(u: Setup, s: System, side: Side, price: int, clip: nat, pnl: real)
    requires Bounded(u.cfg) && Within(u, s) && Real(side)
    ensures Within(u, Next(u, s, Strategy(side, price, clip, pnl)))
  {
    GateRight(RiskInfo(s.position, pnl, u.cfg), side, clip);
    hide RiskInfo.CheckPreTradeRisk;
  }

  lemma ReceiveWithin(u: Setup, s: System, bid: nat, ask: nat)
    requires LoopOk(u, s, bid, ask) && Within(u, s) && s.resps != []
    ensures Within(u, Next(u, s, Receive))
  {
    hide SideOk, ExchangeOk, ReqsOk, Sendable, Left, AfterResponse;
    var r := s.resps[0];
    SendableTail(s.resps);
    if r.clientId == u.client && Real(r.side) {
      SideReceived(u, s, r.side, if r.side == BUY then bid else ask, Fill(s.position, r));
    }
  }

  lemma NextWithin(u: Setup, s: System, a: Action, bid: nat, ask: nat)
    requires Bounded(u.cfg) && LoopOk(u, s, bid, ask) && Within(u, s) && Enabled(u, s, a)
    ensures Within(u, Next(u, s, a))
  {
    hide LoopOk, Admitted, Process, Move, Respond, Bounded;
    match a {
      case Strategy(side, price, clip, pnl) => StrategyWithin(u, s, side, price, clip, pnl);
      case Receive => ReceiveWithin(u, s, bid, ask);
      case _ =>
    }
  }

  lemma {:induction false} RunWithin(u: Setup, s: System, actions: seq<Action>, bid: nat, ask: nat)
    requires Bounded(u.cfg) && LoopOk(u, s, bid, ask) && Within(u, s) && Possible(u, s, actions)
    ensures Within(u, Run(u, s, actions))
    decreases |actions|
  {
    hide LoopOk, Within, Enabled, Next, Bounded;
    if actions != [] {
      NextWithin(u, s, actions[0], bid, ask);
      var b, a := NextKeeps(u, s, actions[0], bid, ask);
      RunWithin(u, Next(u, s, actions[0]), actions[1..], b, a);
    }
  }

  function Executed(rs: seq<Response>): nat {
    if rs == [] then 0 else (if rs[0].kind == FILLED then rs[0].execQty else 0) + Executed(rs[1..])
  }

  function Requested(q: seq<Request>): nat {
    if q == [] then 0 else (if q[0].New? then q[0].qty else 0) + Requested(q[1..])
  }

  /**
   * What may still reach the position from one side: fills under way, what rests at the exchange, and what was asked
   * for.
   */
  function Outstanding(u: Setup, s: System, side: Side): nat {
    Executed(For(s.resps, u.client, side)) + Total(Own(s.exch.book.Queue(side), u.client))
        + Requested(News(s.reqs, side))
  }

  lemma {:induction false} ChainExecutes(rs: seq<Response>, n: nat, m: nat)
    requires Chain(rs, n, m)
    ensures Executed(rs) + m == n
  {
    if rs != [] {
      ChainExecutes(rs[1..], rs[0].leavesQty, m);
    }
  }

  lemma {:induction false} ExecutedLast(rs: seq<Response>, r: Response)
    requires r.kind != FILLED
    ensures Executed(rs + [r]) == Executed(rs)
  {
    if rs == [] {
      assert rs + [r] == [r] && [r][1..] == [];
    } else {
      assert (rs + [r])[1..] == rs[1..] + [r];
      ExecutedLast(rs[1..], r);
    }
  }

  lemma {:induction false} LaneBounds(s: Slot, side: Side, c: nat, news: seq<Request>, rs: seq<Response>, n: nat,
        sent: bool)
    requires Lane(s, side, c, news, rs, n, sent)
    ensures Executed(rs) + n + Requested(news) <= Left(s)
  {
    if s.state == PENDING_NEW {
      if news == [] {
        ChainExecutes(rs[1..], s.qty, n);
      } else {
        assert news[1..] == [];
      }
    } else if s.state == LIVE || s.state == PENDING_CANCEL {
      if Chain(rs, s.qty, n) {
        ChainExecutes(rs, s.qty, n);
      } else {
        var last := rs[|rs| - 1];
        ChainExecutes(rs[..|rs| - 1], s.qty, last.leavesQty);
        assert rs == rs[..|rs| - 1] + [last];
        ExecutedLast(rs[..|rs| - 1], last);
      }
    }
  }

  lemma {:induction false} OutstandingBounded(u: Setup, s: System, side: Side, n: nat)
    requires SideOk(u, s, side, n)
    ensures Outstanding(u, s, side) <= Left(s.slots.Of(side))
  {
    var slot, own := s.slots.Of(side), Own(s.exch.book.Queue(side), u.client);
    LaneBounds(slot, side, u.client, News(s.reqs, side), For(s.resps, u.client, side), n,
        CancelSent(s.reqs, u.client, slot));
    hide Lane;
    HeldTotal(s.exch.book.Queue(side), u.client, slot.orderId, n);
  }

  lemma {:induction false} HeldTotal(q: seq<Order>, c: nat, oid: nat, n: nat)
    requires Held(q, c, oid, n)
    ensures Total(Own(q, c)) == n
  {
  }

  /** The position is within its limit, and so it stays if everything outstanding on one side is filled. */
  ghost predicate LimitKept(u: Setup, s: System) {
    && s.position + Outstanding(u, s, BUY) <= u.cfg.maxPosition
    && Outstanding(u, s, SELL) - s.position <= u.cfg.maxPosition
    && Abs(s.position) <= u.cfg.maxPosition
  }

  /** With bounded limits, every reachable state keeps the limit. */
  lemma {:induction false} PositionLimit(u: Setup, actions: seq<Action>)
    requires Bounded(u.cfg) && Possible(u, START, actions)
    ensures LimitKept(u, Run(u, START, actions))
  {
    StartOk(u);
    RunWithin(u, START, actions, 0, 0);
    var bid, ask := RunKeeps(u, START, actions, 0, 0);
    var s := Run(u, START, actions);
    OutstandingBounded(u, s, BUY, bid);
    OutstandingBounded(u, s, SELL, ask);
    hide SideOk, Outstanding, Run, Possible, ExchangeOk;
  }

  // ----- beyond the bound -----

  /** No order anywhere: the client may have bought before, but its slots are free and the exchange is empty. */
  predicate Quiet(s: System, position: nat) {
    && (s.slots.bid.state == NEVER_USED || s.slots.bid.state == DEAD) && s.slots.ask.state == NEVER_USED
    && s.position == position && s.reqs == [] && s.resps == [] && s.exch.book == EMPTY_BOOK
  }

  /** The client asks to buy, and is bought from at once. */
  function Round(u: Setup, qty: nat): seq<Action> {
    [Strategy(BUY, 100, qty, u.cfg.maxLoss)] + ([Serve(0)] + ([Others(New(u.client + 1, 0, SELL, 100, qty))]
    + ([Receive] + ([Receive] + ([Receive] + [Receive])))))
  }

  lemma {:induction false} RunConcat(u: Setup, s: System, a: seq<Action>, b: seq<Action>)
    requires Possible(u, s, a) && Possible(u, Run(u, s, a), b)
    ensures Possible(u, s, a + b) && Run(u, s, a + b) == Run(u, Run(u, s, a), b)
    decreases |a|
  {
    if a == [] {
      assert a + b == b;
    } else {
      assert (a + b)[1..] == a[1..] + b;
      RunConcat(u, Next(u, s, a[0]), a[1..], b);
    }
  }

  /** The client's order of a round, on its way. */
  lemma RoundAsked(u: Setup, s: System, position: nat, qty: nat)
    requires Quiet(s, position) && 0 < qty <= u.cfg.maxOrderSize && position + qty <= u.cfg.maxPosition < 0x8000_0000
    ensures Next(u, s, Strategy(BUY, 100, qty, u.cfg.maxLoss)) ==
            s.(slots := Slots(Slot(u.ticker, s.slots.nextOrderId, BUY, 100, qty, PENDING_NEW), s.slots.ask,
                s.slots.nextOrderId + 1),
               reqs := [New(u.client, s.slots.nextOrderId, BUY, 100, qty)])
  {
  }

  /** A buy order finds an empty book and rests. */
  lemma RestsAlone(m: Exchange, t: nat, c: nat, oid: nat, price: int, qty: nat)
    requires m.book == EMPTY_BOOK && qty > 0
    ensures var r, o := AddOrder(m, t, c, oid, BUY, price, qty), Order(Owner(c, oid), m.nextId, BUY, price, qty, 1);
            && r.next == Exchange(Book([o], []), m.nextId + 1)
            && r.responses == [Response(ACCEPTED, c, t, oid, m.nextId, BUY, price, 0, qty)]
  {
  }

  /** A sell order takes all of the only bid. */
  lemma TakesAll(m: Exchange, t: nat, d: nat, oid: nat, o: Order)
    requires m.book == Book([o], []) && o.side == BUY && o.qty > 0
    ensures var r, a := AddOrder(m, t, d, oid, SELL, o.price, o.qty), IncomingOf(m, d, oid, SELL, o.price);
            && r.next == Exchange(EMPTY_BOOK, m.nextId + 1)
            && r.responses == [Response(ACCEPTED, d, t, oid, m.nextId, SELL, o.price, 0, o.qty),
                               AggressorFill(t, a, o, o.qty, 0), PassiveFill(t, o, o.qty, 0)]
            && MatchNew(m, t, d, oid, SELL, o.price, o.qty).leaves == 0
  {
    var q, a := m.book.bids, IncomingOf(m, d, oid, SELL, o.price);
    MatchFirst(t, a, q, o.qty);
    assert q[1..] == [];
  }

  /** Both acceptances and both fills arrive; two of the four are the client's. */
  lemma {:induction false} FourReceived(u: Setup, s: System, accepted: Response, other: Response, theirs: Response,
        fill: Response)
    requires s.resps == [accepted, other, theirs, fill] && s.slots.bid.state == PENDING_NEW
    requires accepted.kind == ACCEPTED && accepted.clientId == u.client && accepted.side == BUY
    requires other.clientId != u.client && theirs.clientId != u.client
    requires fill.kind == FILLED && fill.clientId == u.client && fill.side == BUY && fill.leavesQty == 0
    ensures var rest := [Receive] + ([Receive] + ([Receive] + [Receive]));
            && Possible(u, s, rest)
            && Run(u, s, rest) ==
               s.(slots := s.slots.(bid := s.slots.bid.(state := DEAD, qty := 0)),
                  position := s.position + fill.execQty, resps := [])
  {
    var s2 := Next(u, s, Receive);
    assert s2.slots.bid == s.slots.bid.(state := LIVE) && s2.resps == [other, theirs, fill];
    var s3 := Next(u, s2, Receive);
    var s4 := Next(u, s3, Receive);
    assert s4.resps == [fill];
    var s5 := Next(u, s4, Receive);
    assert s5.resps == [];
    hide Next;
    RunFirst(u, s4, Receive, []);
    RunFirst(u, s3, Receive, [Receive]);
    RunFirst(u, s2, Receive, [Receive] + [Receive]);
    RunFirst(u, s, Receive, [Receive] + ([Receive] + [Receive]));
    assert [Receive] + [] == [Receive];
  }

  /** The other client's order and what it sets off. */
  lemma {:induction false} RoundTraded(u: Setup, s: System, m: Exchange, oid: nat, qty: nat)
    requires s.slots.bid.state == PENDING_NEW && s.reqs == [] && qty > 0
    requires var o := Order(Owner(u.client, oid), m.nextId, BUY, 100, qty, 1);
               s.exch == Exchange(Book([o], []), m.nextId + 1)
    requires s.resps == [Response(ACCEPTED, u.client, u.ticker, oid, m.nextId, BUY, 100, 0, qty)]
    ensures var rest := [Others(New(u.client + 1, 0, SELL, 100, qty))]
              + ([Receive] + ([Receive] + ([Receive] + [Receive])));
            && Possible(u, s, rest)
            && Run(u, s, rest) ==
               s.(slots := s.slots.(bid := s.slots.bid.(state := DEAD, qty := 0)), position := s.position + qty,
                  resps := [], exch := Exchange(EMPTY_BOOK, m.nextId + 2))
  {
    var sell, o := New(u.client + 1, 0, SELL, 100, qty), s.exch.book.bids[0];
    TakesAll(s.exch, u.ticker, u.client + 1, 0, o);
    var s1, rs := Next(u, s, Others(sell)), AddOrder(s.exch, u.ticker, u.client + 1, 0, SELL, 100, qty).responses;
    assert s1.resps == [s.resps[0], rs[0], rs[1], rs[2]];
    hide AddOrder, Possible, Run;
    FourReceived(u, s1, s.resps[0], rs[0], rs[1], rs[2]);
    RunFirst(u, s, Others(sell), [Receive] + ([Receive] + ([Receive] + [Receive])));
  }

  lemma RoundServed(u: Setup, s: System, oid: nat, qty: nat)
    requires s.reqs == [New(u.client, oid, BUY, 100, qty)] && s.resps == [] && s.exch.book == EMPTY_BOOK && qty > 0
    ensures var m := s.exch;
            Next(u, s, Serve(0)) ==
            s.(reqs := [], resps := [Response(ACCEPTED, u.client, u.ticker, oid, m.nextId, BUY, 100, 0, qty)],
               exch := Exchange(Book([Order(Owner(u.client, oid), m.nextId, BUY, 100, qty, 1)], []), m.nextId + 1))
  {
    RestsAlone(s.exch, u.ticker, u.client, oid, 100, qty);
    hide AddOrder;
  }

  lemma {:induction false} RoundDone(u: Setup, s: System, position: nat, qty: nat)
    requires Quiet(s, position) && 0 < qty <= u.cfg.maxOrderSize && position + qty <= u.cfg.maxPosition < 0x8000_0000
    ensures Possible(u, s, Round(u, qty)) && Quiet(Run(u, s, Round(u, qty)), position + qty)
  {
    hide Next, Possible, Run;
    var ask, oid := Strategy(BUY, 100, qty, u.cfg.maxLoss), s.slots.nextOrderId;
    var rest := [Others(New(u.client + 1, 0, SELL, 100, qty))] + ([Receive] + ([Receive] + ([Receive] + [Receive])));
    RoundAsked(u, s, position, qty);
    var s1 := Next(u, s, ask);
    RoundServed(u, s1, oid, qty);
    var s2 := Next(u, s1, Serve(0));
    RoundTraded(u, s2, s.exch, oid, qty);
    RunFirst(u, s1, Serve(0), rest);
    RunFirst(u, s, ask, [Serve(0)] + rest);
  }

  /** By rounds of at most the order size limit, any position up to the limit can be reached. */
  lemma {:induction false} Reachable(u: Setup, s: System, position: nat, goal: nat) returns (actions: seq<Action>)
    requires Quiet(s, position) && position <= goal <= u.cfg.maxPosition < 0x8000_0000
    requires u.cfg.maxOrderSize > 0
    ensures Possible(u, s, actions) && Quiet(Run(u, s, actions), goal)
    decreases goal - position
  {
    actions := [];
    if position < goal {
      var qty := Min(goal - position, u.cfg.maxOrderSize);
      RoundDone(u, s, position, qty);
      var later := Reachable(u, Run(u, s, Round(u, qty)), position + qty, goal);
      RunConcat(u, s, Round(u, qty), later);
      actions := Round(u, qty) + later;
    }
  }

  /** Limits beyond the bound can be broken: buy up to 2^31 less an order's size, then ask for that size. */
  lemma {:induction false} LimitBroken(u: Setup) returns (actions: seq<Action>)
    requires u.cfg.maxPosition < 0x8000_0000 && !Bounded(u.cfg)
    ensures Possible(u, START, actions) && !LimitKept(u, Run(u, START, actions))
  {
    var qty := Min(u.cfg.maxOrderSize, 0x8000_0000);
    var build := Reachable(u, START, 0, 0x8000_0000 - qty);
    var s, ask := Run(u, START, build), Strategy(BUY, 100, qty, u.cfg.maxLoss);
    LastAsked(u, s, qty);
    hide Next, Possible, Run, LimitKept, Quiet;
    RunFirst(u, s, ask, []);
    RunConcat(u, START, build, [ask]);
    assert [ask] + [] == [ask];
    actions := build + [ask];
  }

  lemma {:induction false} LastAsked(u: Setup, s: System, qty: nat)
    requires u.cfg.maxPosition < 0x8000_0000 && 0 < qty <= u.cfg.maxOrderSize && qty <= 0x8000_0000
    requires Quiet(s, 0x8000_0000 - qty)
    ensures var ask := Strategy(BUY, 100, qty, u.cfg.maxLoss);
            Enabled(u, s, ask) && Possible(u, Next(u, s, ask), []) && !LimitKept(u, Run(u, Next(u, s, ask), []))
  {
    var ask := Strategy(BUY, 100, qty, u.cfg.maxLoss);
    var r := New(u.client, s.slots.nextOrderId, BUY, 100, qty);
    var t := Next(u, s, ask);
    assert t.reqs == [r];
    NewsOne(r, BUY);
    assert [r][1..] == [];
    assert Requested(News(t.reqs, BUY)) == qty;
  }

  /** Below 2^31, the position limit holds in every reachable state exactly for bounded limits. */
  lemma {:induction false} LimitExact(u: Setup)
    requires u.cfg.maxPosition < 0x8000_0000
    ensures Bounded(u.cfg) <==> forall actions :: Possible(u, START, actions) ==> LimitKept(u, Run(u, START, actions))
  {
    hide LimitKept, Possible, Run;
    if Bounded(u.cfg) {
      forall actions | Possible(u, START, actions)
        ensures LimitKept(u, Run(u, START, actions))
      {
        PositionLimit(u, actions);
      }
    } else {
      var actions := LimitBroken(u);
    }
  }
}
