/** The client's order manager: one order slot per instrument and side, driven by the strategy and by responses. */
module OrderManager {
  import opened Types
  import opened Matching
  import opened MarketStream
  import opened RiskManager

  datatype SlotState = NEVER_USED | PENDING_NEW | LIVE | PENDING_CANCEL | DEAD

  datatype Slot = Slot(tickerId: nat, orderId: nat, side: Side, price: int, qty: nat, state: SlotState)

  const EMPTY_SLOT := Slot(TICKER_ID_INVALID, ORDER_ID_INVALID, INVALID_SIDE, PRICE_INVALID, QTY_INVALID, NEVER_USED)

  // ----- one instrument's two slots as a value -----

  datatype Slots = Slots(bid: Slot, ask: Slot, nextOrderId: nat) {
    function Of(side: Side): Slot {
      if side == BUY then bid else ask
    }

    function With(side: Side, s: Slot): Slots {
      if side == BUY then this.(bid := s) else if side == SELL then this.(ask := s) else this
    }
  }

  datatype Moved = Moved(next: Slots, sent: seq<Request>)

  /** Have an order at the price: cancel one at another price, or ask for a new one if there is none and risk allows. */
  function Move(m: Slots, c: nat, t: nat, price: int, side: Side, qty: nat, risk: RiskInfo): Moved {
    var s := m.Of(side);
    match s.state
    case LIVE =>
      if s.price != price then Moved(m.With(side, s.(state := PENDING_CANCEL)), [Cancel(c, s.orderId)])
      else Moved(m, [])
    case NEVER_USED => Open(m, c, t, price, side, qty, risk)
    case DEAD => Open(m, c, t, price, side, qty, risk)
    case _ => Moved(m, [])
  }

  function Open(m: Slots, c: nat, t: nat, price: int, side: Side, qty: nat, risk: RiskInfo): Moved {
    if price != PRICE_INVALID && risk.CheckPreTradeRisk(side, qty) == ALLOWED then
      Moved(m.With(side, Slot(t, m.nextOrderId, side, price, qty, PENDING_NEW)).(nextOrderId := m.nextOrderId + 1),
            [New(c, m.nextOrderId, side, price, qty)])
    else Moved(m, [])
  }

  /**
   * What a wish for an order at a price comes to. A new order is asked for exactly when the slot has none, a price is
   * wanted at all and the gate allows it; an order at another price is cancelled; and else nothing happens.
   */
  ghost predicate Wanted(s: Slot, nextId: nat, c: nat, t: nat, price: int, side: Side, qty: nat, allowed: bool,
    s': Slot, nextId': nat, sent: seq<Request>)
  {
    if (s.state == NEVER_USED || s.state == DEAD) && price != PRICE_INVALID && allowed then
      && s' == Slot(t, nextId, side, price, qty, PENDING_NEW) && nextId' == nextId + 1
      && sent == [New(c, nextId, side, price, qty)]
    else if s.state == LIVE && s.price != price then
      && s' == s.(state := PENDING_CANCEL) && nextId' == nextId && sent == [Cancel(c, s.orderId)]
    else s' == s && nextId' == nextId && sent == []
  }

  /** A bid and an ask wanted at one size: first the bid, up to the id `mid`, then the ask from there. */
  ghost predicate BothWanted(m: Slots, c: nat, t: nat, bidPrice: int, askPrice: int, clip: nat, risk: RiskInfo,
    mid: nat, bid: seq<Request>, m': Slots, ask: seq<Request>)
  {
    var bidAllowed, askAllowed :=
      risk.CheckPreTradeRisk(BUY, clip) == ALLOWED, risk.CheckPreTradeRisk(SELL, clip) == ALLOWED;
    && Wanted(m.bid, m.nextOrderId, c, t, bidPrice, BUY, clip, bidAllowed, m'.bid, mid, bid)
    && Wanted(m.ask, mid, c, t, askPrice, SELL, clip, askAllowed, m'.ask, m'.nextOrderId, ask)
  }

  lemma MoveMeans(m: Slots, c: nat, t: nat, price: int, side: Side, qty: nat, risk: RiskInfo)
    requires side == BUY || side == SELL
    ensures var r, allowed := Move(m, c, t, price, side, qty, risk), risk.CheckPreTradeRisk(side, qty) == ALLOWED;
            && Wanted(m.Of(side), m.nextOrderId, c, t, price, side, qty, allowed, r.next.Of(side), r.next.nextOrderId,
                      r.sent)
            && r.next.Of(Opposite(side)) == m.Of(Opposite(side))
  {
    hide RiskInfo.CheckPreTradeRisk;
  }

  function AfterResponse(s: Slot, r: Response): Slot {
    match r.kind
    case ACCEPTED => s.(state := LIVE)
    case CANCELED => s.(state := DEAD)
    case FILLED => s.(qty := r.leavesQty, state := if r.leavesQty == 0 then DEAD else s.state)
    case CANCEL_REJECTED => s
  }

  /** A response goes to the slot of its side; a rejected cancel carries no side and finds neither. */
  function Respond(m: Slots, r: Response): Slots {
    m.With(r.side, AfterResponse(m.Of(r.side), r))
  }

  // ----- the manager -----

  function SideToIndex(s: Side): nat {
    match s
    case SELL => 0
    case INVALID_SIDE => 1
    case BUY => 2
  }

  const NUM_SIDES := 4

  class OrderManager {
    const clientId: nat
    const tickerSideOrder: array2<Slot>
    var nextOrderId: nat

    /** The requests handed to the order gateway. */
    var sent: seq<Incoming>

    ghost predicate Valid()
      reads this
    {
      tickerSideOrder.Length0 == ME_MAX_TICKERS && tickerSideOrder.Length1 == NUM_SIDES
    }

    ghost function View(t: nat): Slots
      requires Valid() && t < ME_MAX_TICKERS
      reads this, tickerSideOrder
    {
      Slots(tickerSideOrder[t, SideToIndex(BUY)], tickerSideOrder[t, SideToIndex(SELL)], nextOrderId)
    }

    constructor (clientId: nat)
      ensures Valid() && sent == [] && this.clientId == clientId && fresh(tickerSideOrder)
      ensures forall t :: 0 <= t < ME_MAX_TICKERS ==> View(t) == Slots(EMPTY_SLOT, EMPTY_SLOT, 1)
    {
      this.clientId := clientId;
      tickerSideOrder := new Slot[ME_MAX_TICKERS, NUM_SIDES]((_, _) => EMPTY_SLOT);
      nextOrderId := 1;
      sent := [];
    }

    /** Only the slot of one instrument and side may differ from before. */
    twostate predicate OthersKept(t: nat, side: Side)
      reads this, tickerSideOrder
    {
      forall u: nat, i: nat ::
        u < tickerSideOrder.Length0 && i < tickerSideOrder.Length1 && (u != t || i != SideToIndex(side)) ==>
          tickerSideOrder[u, i] == old(tickerSideOrder[u, i])
    }

    method NewOrder(t: nat, price: int, side: Side, qty: nat)
      requires Valid() && t < ME_MAX_TICKERS
      modifies this`nextOrderId, this`sent, tickerSideOrder
      ensures tickerSideOrder[t, SideToIndex(side)] == Slot(t, old(nextOrderId), side, price, qty, PENDING_NEW)
      ensures OthersKept(t, side) && nextOrderId == old(nextOrderId) + 1
      ensures sent == old(sent) + [Incoming(t, New(clientId, old(nextOrderId), side, price, qty))]
    {
      sent := sent + [Incoming(t, New(clientId, nextOrderId, side, price, qty))];
      tickerSideOrder[t, SideToIndex(side)] := Slot(t, nextOrderId, side, price, qty, PENDING_NEW);
      nextOrderId := nextOrderId + 1;
    }

    method CancelOrder(t: nat, side: Side)
      requires Valid() && t < ME_MAX_TICKERS
      modifies this`sent, tickerSideOrder
      ensures tickerSideOrder[t, SideToIndex(side)] ==
                old(tickerSideOrder[t, SideToIndex(side)]).(state := PENDING_CANCEL)
      ensures OthersKept(t, side)
      ensures sent == old(sent) + [Incoming(t, Cancel(clientId, old(tickerSideOrder[t, SideToIndex(side)]).orderId))]
    {
      var order := tickerSideOrder[t, SideToIndex(side)];
      sent := sent + [Incoming(t, Cancel(clientId, order.orderId))];
      tickerSideOrder[t, SideToIndex(side)] := order.(state := PENDING_CANCEL);
    }

    method MoveOrder(t: nat, price: int, side: Side, qty: nat, risk: RiskInfo)
      requires Valid() && t < ME_MAX_TICKERS && (side == BUY || side == SELL)
      modifies this`nextOrderId, this`sent, tickerSideOrder
      ensures var m := Move(old(View(t)), clientId, t, price, side, qty, risk);
              View(t) == m.next && sent == old(sent) + Requests(t, m.sent)
      ensures OthersKept(t, side)
      ensures var s, i := old(tickerSideOrder[t, SideToIndex(side)]), SideToIndex(side);
              if (s.state == NEVER_USED || s.state == DEAD) && price != PRICE_INVALID
                 && risk.CheckPreTradeRisk(side, qty) == ALLOWED then
                && tickerSideOrder[t, i] == Slot(t, old(nextOrderId), side, price, qty, PENDING_NEW)
                && nextOrderId == old(nextOrderId) + 1
                && sent == old(sent) + [Incoming(t, New(clientId, old(nextOrderId), side, price, qty))]
              else if s.state == LIVE && s.price != price then
                && tickerSideOrder[t, i] == s.(state := PENDING_CANCEL) && nextOrderId == old(nextOrderId)
                && sent == old(sent) + [Incoming(t, Cancel(clientId, s.orderId))]
              else tickerSideOrder[t, i] == s && nextOrderId == old(nextOrderId) && sent == old(sent)
    {
      var order := tickerSideOrder[t, SideToIndex(side)];
      match order.state {
        case LIVE =>
          if order.price != price {
            CancelOrder(t, side);
          }
        case NEVER_USED | DEAD =>
          if price != PRICE_INVALID {
            var riskResult := risk.CheckPreTradeRisk(side, qty);
            if riskResult == ALLOWED {
              NewOrder(t, price, side, qty);
            }
          }
        case PENDING_NEW | PENDING_CANCEL =>
      }
    }

    /** Orders of one size at a bid and an ask price; the other instruments' slots stay as they are. */
    method MoveOrders(t: nat, bidPrice: int, askPrice: int, clip: nat, risk: RiskInfo)
      requires Valid() && t < ME_MAX_TICKERS
      modifies this`nextOrderId, this`sent, tickerSideOrder
      ensures var bid := Move(old(View(t)), clientId, t, bidPrice, BUY, clip, risk);
              var ask := Move(bid.next, clientId, t, askPrice, SELL, clip, risk);
              View(t) == ask.next && sent == old(sent) + Requests(t, bid.sent) + Requests(t, ask.sent)
      ensures forall u: nat :: u < ME_MAX_TICKERS && u != t ==> View(u) == old(View(u)).(nextOrderId := nextOrderId)
      ensures exists mid, bid, ask ::
                && BothWanted(old(View(t)), clientId, t, bidPrice, askPrice, clip, risk, mid, bid, View(t), ask)
                && sent == old(sent) + Requests(t, bid) + Requests(t, ask)
    {
      ghost var m := Move(View(t), clientId, t, bidPrice, BUY, clip, risk);
      MoveMeans(View(t), clientId, t, bidPrice, BUY, clip, risk);
      MoveMeans(m.next, clientId, t, askPrice, SELL, clip, risk);
      assert BothWanted(View(t), clientId, t, bidPrice, askPrice, clip, risk, m.next.nextOrderId, m.sent,
                        Move(m.next, clientId, t, askPrice, SELL, clip, risk).next,
                        Move(m.next, clientId, t, askPrice, SELL, clip, risk).sent);
      hide Move, RiskInfo.CheckPreTradeRisk, BothWanted;
      MoveOrder(t, bidPrice, BUY, clip, risk);
      MoveOrder(t, askPrice, SELL, clip, risk);
    }

    method OnOrderUpdate(r: Response)
      requires Valid() && r.tickerId < ME_MAX_TICKERS
      modifies tickerSideOrder
      ensures View(r.tickerId) == Respond(old(View(r.tickerId)), r)
      ensures OthersKept(r.tickerId, r.side)
      ensures var i := SideToIndex(r.side);
              var s, s' := old(tickerSideOrder[r.tickerId, i]), tickerSideOrder[r.tickerId, i];
              if r.kind == ACCEPTED then s' == s.(state := LIVE)
              else if r.kind == CANCELED || (r.kind == FILLED && r.leavesQty == 0) then
                s' == s.(state := DEAD, qty := if r.kind == FILLED then 0 else s.qty)
              else if r.kind == FILLED then s' == s.(qty := r.leavesQty) else s' == s
    {
      var i := SideToIndex(r.side);
      match r.kind {
        case ACCEPTED =>
          tickerSideOrder[r.tickerId, i] := tickerSideOrder[r.tickerId, i].(state := LIVE);
        case CANCELED =>
          tickerSideOrder[r.tickerId, i] := tickerSideOrder[r.tickerId, i].(state := DEAD);
        case FILLED =>
          tickerSideOrder[r.tickerId, i] := tickerSideOrder[r.tickerId, i].(qty := r.leavesQty);
          if tickerSideOrder[r.tickerId, i].qty == 0 {
            tickerSideOrder[r.tickerId, i] := tickerSideOrder[r.tickerId, i].(state := DEAD);
          }
        case CANCEL_REJECTED =>
      }
    }
  }

  function Requests(t: nat, rs: seq<Request>): (xs: seq<Incoming>)
    ensures |xs| == |rs| && forall i :: 0 <= i < |rs| ==> xs[i] == Incoming(t, rs[i])
  {
    seq(|rs|, i requires 0 <= i < |rs| => Incoming(t, rs[i]))
  }
}
