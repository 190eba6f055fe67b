/** Position and profit of one instrument, fill by fill, in exact arithmetic. */
module PositionKeeper {
  import opened Types
  import opened RiskManager
  import opened TopOfBook

  datatype Fill = Fill(side: Side, qty: nat, price: int)

  function PositionOf(fs: seq<Fill>): int {
    if fs == [] then 0 else PositionOf(fs[..|fs| - 1]) + Signed(fs[|fs| - 1].side, fs[|fs| - 1].qty)
  }

  /** What all fills together are worth at a price: each signed quantity times its distance from the fill's price. */
  function Worth(fs: seq<Fill>, price: real): real {
    if fs == [] then 0.0
    else
      var f := fs[|fs| - 1];
      Worth(fs[..|fs| - 1], price) + Signed(f.side, f.qty) as real * (price - f.price as real)
  }

  /** What the fills earned or cost. */
  function Cash(fs: seq<Fill>): real {
    if fs == [] then 0.0
    else
      var f := fs[|fs| - 1];
      Cash(fs[..|fs| - 1]) - Signed(f.side, f.qty) as real * f.price as real
  }

  lemma {:induction false} WorthIs(fs: seq<Fill>, price: real)
    ensures Worth(fs, price) == PositionOf(fs) as real * price + Cash(fs)
  {
    if fs != [] {
      WorthIs(fs[..|fs| - 1], price);
      var f, p := fs[|fs| - 1], PositionOf(fs[..|fs| - 1]);
      Distribute(p as real, Signed(f.side, f.qty) as real, price, f.price as real);
    }
  }

  lemma Distribute(p: real, q: real, price: real, paid: real)
    ensures p * price + q * (price - paid) == (p + q) * price - q * paid
  {
  }

  lemma {:induction false} AfterFill(fs: seq<Fill>, f: Fill)
    ensures PositionOf(fs + [f]) == PositionOf(fs) + Signed(f.side, f.qty)
    ensures Cash(fs + [f]) == Cash(fs) - Signed(f.side, f.qty) as real * f.price as real
  {
  }

  lemma Scaled(v: real, n: real, k: real)
    requires n != 0.0
    ensures v / n * n == v
    ensures v / n * k + v / n * (n - k) == v
  {
  }

  // ----- what a fill does to an average position -----

  /** The average price a position was entered at, given what its side cost; zero for no position. */
  function Average(position: int, cost: real): real {
    if position == 0 then 0.0 else cost / Abs(position) as real
  }

  /** What one unit earns, entered at one price and closed at another: a long one by a rise, a short one by a fall. */
  function Gain(position: int, entered: real, closed: real): real {
    if position > 0 then closed - entered else entered - closed
  }

  datatype Holding = Holding(position: int, average: real, earned: real)

  /**
   * A fill that opens or adds to a position earns nothing and enters the average with its weight; one that takes from
   * it earns, on what it closes, the gain over the average; what then remains keeps the average, and a position of the
   * other sign starts at the fill's price.
   */
  ghost predicate Booked(h: Holding, f: Fill, h': Holding) {
    var closed := if f.qty < Abs(h.position) then f.qty else Abs(h.position);
    && h'.position == h.position + Signed(f.side, f.qty)
    && if Signed(f.side, h.position) >= 0 then
         && h'.earned == h.earned
         && h'.average * Abs(h'.position) as real ==
              h.average * Abs(h.position) as real + f.price as real * f.qty as real
       else
         && h'.earned == h.earned + closed as real * Gain(h.position, h.average, f.price as real)
         && (h'.position != 0 ==>
               h'.average == if f.qty < Abs(h.position) then h.average else f.price as real)
  }

  lemma Quotient(x: real, n: real)
    requires n != 0.0
    ensures x * n / n == x && x / n * n == x
  {
  }

  lemma AverageOf(position: int, cost: real)
    requires position != 0
    ensures Average(position, cost) == cost / Abs(position) as real
  {
  }

  lemma AverageIs(position: int, k: real, a: real)
    requires k == Abs(position) as real
    ensures Average(position, a * k) == if position == 0 then 0.0 else a
  {
    if position != 0 {
      Quotient(a, k);
    }
  }

  lemma GainIs(side: Side, position: int, k: real, a: real, p: real)
    requires (side == BUY || side == SELL) && Signed(side, position) < 0
    ensures k * (a - p) * Signed(side, 1) as real == k * Gain(position, a, p)
  {
  }

  /** The average price of an open position, from its cost. */
  lemma Averaged(position: int, cost: real)
    requires position == 0 ==> cost == 0.0
    ensures Average(position, cost) * Abs(position) as real == cost
  {
    if position != 0 {
      Quotient(cost, Abs(position) as real);
    }
  }

  class PositionInfo {
    var position: int
    var realPnL: real
    var unrealPnL: real
    var totalPnL: real
    var openBuy: real
    var openSell: real
    var volume: nat

    /** Every fill so far. */
    ghost var fills: seq<Fill>

    /** The open cost is that of the open side, and with the realised profit it accounts for the cash. */
    ghost predicate Valid()
      reads this
    {
      && position == PositionOf(fills)
      && (position <= 0 ==> openBuy == 0.0) && (position >= 0 ==> openSell == 0.0)
      && realPnL - openBuy + openSell == Cash(fills)
    }

    constructor ()
      ensures Valid() && fills == [] && totalPnL == 0.0 && volume == 0
    {
      position, volume := 0, 0;
      realPnL, unrealPnL, totalPnL := 0.0, 0.0, 0.0;
      openBuy, openSell := 0.0, 0.0;
      fills := [];
    }

    function OpenVWAP(side: Side): real
      reads this
    {
      if side == BUY then openBuy else openSell
    }

    method SetOpenVWAP(side: Side, v: real)
      modifies this`openBuy, this`openSell
      ensures if side == BUY then openBuy == v && openSell == old(openSell)
              else openSell == v && openBuy == old(openBuy)
    {
      if side == BUY {
        openBuy := v;
      } else {
        openSell := v;
      }
    }

    /** Position, average entry price and realised profit. */
    ghost function Held(): Holding
      reads this
    {
      Holding(position, Average(position, if position > 0 then openBuy else openSell), realPnL)
    }

    /** Value the open position at a price, by what each unit would earn over its average entry price. */
    method MarkTo(price: real)
      requires Valid() && position != 0
      modifies this`unrealPnL
      ensures unrealPnL + realPnL == Worth(fills, price)
      ensures unrealPnL == Gain(position, Held().average, price) * Abs(position) as real
    {
      var n := Abs(position) as real;
      if position > 0 {
        unrealPnL := (price - openBuy / n) * n;
        Scaled(openBuy, n, n);
        Minus(price, openBuy / n, n);
      } else {
        unrealPnL := (openSell / n - price) * n;
        Scaled(openSell, n, n);
        Minus(openSell / n, price, n);
      }
      WorthIs(fills, price);
    }

    /** The part of a fill that takes from an open position, or more than takes all of it. */
    method Decrease(side: Side, qty: nat, price: int, oldPosition: int)
      requires side == BUY || side == SELL
      requires Signed(side, oldPosition) < 0 && position == oldPosition + Signed(side, qty)
      requires (oldPosition < 0 ==> openBuy == 0.0) && (oldPosition > 0 ==> openSell == 0.0)
      modifies this`openBuy, this`openSell, this`realPnL
      ensures (position < 0 ==> openBuy == 0.0) && (position > 0 ==> openSell == 0.0)
      ensures position == 0 ==> openBuy == 0.0 && openSell == 0.0
      ensures realPnL - openBuy + openSell ==
                old(realPnL - openBuy + openSell) - Signed(side, qty) as real * price as real
      ensures var was := Holding(oldPosition, Average(oldPosition, old(OpenVWAP(Opposite(side)))), old(realPnL));
              Booked(was, Fill(side, qty, price), Held())
    {
      hide Booked, Average;
      var opp := Opposite(side);
      var n, k, v, p := Abs(oldPosition) as real, Abs(position) as real, OpenVWAP(opp), price as real;
      var oppSideVwap := v / n;
      SetOpenVWAP(opp, oppSideVwap * k);
      var closed := if qty < Abs(oldPosition) then qty else Abs(oldPosition);
      realPnL := realPnL + closed as real * (oppSideVwap - p) * Signed(side, 1) as real;
      if position * oldPosition < 0 {
        SetOpenVWAP(side, p * k);
        SetOpenVWAP(opp, 0.0);
      }
      Closing(v, n, closed as real, p);
      Against(side, qty, oldPosition);
      AverageOf(oldPosition, v);
      AverageIs(position, k, oppSideVwap);
      AverageIs(position, k, p);
      Taken(Holding(oldPosition, oppSideVwap, old(realPnL)), Fill(side, qty, price), Held(), closed);
    }

    /** Process an execution. */
    method AddFill(r: Response)
      requires Valid() && (r.side == BUY || r.side == SELL)
      modifies this
      ensures Valid() && fills == old(fills) + [Fill(r.side, r.execQty, r.price)]
      ensures totalPnL == Worth(fills, r.price as real)
      ensures Booked(old(Held()), Fill(r.side, r.execQty, r.price), Held())
      ensures unrealPnL == Gain(position, Held().average, r.price as real) * Abs(position) as real
      ensures volume == (old(volume) + r.execQty) % QTY_RANGE
    {
      hide Worth, Cash, PositionOf, Booked, Average;
      var price := r.price as real;
      volume := (volume + r.execQty) % QTY_RANGE;
      Take(r.side, r.execQty, r.price);
      if position == 0 {
        openBuy, openSell := 0.0, 0.0;
        unrealPnL := 0.0;
        WorthIs(fills, price);
      } else {
        MarkTo(price);
      }
      totalPnL := unrealPnL + realPnL;
    }

    /** Position, open cost and realised profit after a fill. */
    method Take(side: Side, qty: nat, price: int)
      requires Valid() && (side == BUY || side == SELL)
      modifies this`position, this`openBuy, this`openSell, this`realPnL, this`fills
      ensures Valid() && fills == old(fills) + [Fill(side, qty, price)]
      ensures Booked(old(Held()), Fill(side, qty, price), Held())
    {
      hide PositionOf, Cash, Worth, Booked, Average;
      AverageNone(openBuy);
      AverageNone(openSell);
      var oldPosition := position;
      position := position + Signed(side, qty);
      if Signed(side, oldPosition) >= 0 {
        Increase(side, qty, price, oldPosition);
      } else {
        Decrease(side, qty, price, oldPosition);
      }
      AfterFill(fills, Fill(side, qty, price));
      fills := fills + [Fill(side, qty, price)];
    }

    /** A fill that opens a position or adds to it. */
    method Increase(side: Side, qty: nat, price: int, oldPosition: int)
      requires side == BUY || side == SELL
      requires Signed(side, oldPosition) >= 0 && position == oldPosition + Signed(side, qty)
      requires oldPosition == 0 ==> openBuy == 0.0 && openSell == 0.0
      modifies this`openBuy, this`openSell
      ensures if side == BUY then openSell == old(openSell) else openBuy == old(openBuy)
      ensures qty == 0 ==> openBuy == old(openBuy) && openSell == old(openSell)
      ensures openSell - openBuy == old(openSell - openBuy) - Signed(side, qty) as real * price as real
      ensures var was := Holding(oldPosition, Average(oldPosition, old(OpenVWAP(side))), realPnL);
              Booked(was, Fill(side, qty, price), Held())
    {
      hide Booked, Average;
      Averaged(oldPosition, OpenVWAP(side));
      SetOpenVWAP(side, OpenVWAP(side) + price as real * qty as real);
      Averaged(position, OpenVWAP(side));
      ghost var was := Holding(oldPosition, Average(oldPosition, old(OpenVWAP(side))), realPnL);
      AverageNone(OpenVWAP(side));
      Added(was, Fill(side, qty, price), Held());
    }

    /** Revalue an open position at the middle of the best prices, when both are known. */
    method UpdateBBO(bbo: BBO)
      requires Valid()
      modifies this`unrealPnL, this`totalPnL
      ensures Valid()
      ensures if position != 0 && bbo.bid.price != PRICE_INVALID && bbo.ask.price != PRICE_INVALID
              then
                var middle := (bbo.bid.price + bbo.ask.price) as real * 0.5;
                && totalPnL == Worth(fills, middle)
                && unrealPnL == Gain(position, Held().average, middle) * Abs(position) as real
              else totalPnL == old(totalPnL) && unrealPnL == old(unrealPnL)
    {
      if position != 0 && bbo.bid.price != PRICE_INVALID && bbo.ask.price != PRICE_INVALID {
        var midPrice := (bbo.bid.price + bbo.ask.price) as real * 0.5;
        MarkTo(midPrice);
        totalPnL := unrealPnL + realPnL;
      }
    }
  }

  /** The sign and size of a position after a fill against it. */
  lemma Against(side: Side, qty: nat, was: int)
    requires (side == BUY || side == SELL) && Signed(side, was) < 0
    ensures var now := was + Signed(side, qty);
            && (now * was < 0 <==> qty > Abs(was)) && (now == 0 <==> qty == Abs(was))
            && Abs(now) == (if qty < Abs(was) then Abs(was) - qty else qty - Abs(was))
            && (now != 0 ==> (now > 0 <==> if qty < Abs(was) then was > 0 else was < 0))
  {
    var now := was + Signed(side, qty);
    if was > 0 {
      assert now == was - qty;
    } else {
      assert now == was + qty;
    }
  }

  lemma AverageNone(cost: real)
    ensures Average(0, cost) == 0.0
  {
  }

  /** Opening a position, or adding to it. */
  lemma Added(h: Holding, f: Fill, h': Holding)
    requires (f.side == BUY || f.side == SELL) && Signed(f.side, h.position) >= 0
    requires h'.position == h.position + Signed(f.side, f.qty) && h'.earned == h.earned
    requires h'.average * Abs(h'.position) as real ==
               h.average * Abs(h.position) as real + f.price as real * f.qty as real
    ensures Booked(h, f, h')
  {
  }

  /** Closing part of a position, or all of it and opening the other way. */
  lemma Taken(h: Holding, f: Fill, h': Holding, closed: nat)
    requires (f.side == BUY || f.side == SELL) && Signed(f.side, h.position) < 0
    requires h'.position == h.position + Signed(f.side, f.qty)
    requires closed == if f.qty < Abs(h.position) then f.qty else Abs(h.position)
    requires h'.earned == h.earned + closed as real * (h.average - f.price as real) * Signed(f.side, 1) as real
    requires f.qty < Abs(h.position) ==> h'.average == h.average
    requires f.qty > Abs(h.position) ==> h'.average == f.price as real
    ensures Booked(h, f, h')
  {
    hide Gain, Abs;
    Against(f.side, f.qty, h.position);
    GainIs(f.side, h.position, closed as real, h.average, f.price as real);
  }

  lemma Minus(a: real, b: real, n: real)
    ensures (a - b) * n == a * n - b * n
  {
  }

  /** Closing k of n units with open cost v at price p. */
  lemma Closing(v: real, n: real, k: real, p: real)
    requires n != 0.0
    ensures k * (v / n - p) == v - v / n * (n - k) - k * p
  {
  }
}
