/** The pre-trade gate of one instrument. */
module RiskManager {
  import opened Types

  const INT32_RANGE := 0x1_0000_0000

  /** The signed 32-bit reading of an integer. */
  function Int32(x: int): (y: int)
    ensures -0x8000_0000 <= y < 0x8000_0000
    ensures -0x8000_0000 <= x < 0x8000_0000 ==> y == x
  {
    var u := x % INT32_RANGE;
    if u < 0x8000_0000 then u else u - INT32_RANGE
  }

  function Abs(x: int): nat {
    if x < 0 then -x else x
  }

  /** The magnitude of a signed 32-bit integer as the machine computes it: the least one is its own negation. */
  function Abs32(x: int): (y: int)
    ensures -0x8000_0000 < x < 0x8000_0000 ==> y == Abs(x)
    ensures x == -0x8000_0000 ==> y == x
  {
    Int32(Abs(x))
  }

  /** A quantity with the sign of its side. */
  function Signed(s: Side, n: int): int {
    if s == BUY then n else if s == SELL then -n else 0
  }

  datatype RiskCfg = RiskCfg(maxOrderSize: nat, maxPosition: nat, maxLoss: real)

  datatype RiskCheck = ORDER_TOO_LARGE | POSITION_TOO_LARGE | LOSS_TOO_LARGE | ALLOWED

  datatype RiskInfo = RiskInfo(position: int, totalPnL: real, cfg: RiskCfg) {
    function CheckPreTradeRisk(side: Side, qty: nat): RiskCheck {
      if qty > cfg.maxOrderSize then ORDER_TOO_LARGE
      else if Abs32(Int32(position + Signed(side, Int32(qty)))) > Int32(cfg.maxPosition) then POSITION_TOO_LARGE
      else if totalPnL < cfg.maxLoss then LOSS_TOO_LARGE
      else ALLOWED
    }
  }

  /** Limits for which no value the gate computes leaves the signed 32-bit range. */
  predicate Bounded(cfg: RiskCfg) {
    cfg.maxOrderSize + cfg.maxPosition < 0x8000_0000
  }

  /** A position that the limit allows and its 32-bit field can hold. */
  predicate InLimit(position: int, cfg: RiskCfg) {
    Abs(position) <= cfg.maxPosition && -0x8000_0000 <= position < 0x8000_0000
  }

  /** The gate lets the order through exactly when its size, the position after it and the profit are within limits. */
  predicate Judged(info: RiskInfo, side: Side, qty: nat) {
    info.CheckPreTradeRisk(side, qty) == ALLOWED <==>
      && qty <= info.cfg.maxOrderSize
      && Abs(info.position + Signed(side, qty)) <= info.cfg.maxPosition
      && info.totalPnL >= info.cfg.maxLoss
  }

  lemma GateRight(info: RiskInfo, side: Side, qty: nat)
    requires Bounded(info.cfg) && Abs(info.position) <= info.cfg.maxPosition && (side == BUY || side == SELL)
    ensures Judged(info, side, qty)
  {
  }

  /** The gate judges every order right from every position within the limit exactly when the limits are bounded. */
  lemma GateExact(cfg: RiskCfg)
    requires cfg.maxOrderSize < INT32_RANGE && cfg.maxPosition < INT32_RANGE
    ensures Bounded(cfg) <==>
              forall position, pnl, side, qty: nat :: InLimit(position, cfg) && (side == BUY || side == SELL) ==>
                Judged(RiskInfo(position, pnl, cfg), side, qty)
  {
    if Bounded(cfg) {
      forall position, pnl, side, qty: nat | InLimit(position, cfg) && (side == BUY || side == SELL)
        ensures Judged(RiskInfo(position, pnl, cfg), side, qty)
      {
        GateRight(RiskInfo(position, pnl, cfg), side, qty);
      }
    } else {
      var position, qty := Misjudged(cfg);
      assert InLimit(position, cfg) && !Judged(RiskInfo(position, cfg.maxLoss, cfg), BUY, qty);
    }
  }

  /**
   * Otherwise, either the limit itself is read as a negative number and keeps even an order of size zero out, or some
   * order takes the sum to 2^31, whose 32-bit magnitude is negative and below every limit.
   */
  lemma Misjudged(cfg: RiskCfg) returns (position: nat, qty: nat)
    requires cfg.maxPosition < INT32_RANGE && !Bounded(cfg)
    ensures InLimit(position, cfg) && !Judged(RiskInfo(position, cfg.maxLoss, cfg), BUY, qty)
    ensures cfg.maxPosition < 0x8000_0000 ==> qty <= cfg.maxOrderSize && qty + position == 0x8000_0000
  {
    qty := if cfg.maxPosition >= 0x8000_0000 then 0
           else if cfg.maxOrderSize < 0x8000_0000 then cfg.maxOrderSize else 0x8000_0000;
    position := if qty == 0 then 0 else 0x8000_0000 - qty;
  }

  predicate Fits(x: int) {
    -0x8000_0000 <= x < 0x8000_0000
  }

  /** Every value of the gate's signed arithmetic, for an order it has not turned away for its size. */
  predicate AllFit(cfg: RiskCfg, position: int, side: Side, qty: nat) {
    && Fits(cfg.maxPosition) && Fits(qty) && Fits(Signed(side, qty))
    && Fits(position + Signed(side, qty)) && Fits(Abs(position + Signed(side, qty)))
  }

  /** The same limits are those for which the gate's arithmetic never overflows. */
  lemma NoOverflow(cfg: RiskCfg)
    ensures Bounded(cfg) <==>
              forall position, side, qty: nat ::
                InLimit(position, cfg) && (side == BUY || side == SELL) && qty <= cfg.maxOrderSize ==>
                  AllFit(cfg, position, side, qty)
  {
    if !Bounded(cfg) {
      var position := if cfg.maxPosition < 0x8000_0000 then cfg.maxPosition else 0;
      assert InLimit(position, cfg) && !AllFit(cfg, position, BUY, cfg.maxOrderSize);
    }
  }
}
