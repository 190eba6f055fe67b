/** The records that travel between the exchange and its clients, and the constants that bound them. */
module Types {

  const ME_MAX_TICKERS: nat := 8
  const ME_MAX_NUM_CLIENTS: nat := 256
  const ME_MAX_ORDER_IDS: nat := 1024 * 1024
  const ME_MAX_PRICE_LEVELS: nat := 256

  const ORDER_ID_INVALID: nat := 0xFFFF_FFFF_FFFF_FFFF
  const TICKER_ID_INVALID: nat := 0xFFFF_FFFF
  const PRICE_INVALID: int := 0x7FFF_FFFF_FFFF_FFFF
  const QTY_INVALID: nat := 0xFFFF_FFFF
  const PRIORITY_INVALID: nat := 0xFFFF_FFFF_FFFF_FFFF

  /** One more than the largest value of the 32-bit type that carries quantities. */
  const QTY_RANGE: nat := 0x1_0000_0000

  datatype Option<+T> = None | Some(value: T)

  datatype Side = BUY | SELL | INVALID_SIDE

  function Opposite(s: Side): Side {
    if s == BUY then SELL else BUY
  }

  /** The client that sent an order and the id it chose; a client's replica of the book does not know either. */
  datatype Owner = Owner(clientId: nat, clientOrderId: nat) | Anonymous

  /** A resting order, in the exchange's book or in a client's replica of it. */
  datatype Order = Order(owner: Owner, id: nat, side: Side, price: int, qty: nat, priority: nat)

  datatype ResponseType = ACCEPTED | CANCELED | FILLED | CANCEL_REJECTED

  datatype Response = Response(
    kind: ResponseType, clientId: nat, tickerId: nat, clientOrderId: nat, marketOrderId: nat,
    side: Side, price: int, execQty: nat, leavesQty: nat)

  datatype UpdateType = CLEAR | ADD | MODIFY | CANCEL | TRADE | SNAPSHOT_START | SNAPSHOT_END

  datatype Update = Update(
    kind: UpdateType, orderId: nat, tickerId: nat, side: Side, price: int, qty: nat, priority: nat)

  /** An update as it is numbered on the incremental stream or within a snapshot cycle. */
  datatype Frame = Frame(seqNum: nat, update: Update)
}
