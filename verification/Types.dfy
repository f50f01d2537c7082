/** The value types every component shares: sides, order records, trades and callbacks. */
module Types {

  datatype Option<+T> = None | Some(value: T)

  type Price = int
  type Quantity = int
  type OrderId = nat

  datatype Side = Buy | Sell
  {
    function Opposite(): Side {
      if Buy? then Sell else Buy
    }
  }

  datatype OrderType = Limit | Market | Ioc | Fok

  datatype OrderStatus = Pending | New | PartiallyFilled | Filled | Cancelled | Rejected | Expired
  {
    predicate IsDone() {
      Filled? || Cancelled? || Rejected? || Expired?
    }
  }

  /** What an order looks like at one moment: the fields the matching engine reads. */
  datatype OrderRec = OrderRec(
    id: OrderId, side: Side, typ: OrderType, price: Price,
    qty: Quantity, filled: Quantity, status: OrderStatus)
  {
    function Remaining(): Quantity {
      qty - filled
    }

    predicate IsDone() {
      status.IsDone()
    }
  }

  datatype Trade = Trade(
    tradeId: nat, buyId: OrderId, sellId: OrderId, symbol: string, price: Price, qty: Quantity)
  {
    predicate Names(id: OrderId) {
      buyId == id || sellId == id
    }
  }

  /** One callback: the order callback or the trade callback. */
  datatype Event = OrderEvent(order: OrderRec) | TradeEvent(trade: Trade)

  function Min(a: int, b: int): int {
    if a <= b then a else b
  }

  function Abs(a: int): int {
    if a < 0 then -a else a
  }

  /** Among the resting orders of one side, does price p trade strictly before price q? */
  predicate Better(side: Side, p: Price, q: Price) {
    match side
    case Buy => p > q
    case Sell => p < q
  }

  /** May an order on this side with this limit, or without one, trade at price p? */
  predicate WithinLimit(side: Side, limit: Option<Price>, p: Price) {
    match limit
    case None => true
    case Some(l) => if side.Buy? then p <= l else p >= l
  }

  function Signed(side: Side, qty: Quantity): int {
    if side.Buy? then qty else -qty
  }
}
