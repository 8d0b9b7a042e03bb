/** The values the matching engine exchanges: orders, trades, events and messages. */
module BookTypes {

  type OrderId = nat
  type Price = int
  type Quantity = int

  datatype Side = Buy | Sell {
    function Opposite(): Side {
      if Buy? then Sell else Buy
    }
  }

  datatype TimeInForce = FillOrKill | GoodTillCancel | ImmediateOrCancel

  datatype OrderType = Limit | Market

  datatype AddOrderStatus = FullyFilled | PartiallyFilled | Resting | Failed | Rejected

  datatype AddOrderResult =
    AddOrderResult(status: AddOrderStatus, executed: Quantity, remaining: Quantity)

  /** What an order's fields hold at one moment. */
  datatype OrderData = OrderData(
    orderType: OrderType,
    tif: TimeInForce,
    id: OrderId,
    price: Price,
    initial: Quantity,
    remaining: Quantity,
    side: Side,
    seqNo: nat,
    conn: int,
    clientId: nat)

  datatype TradeInfo = TradeInfo(id: OrderId, price: Price, quantity: Quantity)

  datatype Trade = Trade(
    buyer: TradeInfo,
    seller: TradeInfo,
    price: Price,
    quantity: Quantity,
    aggressor: Side)

  datatype RejectReason = NoLiquidity | InvalidOrderId

  datatype PrivateEvent =
    | OrderRested(id: OrderId, clientId: nat, remaining: Quantity)
    | OrderFilled(id: OrderId, clientId: nat)
    | OrderExpired(id: OrderId, clientId: nat)
    | OrderRejected(id: OrderId, reason: RejectReason)
    | OrderCanceled(id: OrderId)
    | CancelRejected(id: OrderId, reason: RejectReason)
    | OrderModified(id: OrderId, newPrice: Price, newQuantity: Quantity)
    | ModifyRejected(id: OrderId, reason: RejectReason)

  datatype Event =
    | Routed(conn: int, event: PrivateEvent)
    | TradeExecuted(buyerId: OrderId, sellerId: OrderId, price: Price, quantity: Quantity, aggressor: Side)
    | BookUpdate(side: Side, level: Price, depth: Quantity)

  datatype Message =
    | AddOrder(orderType: OrderType, tif: TimeInForce, clientId: nat, price: Price, quantity: Quantity,
               side: Side, conn: int, seqNo: nat)
    | CancelOrder(id: OrderId, conn: int, seqNo: nat)
    | ModifyOrder(id: OrderId, newPrice: Price, newQuantity: Quantity, conn: int, seqNo: nat)

  function Min(a: int, b: int): int {
    if a <= b then a else b
  }

  /** A price strictly closer to the top of the book than another. */
  predicate Better(side: Side, p: Price, q: Price) {
    if side.Buy? then p > q else p < q
  }

  /** The taker accepts the maker's price; a market order accepts any. */
  predicate Crosses(orderType: OrderType, side: Side, price: Price, makerPrice: Price) {
    orderType.Market? || (if side.Buy? then price >= makerPrice else price <= makerPrice)
  }

  /** The tape entry for a taker meeting a maker, with both quantities as they stood before the fill. */
  function TradeOf(taker: OrderData, maker: OrderData): Trade {
    var t := TradeInfo(taker.id, taker.price, taker.remaining);
    var m := TradeInfo(maker.id, maker.price, maker.remaining);
    var n := Min(taker.remaining, maker.remaining);
    if taker.side.Buy? then Trade(t, m, maker.price, n, Buy) else Trade(m, t, maker.price, n, Sell)
  }

  function TradeEvent(t: Trade): Event {
    TradeExecuted(t.buyer.id, t.seller.id, t.price, t.quantity, t.aggressor)
  }

  /** What the owner of a maker hears after a fill that leaves `left`. */
  function MakerEvent(maker: OrderData, left: Quantity): Event {
    Routed(maker.conn,
           if left == 0 then OrderFilled(maker.id, maker.clientId)
           else OrderRested(maker.id, maker.clientId, left))
  }

  /** The status of an order that has executed `executed` and still wants `remaining`. */
  function ResultOf(orderType: OrderType, executed: Quantity, remaining: Quantity): AddOrderResult {
    if remaining == 0 then AddOrderResult(FullyFilled, executed, remaining)
    else if executed == 0 then
      AddOrderResult(if orderType.Market? then Rejected else Resting, executed, remaining)
    else AddOrderResult(PartiallyFilled, executed, remaining)
  }
}
