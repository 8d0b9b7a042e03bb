/** The incoming order, and the price level that keeps a FIFO list of orders with a cached total. */
module PriceLevels {
  import opened BookTypes
  import opened FlatBook
  import opened LevelViews

  /** An order on its way through the engine. Only its remaining quantity ever changes. */
  class Order {
    const orderType: OrderType
    const tif: TimeInForce
    const id: OrderId
    const price: Price
    const initial: Quantity
    var remaining: Quantity
    const side: Side
    const seqNo: nat
    const conn: int
    const clientId: nat

    /** A fresh order: nothing filled yet. */
    constructor (orderType: OrderType, tif: TimeInForce, id: OrderId, price: Price, quantity: Quantity,
                 side: Side, seqNo: nat, conn: int, clientId: nat)
      requires quantity > 0
      ensures Data() == OrderData(orderType, tif, id, price, quantity, quantity, side, seqNo, conn, clientId)
      ensures !IsFilled() && GetFilledQuantity() == 0
    {
      this.orderType, this.tif, this.id, this.price, initial := orderType, tif, id, price, quantity;
      remaining, this.side, this.seqNo, this.conn, this.clientId := quantity, side, seqNo, conn, clientId;
    }

    /** The same owner, ids, side and conditions at another price and quantity, unfilled. */
    constructor FromReplacement(was: OrderData, newPrice: Price, newQuantity: Quantity)
      requires newQuantity > 0
      ensures Data() == Replacement(was, newPrice, newQuantity)
    {
      orderType, tif, id, price, initial := was.orderType, was.tif, was.id, newPrice, newQuantity;
      remaining, side, seqNo, conn, clientId := newQuantity, was.side, was.seqNo, was.conn, was.clientId;
    }

    function Data(): OrderData
      reads this
    {
      OrderData(orderType, tif, id, price, initial, remaining, side, seqNo, conn, clientId)
    }

    predicate IsFilled()
      reads this
    {
      remaining == 0
    }

    function GetFilledQuantity(): Quantity
      reads this
    {
      initial - remaining
    }

    method FillOrder(quantity: Quantity)
      requires quantity <= remaining
      modifies this
      ensures Data() == old(Data()).(remaining := old(remaining) - quantity)
      ensures GetFilledQuantity() == old(GetFilledQuantity()) + quantity
    {
      remaining := remaining - quantity;
    }
  }

  class PriceLevel {
    const price: Price
    ghost const side: Side
    var totalQuantity: Quantity
    var orders: seq<OrderData>

    ghost function View(): LevelView
      reads this
    {
      LevelView(price, totalQuantity, orders)
    }

    /** Every order is at the level's price, and the cached total is the sum of the remainders. */
    ghost predicate Valid()
      reads this
    {
      LevelOk(View())
    }

    constructor (price: Price, ghost side: Side)
      requires price > 0
      ensures Valid() && View() == LevelView(price, 0, []) && this.side == side
    {
      this.price, this.side := price, side;
      totalQuantity, orders := 0, [];
    }

    predicate Empty()
      reads this
    {
      orders == []
    }

    /** A copy of the order joins the back of the list. */
    method AddOrder(order: Order)
      requires Valid() && order.price == price && !order.IsFilled()
      modifies this
      ensures Valid()
      ensures View() == LevelView(price, old(totalQuantity) + order.remaining, old(orders) + [order.Data()])
    {
      JoinedLevelOk(View(), order.Data());
      totalQuantity := totalQuantity + order.remaining;
      orders := orders + [order.Data()];
    }

    /** The order carrying `id` leaves the list, wherever it is. */
    method EraseOrder(id: OrderId)
      requires Valid() && Holds(orders, id)
      modifies this
      ensures Valid()
      ensures var k := Find(old(orders), id);
              View() == LevelWithout(old(View()), k)
    {
      var k := Find(orders, id);
      LeftLevelOk(View(), k);
      totalQuantity := totalQuantity - orders[k].remaining;
      orders := orders[..k] + orders[k + 1..];
    }

    /** The front of the list is filled and, when nothing is left of it, popped. */
    method FillFrontOrder(quantity: Quantity)
      requires Valid() && !Empty() && quantity <= orders[0].remaining
      modifies this
      ensures Valid()
      ensures View() == LevelView(price, old(totalQuantity) - quantity, Reduce(old(orders), quantity))
    {
      ReducedLevelOk(View(), quantity);
      orders := orders[0 := orders[0].(remaining := orders[0].remaining - quantity)];
      totalQuantity := totalQuantity - quantity;
      if orders[0].remaining == 0 {
        PopFrontOrder();
      }
    }

    method PopFrontOrder()
      requires !Empty() && orders[0].remaining == 0
      modifies this
      ensures View() == LevelView(price, old(totalQuantity), old(orders)[1..])
    {
      orders := orders[1..];
    }
  }
}
