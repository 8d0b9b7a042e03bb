/**
 The specification of the matching engine: one priority-ordered sequence of orders per side,
 best price first and first come first served within a price. No levels, no cached totals,
 no index; depth is summed from the orders each time it is wanted.
 */
module FlatBook {
  import opened BookTypes

  datatype Flat = Flat(
    bids: seq<OrderData>,
    asks: seq<OrderData>,
    trades: seq<Trade>,
    nextId: OrderId,
    events: seq<Event>)
  {
    function Of(side: Side): seq<OrderData> {
      if side.Buy? then bids else asks
    }

    function With(side: Side, q: seq<OrderData>): Flat {
      if side.Buy? then this.(bids := q) else this.(asks := q)
    }

    function Emit(es: seq<Event>): Flat {
      this.(events := events + es)
    }
  }

  const EMPTY: Flat := Flat([], [], [], 1, [])

  // ----- quantities resting -----

  /** Which orders of a queue a sum ranges over. */
  datatype Selector =
    | Everything
    | AtPrice(price: Price)
    | WithId(id: OrderId)
    | CrossedBy(orderType: OrderType, side: Side, limit: Price)

  predicate Selects(sel: Selector, o: OrderData) {
    match sel
    case Everything => true
    case AtPrice(p) => o.price == p
    case WithId(id) => o.id == id
    case CrossedBy(t, s, p) => Crosses(t, s, p, o.price)
  }

  function Weight(sel: Selector, o: OrderData): Quantity {
    if Selects(sel, o) then o.remaining else 0
  }

  function Sum(q: seq<OrderData>, sel: Selector): Quantity {
    if q == [] then 0 else Weight(sel, q[0]) + Sum(q[1..], sel)
  }

  function Depth(q: seq<OrderData>, price: Price): Quantity {
    Sum(q, AtPrice(price))
  }

  function Reach(o: OrderData): Selector {
    CrossedBy(o.orderType, o.side, o.price)
  }

  // ----- queues -----

  /** How many leading orders keep priority over a newcomer at `price`. */
  function Rank(side: Side, q: seq<OrderData>, price: Price): (k: nat)
    ensures k <= |q|
    ensures forall i :: 0 <= i < k ==> !Better(side, price, q[i].price)
    ensures k < |q| ==> Better(side, price, q[k].price)
  {
    if q == [] || Better(side, price, q[0].price) then 0 else 1 + Rank(side, q[1..], price)
  }

  function Insert(q: seq<OrderData>, o: OrderData): seq<OrderData> {
    var k := Rank(o.side, q, o.price);
    q[..k] + [o] + q[k..]
  }

  /** Position of the order carrying `id`, or the length of the queue. */
  function Find(q: seq<OrderData>, id: OrderId): (k: nat)
    ensures k <= |q|
    ensures forall i :: 0 <= i < k ==> q[i].id != id
    ensures k < |q| ==> q[k].id == id
  {
    if q == [] || q[0].id == id then 0 else 1 + Find(q[1..], id)
  }

  predicate Holds(q: seq<OrderData>, id: OrderId) {
    Find(q, id) < |q|
  }

  predicate Rests(st: Flat, id: OrderId) {
    Holds(st.bids, id) || Holds(st.asks, id)
  }

  function OrderWith(st: Flat, id: OrderId): (o: OrderData)
    requires Rests(st, id)
    ensures o.id == id
  {
    if Holds(st.bids, id) then st.bids[Find(st.bids, id)] else st.asks[Find(st.asks, id)]
  }

  /** Take `n` from the first order of a queue; an order left with nothing goes. */
  function Reduce(q: seq<OrderData>, n: Quantity): seq<OrderData>
    requires q != []
  {
    if q[0].remaining == n then q[1..] else [q[0].(remaining := q[0].remaining - n)] + q[1..]
  }

  // ----- matching -----

  function OppositeQueue(st: Flat, o: OrderData): seq<OrderData> {
    st.Of(o.side.Opposite())
  }

  predicate CanTrade(st: Flat, o: OrderData) {
    var q := OppositeQueue(st, o);
    o.remaining != 0 && q != [] && Crosses(o.orderType, o.side, o.price, q[0].price)
  }

  /** The taker meets the first maker of the other side. */
  function TradeOnce(st: Flat, o: OrderData): (Flat, OrderData)
    requires OppositeQueue(st, o) != []
  {
    var q := OppositeQueue(st, o);
    var m := q[0];
    var n := Min(o.remaining, m.remaining);
    var q' := Reduce(q, n);
    var side := o.side.Opposite();
    var st' := st.With(side, q')
               .(trades := st.trades + [TradeOf(o, m)],
                 events := st.events + [TradeEvent(TradeOf(o, m)),
                                        BookUpdate(side, m.price, Depth(q', m.price)),
                                        MakerEvent(m, m.remaining - n)]);
    (st', o.(remaining := o.remaining - n))
  }

  /** The greedy sweep: trade with the best maker for as long as the taker wants and accepts it. */
  function Match(st: Flat, o: OrderData): (Flat, OrderData)
    decreases |OppositeQueue(st, o)|, o.remaining != 0
  {
    if CanTrade(st, o) then
      var (st', o') := TradeOnce(st, o);
      Match(st', o')
    else (st, o)
  }

  // ----- operations -----

  function Rest(st: Flat, o: OrderData): Flat {
    var q := Insert(st.Of(o.side), o);
    st.With(o.side, q).Emit([BookUpdate(o.side, o.price, Depth(q, o.price))])
  }

  /** Fill-or-kill is decided by trying the sweep. */
  predicate WouldFill(st: Flat, o: OrderData) {
    Match(st, o).1.remaining == 0
  }

  function Enter(st: Flat, o: OrderData): (Flat, AddOrderResult) {
    if o.orderType.Limit? && o.tif.FillOrKill? && !WouldFill(st, o) then
      (st, AddOrderResult(Rejected, 0, o.remaining))
    else
      var (st', o') := Match(st, o);
      var r := ResultOf(o.orderType, o.remaining - o'.remaining, o'.remaining);
      if o.orderType.Limit? && o.tif.GoodTillCancel? && o'.remaining != 0 then (Rest(st', o'), r)
      else (st', r)
  }

  function Withdraw(st: Flat, id: OrderId): Flat
    requires Rests(st, id)
  {
    var o := OrderWith(st, id);
    var side := if Holds(st.bids, id) then Buy else Sell;
    var q := st.Of(side);
    var k := Find(q, id);
    var q' := q[..k] + q[k + 1..];
    st.With(side, q').Emit([BookUpdate(side, o.price, Depth(q', o.price))])
  }

  function OrderOf(msg: Message, id: OrderId): OrderData
    requires msg.AddOrder?
  {
    OrderData(msg.orderType, msg.tif, id, msg.price, msg.quantity, msg.quantity, msg.side, msg.seqNo,
              msg.conn, msg.clientId)
  }

  function Replacement(o: OrderData, price: Price, quantity: Quantity): OrderData {
    o.(price := price, initial := quantity, remaining := quantity)
  }

  /** What the sender of a new order hears. */
  function AddEvent(msg: Message, id: OrderId, r: AddOrderResult): PrivateEvent
    requires msg.AddOrder?
  {
    match r.status
    case Failed | Rejected => OrderRejected(id, NoLiquidity)
    case FullyFilled => OrderFilled(id, msg.clientId)
    case Resting =>
      if msg.tif.ImmediateOrCancel? then OrderExpired(id, msg.clientId)
      else OrderRested(id, msg.clientId, r.remaining)
    case PartiallyFilled =>
      if msg.tif.GoodTillCancel? then OrderRested(id, msg.clientId, r.remaining)
      else OrderExpired(id, msg.clientId)
  }

  function Process(st: Flat, msg: Message): Flat {
    match msg
    case AddOrder(_, _, _, _, _, _, _, _) =>
      var (st', r) := Enter(st.(nextId := st.nextId + 1), OrderOf(msg, st.nextId));
      st'.Emit([Routed(msg.conn, AddEvent(msg, st.nextId, r))])
    case CancelOrder(id, conn, _) =>
      if Rests(st, id) then Withdraw(st, id).Emit([Routed(conn, OrderCanceled(id))])
      else st.Emit([Routed(conn, CancelRejected(id, InvalidOrderId))])
    case ModifyOrder(id, price, quantity, conn, _) =>
      if Rests(st, id) then
        var st' := Enter(Withdraw(st, id), Replacement(OrderWith(st, id), price, quantity)).0;
        st'.Emit([Routed(conn, OrderModified(id, price, quantity))])
      else st.Emit([Routed(conn, ModifyRejected(id, InvalidOrderId))])
  }

  function Run(st: Flat, msgs: seq<Message>): Flat
    decreases |msgs|
  {
    if msgs == [] then st else Run(Process(st, msgs[0]), msgs[1..])
  }

  // ----- what the engine demands of its input -----

  /** How much of the other side an order reaches. */
  function Available(st: Flat, o: OrderData): Quantity {
    Sum(OppositeQueue(st, o), Reach(o))
  }

  /** A positive quantity, and a positive price if a remainder will rest: the engine throws otherwise. */
  predicate Enterable(st: Flat, o: OrderData) {
    o.remaining > 0 &&
    (o.orderType.Limit? && o.tif.GoodTillCancel? && Available(st, o) < o.remaining ==> o.price > 0)
  }

  predicate Accepts(st: Flat, msg: Message) {
    match msg
    case AddOrder(_, _, _, _, _, _, _, _) => Enterable(st, OrderOf(msg, st.nextId))
    case CancelOrder(_, _, _) => true
    case ModifyOrder(id, price, quantity, _, _) =>
      Rests(st, id) ==> Enterable(st, Replacement(OrderWith(st, id), price, quantity))
  }

  /** Every message of a run is acceptable where it arrives. */
  predicate AcceptsAll(st: Flat, msgs: seq<Message>)
    decreases |msgs|
  {
    msgs == [] || (Accepts(st, msgs[0]) && AcceptsAll(Process(st, msgs[0]), msgs[1..]))
  }

  // ----- the state invariant -----

  /** Priority order, legal resting orders, ids used once. */
  ghost predicate QueueOk(side: Side, q: seq<OrderData>, nextId: OrderId) {
    && (forall i, j :: 0 <= i < j < |q| ==> !Better(side, q[j].price, q[i].price))
    && (forall i, j :: 0 <= i < j < |q| ==> q[i].id != q[j].id)
    && (forall i :: 0 <= i < |q| ==> RestingOk(side, q[i], nextId))
  }

  predicate RestingOk(side: Side, o: OrderData, nextId: OrderId) {
    o.side == side && o.remaining > 0 && o.price > 0 && o.id < nextId &&
    o.orderType.Limit? && o.tif.GoodTillCancel?
  }

  ghost predicate Disjoint(p: seq<OrderData>, q: seq<OrderData>) {
    forall i, j :: 0 <= i < |p| && 0 <= j < |q| ==> p[i].id != q[j].id
  }

  predicate Uncrossed(st: Flat) {
    st.bids != [] && st.asks != [] ==> st.bids[0].price < st.asks[0].price
  }

  ghost predicate Inv(st: Flat) {
    && QueueOk(Buy, st.bids, st.nextId)
    && QueueOk(Sell, st.asks, st.nextId)
    && Disjoint(st.bids, st.asks)
    && Uncrossed(st)
  }

  /** A taker that is not itself on the book. */
  ghost predicate Fresh(st: Flat, o: OrderData) {
    o.id < st.nextId && !Rests(st, o.id)
  }
}
