/**
 How sweeps compose: splitting an immediate-or-cancel order changes nothing for the makers, a limit
 sweep is a market sweep of the prices it accepts, and fill-or-kill is all or nothing.
 */
module SweepAlgebra {
  import opened BookTypes
  import opened FlatBook
  import opened BookInvariant
  import opened Ledger
  import opened PriorityLaws

  // ----- additivity -----

  lemma {:induction false} ConsumeTwice(q: seq<OrderData>, a: Quantity, b: Quantity)
    requires forall i :: 0 <= i < |q| ==> q[i].remaining > 0
    requires a >= 0 && b >= 0
    ensures Consume(Consume(q, a), b) == Consume(q, a + b)
    decreases |q|
  {
    if q != [] && a > 0 && b > 0 && a >= q[0].remaining {
      ConsumeTwice(q[1..], a - q[0].remaining, b);
    }
  }

  /** What an immediate-or-cancel message may do: consume the other side and charge makers on the tape. */
  ghost predicate IocOutcome(st: Flat, msg: Message, st': Flat, maker: OrderId)
    requires msg.AddOrder?
  {
    var opp := msg.side.Opposite();
    var reach := CrossedBy(msg.orderType, msg.side, msg.price);
    var n := Min(msg.quantity, Sum(st.Of(opp), reach));
    && st'.Of(msg.side) == st.Of(msg.side)
    && st'.Of(opp) == Consume(st.Of(opp), n)
    && 0 <= n && Sum(st'.Of(opp), reach) == Sum(st.Of(opp), reach) - n
    && Traded(st'.trades, maker) + Held(st', maker) == Traded(st.trades, maker) + Held(st, maker)
  }

  lemma IocSides(st: Flat, msg: Message)
    requires Inv(st) && msg.AddOrder? && msg.tif.ImmediateOrCancel? && msg.quantity > 0
    ensures var o := OrderOf(msg, st.nextId);
            var st' := Process(st, msg);
            && st'.nextId == st.nextId + 1
            && st'.Of(msg.side) == st.Of(msg.side)
            && OppositeQueue(st', o) == Consume(OppositeQueue(st, o), Executable(st, o))
            && Available(st', o) == Available(st, o) - Executable(st, o) <= Available(st, o)
  {
    var st0, o := st.(nextId := st.nextId + 1), OrderOf(msg, st.nextId);
    NewOrderMayEnter(st, msg);
    ProcessAddIs(st, msg, Enter(st0, o));
    var end := Match(st0, o).0;
    assert Enter(st0, o).0 == end;
    assert end.Of(o.side) == st.Of(o.side) && end.nextId == st0.nextId by {
      MatchKeepsInv(st0, o);
    }
    MatchConsumes(st0, o);
    SweepExecutes(st0, o);
    SumBounds(OppositeQueue(st, o), Reach(o));
  }

  lemma IocConsumes(st: Flat, msg: Message, maker: OrderId)
    requires Inv(st) && msg.AddOrder? && msg.tif.ImmediateOrCancel? && msg.quantity > 0
    requires maker < st.nextId
    ensures IocOutcome(st, msg, Process(st, msg), maker) && Inv(Process(st, msg))
    ensures Process(st, msg).nextId == st.nextId + 1
  {
    IocSides(st, msg);
    ProcessKeepsInv(st, msg);
    ProcessConserves(st, msg, maker);
  }

  lemma OutcomesCompose(st: Flat, msg: Message, a: Quantity, b: Quantity, maker: OrderId,
                        half: Flat, two: Flat, one: Flat)
    requires msg.AddOrder? && a > 0 && b > 0
    requires IocOutcome(st, msg.(quantity := a), half, maker)
    requires IocOutcome(half, msg.(quantity := b), two, maker)
    requires IocOutcome(st, msg.(quantity := a + b), one, maker)
    requires forall i :: 0 <= i < |st.Of(msg.side.Opposite())| ==> st.Of(msg.side.Opposite())[i].remaining > 0
    ensures two.bids == one.bids && two.asks == one.asks
    ensures Traded(two.trades, maker) == Traded(one.trades, maker)
  {
    var q := st.Of(msg.side.Opposite());
    var reach := Sum(q, CrossedBy(msg.orderType, msg.side, msg.price));
    ConsumeTwice(q, Min(a, reach), Min(b, reach - Min(a, reach)));
  }

  /** An immediate-or-cancel order of `a` then one of `b` treat every maker as one of `a + b` does. */
  lemma IocAdditive(st: Flat, msg: Message, a: Quantity, b: Quantity, maker: OrderId)
    requires Inv(st) && msg.AddOrder? && msg.tif.ImmediateOrCancel? && a > 0 && b > 0
    requires maker < st.nextId
    ensures var two := Process(Process(st, msg.(quantity := a)), msg.(quantity := b));
            var one := Process(st, msg.(quantity := a + b));
            && two.bids == one.bids && two.asks == one.asks
            && Traded(two.trades, maker) == Traded(one.trades, maker)
  {
    var half := Process(st, msg.(quantity := a));
    IocConsumes(st, msg.(quantity := a), maker);
    IocConsumes(half, msg.(quantity := b), maker);
    IocConsumes(st, msg.(quantity := a + b), maker);
    OutcomesCompose(st, msg, a, b, maker, half, Process(half, msg.(quantity := b)),
                    Process(st, msg.(quantity := a + b)));
  }

  // ----- limit and market sweeps -----

  /** The sweep of an order is the market sweep of `a` alone, with `b` left standing behind what that leaves. */
  ghost predicate MarketSweepOf(st: Flat, o: OrderData, a: seq<OrderData>, b: seq<OrderData>) {
    var opp := o.side.Opposite();
    var (s, t) := Match(st, o);
    var (s', t') := Match(st.With(opp, a), o.(orderType := Market));
    s == s'.With(opp, s'.Of(opp) + b) && t.remaining == t'.remaining
  }

  /** Makers the taker refuses take no part: a limit sweep of `a + b` is a market sweep of `a`. */
  lemma {:induction false} RefusedTakeNoPart(st: Flat, o: OrderData, a: seq<OrderData>, b: seq<OrderData>)
    requires OppositeQueue(st, o) == a + b
    requires forall i :: 0 <= i < |a| ==> Crosses(o.orderType, o.side, o.price, a[i].price)
    requires forall i :: 0 <= i < |b| ==> !Crosses(o.orderType, o.side, o.price, b[i].price)
    ensures MarketSweepOf(st, o, a, b)
    decreases |a|, o.remaining != 0
  {
    if o.remaining != 0 && a != [] {
      var (st1, o1) := TradeOnce(st, o);
      var rest := Reduce(a, Min(o.remaining, a[0].remaining));
      TradeLeavesBehind(st, o, a, b);
      RefusedTakeNoPart(st1, o1, rest, b);
    }
  }

  /** One trade with the first of `a + b` is one with the first of `a` alone, when nobody in `b` has that price. */
  lemma TradeLeavesBehind(st: Flat, o: OrderData, a: seq<OrderData>, b: seq<OrderData>)
    requires OppositeQueue(st, o) == a + b && a != []
    requires Crosses(o.orderType, o.side, o.price, a[0].price)
    requires forall i :: 0 <= i < |b| ==> !Crosses(o.orderType, o.side, o.price, b[i].price)
    ensures var opp := o.side.Opposite();
            var rest := Reduce(a, Min(o.remaining, a[0].remaining));
            var (st1, o1) := TradeOnce(st, o);
            && st1.Of(opp) == rest + b
            && TradeOnce(st.With(opp, a), o.(orderType := Market)) ==
               (st1.With(opp, rest), o1.(orderType := Market))
  {
    var n := Min(o.remaining, a[0].remaining);
    assert Reduce(a + b, n) == Reduce(a, n) + b by {
      assert (a + b)[1..] == a[1..] + b;
    }
    assert Depth(Reduce(a, n) + b, a[0].price) == Depth(Reduce(a, n), a[0].price) by {
      SumConcat(Reduce(a, n), b, AtPrice(a[0].price));
      SumNone(b, AtPrice(a[0].price));
    }
  }

  /** How many leading makers an order accepts. */
  function AcceptedCount(q: seq<OrderData>, o: OrderData): (k: nat)
    ensures k <= |q|
    ensures forall i :: 0 <= i < k ==> Crosses(o.orderType, o.side, o.price, q[i].price)
    ensures k < |q| ==> !Crosses(o.orderType, o.side, o.price, q[k].price)
  {
    if q == [] || !Crosses(o.orderType, o.side, o.price, q[0].price) then 0 else 1 + AcceptedCount(q[1..], o)
  }

  /** A limit sweep equals a market sweep over the makers within the limit, the others untouched. */
  lemma LimitSweepIsMarketSweep(st: Flat, o: OrderData)
    requires Inv(st)
    ensures var q := OppositeQueue(st, o);
            var k := AcceptedCount(q, o);
            MarketSweepOf(st, o, q[..k], q[k..])
  {
    var q := OppositeQueue(st, o);
    var k := AcceptedCount(q, o);
    RefusedBehind(o, q, k, st.nextId);
    SweepUpTo(st, o, k);
  }

  lemma SweepUpTo(st: Flat, o: OrderData, k: nat)
    requires k <= |OppositeQueue(st, o)|
    requires forall i :: 0 <= i < |OppositeQueue(st, o)| ==>
               (Crosses(o.orderType, o.side, o.price, OppositeQueue(st, o)[i].price) <==> i < k)
    ensures var q := OppositeQueue(st, o);
            MarketSweepOf(st, o, q[..k], q[k..])
  {
    var q := OppositeQueue(st, o);
    assert q == q[..k] + q[k..];
    RefusedTakeNoPart(st, o, q[..k], q[k..]);
  }

  /** An order accepts the makers before the first it refuses, and nobody behind. */
  lemma RefusedBehind(o: OrderData, q: seq<OrderData>, k: nat, nextId: OrderId)
    requires QueueOk(o.side.Opposite(), q, nextId) && k == AcceptedCount(q, o)
    ensures forall i :: 0 <= i < |q| ==> (Crosses(o.orderType, o.side, o.price, q[i].price) <==> i < k)
  {
    forall i | k <= i < |q|
      ensures !Crosses(o.orderType, o.side, o.price, q[i].price)
    {
      assert i == k || !Better(o.side.Opposite(), q[i].price, q[k].price);
    }
  }

  // ----- fill or kill -----

  /** Trying the sweep succeeds exactly when enough is within reach. */
  lemma WouldFillIffAvailable(st: Flat, o: OrderData)
    requires Inv(st) && Fresh(st, o) && o.remaining >= 0
    ensures WouldFill(st, o) <==> o.remaining <= Available(st, o)
  {
    SweepExecutes(st, o);
  }

  function Executed(st: Flat, msg: Message): Quantity {
    Volume(Process(st, msg).trades) - Volume(st.trades)
  }

  /** A sweep with enough within reach trades all that is wanted and leaves its own side alone. */
  lemma SweepFills(st: Flat, o: OrderData)
    requires Inv(st) && Fresh(st, o) && 0 <= o.remaining <= Available(st, o)
    ensures var (st', o') := Match(st, o);
            && o'.remaining == 0 && st'.Of(o.side) == st.Of(o.side)
            && Volume(st'.trades) - Volume(st.trades) == o.remaining
            && Traded(st'.trades, o.id) - Traded(st.trades, o.id) == o.remaining
  {
    SweepExecutes(st, o);
    MatchKeepsInv(st, o);
    MatchVolume(st, o);
    MatchConserves(st, o, o.id);
    HeldNone(st, o.id);
    HeldNone(Match(st, o).0, o.id);
  }

  /** A limit fill-or-kill order trades its whole quantity, or nothing happens but its rejection. */
  lemma LimitFillOrKill(st: Flat, msg: Message)
    requires Inv(st) && msg.AddOrder? && msg.orderType.Limit? && msg.tif.FillOrKill? && Accepts(st, msg)
    ensures var id := st.nextId;
            var st' := Process(st, msg);
            if msg.quantity <= Available(st, OrderOf(msg, id)) then
              && Executed(st, msg) == Traded(st'.trades, id) - Traded(st.trades, id) == msg.quantity
              && st'.Of(msg.side) == st.Of(msg.side)
            else
              st' == st.(nextId := id + 1).Emit([Routed(msg.conn, OrderRejected(id, NoLiquidity))])
  {
    var st0 := st.(nextId := st.nextId + 1);
    var o := OrderOf(msg, st.nextId);
    NewOrderMayEnter(st, msg);
    ProcessAddIs(st, msg, Enter(st0, o));
    WouldFillIffAvailable(st0, o);
    if o.remaining <= Available(st0, o) {
      SweepFills(st0, o);
    }
  }

  /**
   All-or-nothing holds of a fill-or-kill order exactly when it is not a market order facing some
   liquidity but not enough: the engine checks the whole fill for limit orders only.
   */
  lemma FillOrKillExactly(st: Flat, msg: Message)
    requires Inv(st) && msg.AddOrder? && msg.tif.FillOrKill? && Accepts(st, msg)
    ensures (Executed(st, msg) == 0 || Executed(st, msg) == msg.quantity) <==>
            !(msg.orderType.Market? && 0 < Available(st, OrderOf(msg, st.nextId)) < msg.quantity)
  {
    var st0 := st.(nextId := st.nextId + 1);
    var o := OrderOf(msg, st.nextId);
    NextIdKeepsInv(st);
    SumBounds(OppositeQueue(st, o), Reach(o));
    if msg.orderType.Limit? {
      LimitFillOrKill(st, msg);
    } else {
      SweepExecutes(st0, o);
      MatchVolume(st0, o);
    }
  }

  /** The failing family is inhabited: a market fill-or-kill for 10 against a resting 4 trades 4. */
  lemma MarketFillOrKillPartlyFills()
    ensures var rest := AddOrder(Limit, GoodTillCancel, 1, 100, 4, Sell, 7, 1);
            var take := AddOrder(Market, FillOrKill, 2, 0, 10, Buy, 8, 2);
            && AcceptsAll(EMPTY, [rest, take])
            && Executed(Process(EMPTY, rest), take) == 4
            && Run(EMPTY, [rest, take]).asks == []
  {
    var rest := AddOrder(Limit, GoodTillCancel, 1, 100, 4, Sell, 7, 1);
    var take := AddOrder(Market, FillOrKill, 2, 0, 10, Buy, 8, 2);
    var maker := OrderOf(rest, 1);
    FirstOrderRests(rest);
    var st := Process(EMPTY, rest);
    RunTwo(EMPTY, rest, take);
    var st0 := st.(nextId := 3);
    var o := OrderOf(take, 2);
    var (st1, o1) := TradeOnce(st0, o);
    assert st1.asks == [] && o1.remaining == 6;
    assert Match(st0, o) == Match(st1, o1) == (st1, o1);
    TradedAppend(st.trades, TradeOf(o, maker), 0);
    assert Process(st, take).asks == [];
  }
}
