/**
 What the order that a message lets in does to the book, said with prices and quantities alone: how much it reaches,
 how much it executes, who is left when it stops, and where the rest of it stands.
 */
module Outcomes {
  import opened BookTypes
  import opened FlatBook
  import opened BookInvariant
  import opened Ledger
  import opened PriorityLaws
  import opened QueueLaws

  /** What rests in a queue at prices a taker accepts: a buyer its limit or less, a seller its limit or more. */
  function Reachable(q: seq<OrderData>, orderType: OrderType, side: Side, limit: Price): Quantity {
    if q == [] then 0
    else
      var accepted := || orderType.Market?
                      || (side.Buy? && q[0].price <= limit)
                      || (side.Sell? && q[0].price >= limit);
      (if accepted then q[0].remaining else 0) + Reachable(q[1..], orderType, side, limit)
  }

  lemma {:induction false} SumIsReachable(q: seq<OrderData>, orderType: OrderType, side: Side, limit: Price)
    ensures Sum(q, CrossedBy(orderType, side, limit)) == Reachable(q, orderType, side, limit)
  {
    if q != [] {
      SumIsReachable(q[1..], orderType, side, limit);
    }
  }

  /** What an order has within reach is what rests on the other side at prices within its limit. */
  lemma AvailableIsReachable(st: Flat, o: OrderData)
    ensures Available(st, o) == Reachable(st.Of(o.side.Opposite()), o.orderType, o.side, o.price)
  {
    SumIsReachable(OppositeQueue(st, o), o.orderType, o.side, o.price);
  }

  /** How much an order executes: what it wants or what it reaches, and all or nothing of a limit fill-or-kill order. */
  function Executes(met: Flat, o: OrderData): Quantity {
    var reach := Reachable(met.Of(o.side.Opposite()), o.orderType, o.side, o.price);
    if o.orderType.Limit? && o.tif.FillOrKill? && reach < o.remaining then 0
    else if reach < o.remaining then reach
    else o.remaining
  }

  /**
   The book after an order has executed `n`: `n` taken from the front of the other side, on the tape too; a
   good-till-cancel limit order with something left stands in its place, of any other nothing stays.
   */
  ghost predicate Outcome(met: Flat, o: OrderData, n: Quantity, st': Flat) {
    && st'.Of(o.side.Opposite()) == Consume(met.Of(o.side.Opposite()), n)
    && Volume(st'.trades) == Volume(met.trades) + n
    && (if o.orderType.Limit? && o.tif.GoodTillCancel? && n < o.remaining then
          Placed(met.Of(o.side), o.(remaining := o.remaining - n), st'.Of(o.side))
        else st'.Of(o.side) == met.Of(o.side))
    && st'.nextId == met.nextId
  }

  /** A queue in priority order that the order is not in. */
  ghost predicate MayJoin(q: seq<OrderData>, o: OrderData) {
    !Holds(q, o.id) && forall i, j :: 0 <= i < j < |q| ==> !Better(o.side, q[j].price, q[i].price)
  }

  /** A sweep that ended as `end`, what is left of the order then resting or not. */
  lemma OutcomeOfSweep(met: Flat, o: OrderData, n: Quantity, end: Flat)
    requires n <= o.remaining
    requires end.Of(o.side) == met.Of(o.side) && end.nextId == met.nextId
    requires OppositeQueue(end, o) == Consume(OppositeQueue(met, o), n) && Volume(end.trades) == Volume(met.trades) + n
    requires MayJoin(met.Of(o.side), o)
    ensures var left := o.(remaining := o.remaining - n);
            Outcome(met, o, n, if o.orderType.Limit? && o.tif.GoodTillCancel? && n != o.remaining then Rest(end, left)
                               else end)
  {
    InsertPlaces(met.Of(o.side), o.(remaining := o.remaining - n));
  }

  lemma EnterOutcome(met: Flat, o: OrderData)
    requires Inv(met) && Fresh(met, o) && Enterable(met, o)
    ensures Outcome(met, o, Executes(met, o), Enter(met, o).0)
  {
    var (end, o') := Match(met, o);
    var n := Executable(met, o);
    assert end.Of(o.side) == met.Of(o.side) && end.nextId == met.nextId && o' == o.(remaining := o.remaining - n) by {
      MatchKeepsInv(met, o);
      SweepExecutes(met, o);
    }
    assert OppositeQueue(end, o) == Consume(OppositeQueue(met, o), n) &&
           Volume(end.trades) == Volume(met.trades) + n by {
      MatchVolume(met, o);
      MatchConsumes(met, o);
    }
    assert n == Min(o.remaining, Reachable(OppositeQueue(met, o), o.orderType, o.side, o.price)) >= 0 by {
      AvailableIsReachable(met, o);
      SumBounds(OppositeQueue(met, o), Reach(o));
    }
    assert MayJoin(met.Of(o.side), o);
    EnteredOutcome(met, o, n, end, o');
  }

  lemma EnteredOutcome(met: Flat, o: OrderData, n: Quantity, end: Flat, o': OrderData)
    requires (end, o') == Match(met, o) && o' == o.(remaining := o.remaining - n) && o.remaining > 0
    requires n == Min(o.remaining, Reachable(OppositeQueue(met, o), o.orderType, o.side, o.price)) >= 0
    requires end.Of(o.side) == met.Of(o.side) && end.nextId == met.nextId
    requires OppositeQueue(end, o) == Consume(OppositeQueue(met, o), n) && Volume(end.trades) == Volume(met.trades) + n
    requires MayJoin(met.Of(o.side), o)
    ensures Outcome(met, o, Executes(met, o), Enter(met, o).0)
  {
    if o.orderType.Limit? && o.tif.FillOrKill? && o'.remaining != 0 {
      assert Enter(met, o).0 == met && Consume(OppositeQueue(met, o), 0) == OppositeQueue(met, o);
    } else {
      OutcomeOfSweep(met, o, n, end);
    }
  }

  /** Every message that lets an order in: what it executes, and the book it leaves. */
  lemma LetInOutcome(st: Flat, msg: Message, met: Flat, o: OrderData)
    requires Inv(st) && Accepts(st, msg) && LetsIn(st, msg, met, o)
    ensures Outcome(met, o, Executes(met, o), Process(st, msg))
  {
    assert Outcome(met, o, Executes(met, o), Enter(met, o).0) by {
      LetInIsReady(st, msg, met, o);
      EnterOutcome(met, o);
    }
    OutcomeOfMessage(st, msg, met, o, Executes(met, o));
  }

  lemma OutcomeOfMessage(st: Flat, msg: Message, met: Flat, o: OrderData, n: Quantity)
    requires LetsIn(st, msg, met, o) && Outcome(met, o, n, Enter(met, o).0)
    ensures Outcome(met, o, n, Process(st, msg))
  {
    LetInEnters(st, msg, met, o);
  }

  /** A taker that stops with something wanted has left nobody it accepts: literally so. */
  ghost predicate NobodyLeft(q: seq<OrderData>, o: OrderData) {
    if o.orderType.Market? then q == []
    else if o.side.Buy? then forall m :: m in q ==> m.price > o.price
    else forall m :: m in q ==> m.price < o.price
  }

  lemma SweptClean(st: Flat, o: OrderData)
    requires Inv(st) && !CanTrade(st, o) && o.remaining != 0
    ensures NobodyLeft(OppositeQueue(st, o), o)
  {
    var q := OppositeQueue(st, o);
    forall m | m in q && o.orderType.Limit?
      ensures if o.side.Buy? then m.price > o.price else m.price < o.price
    {
      var i :| 0 <= i < |q| && q[i] == m;
      assert i == 0 || !Better(o.side.Opposite(), q[i].price, q[0].price);
    }
  }

  /**
   The other half of the limit: an order that is left with a remainder has traded with everyone within its limit, a
   market order with everyone. A limit fill-or-kill order alone does not try.
   */
  lemma NobodyWithinLimitIsLeft(st: Flat, msg: Message, met: Flat, o: OrderData)
    requires Inv(st) && Accepts(st, msg) && LetsIn(st, msg, met, o)
    requires Volume(Process(st, msg).trades) - Volume(st.trades) < o.remaining
    requires !(o.orderType.Limit? && o.tif.FillOrKill?)
    ensures NobodyLeft(Process(st, msg).Of(o.side.Opposite()), o)
  {
    LetInIsReady(st, msg, met, o);
    LetInOutcome(st, msg, met, o);
    LetInEnters(st, msg, met, o);
    var (end, o') := Match(met, o);
    assert Inv(end) && !CanTrade(end, o') && o' == o.(remaining := o'.remaining) by {
      MatchKeepsInv(met, o);
    }
    assert o'.remaining != 0 by {
      AvailableIsReachable(met, o);
      SweepExecutes(met, o);
    }
    SweptClean(end, o');
    assert OppositeQueue(Enter(met, o).0, o) == OppositeQueue(end, o);
  }

  /** A limit fill-or-kill order that does not find enough touches neither side. */
  lemma KilledTouchesNothing(st: Flat, msg: Message, met: Flat, o: OrderData)
    requires Inv(st) && Accepts(st, msg) && LetsIn(st, msg, met, o)
    requires o.orderType.Limit? && o.tif.FillOrKill?
    requires Reachable(st.Of(o.side.Opposite()), Limit, o.side, o.price) < o.remaining
    ensures Process(st, msg).bids == st.bids && Process(st, msg).asks == st.asks && Process(st, msg).trades == st.trades
  {
    assert msg.AddOrder? by {
      if msg.ModifyOrder? {
        RestingIsLimitGtc(st, msg.id);
      }
    }
    LetInIsReady(st, msg, met, o);
    AvailableIsReachable(met, o);
    SweepExecutes(met, o);
    LetInEnters(st, msg, met, o);
  }

  lemma RestingIsLimitGtc(st: Flat, id: OrderId)
    requires Inv(st) && Rests(st, id)
    ensures OrderWith(st, id).orderType.Limit? && OrderWith(st, id).tif.GoodTillCancel?
  {
  }

  /** What a cancellation takes: the order under that id, and nobody else. */
  lemma CancelTakesOne(st: Flat, msg: Message, side: Side)
    requires Inv(st) && msg.CancelOrder?
    ensures var q, q' := st.Of(side), Process(st, msg).Of(side);
            if exists i :: 0 <= i < |q| && q[i].id == msg.id
            then exists i :: 0 <= i < |q| && q[i].id == msg.id && q' == q[..i] + q[i + 1..]
            else q' == q
    ensures Process(st, msg).trades == st.trades && Process(st, msg).nextId == st.nextId
  {
    var q := st.Of(side);
    if i :| 0 <= i < |q| && q[i].id == msg.id {
      assert Holds(q, msg.id);
      NotOnBothSides(st, msg.id, side);
      CancelledSide(st, msg, side);
    } else {
      assert !Holds(q, msg.id);
      UntouchedSide(st, msg, side);
    }
  }

  lemma CancelledSide(st: Flat, msg: Message, side: Side)
    requires msg.CancelOrder? && Holds(st.Of(side), msg.id) && side == if Holds(st.bids, msg.id) then Buy else Sell
    ensures var q := st.Of(side);
            var k := Find(q, msg.id);
            k < |q| && q[k].id == msg.id && Process(st, msg).Of(side) == q[..k] + q[k + 1..]
    ensures Process(st, msg).trades == st.trades && Process(st, msg).nextId == st.nextId
  {
  }

  lemma UntouchedSide(st: Flat, msg: Message, side: Side)
    requires msg.CancelOrder? && !Holds(st.Of(side), msg.id)
    ensures Process(st, msg).Of(side) == st.Of(side)
    ensures Process(st, msg).trades == st.trades && Process(st, msg).nextId == st.nextId
  {
  }

  lemma NotOnBothSides(st: Flat, id: OrderId, side: Side)
    requires Inv(st) && Holds(st.Of(side), id)
    ensures side == if Holds(st.bids, id) then Buy else Sell
  {
  }
}
