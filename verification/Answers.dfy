/**
 Who is told what, event by event: the public execution and update of every fill, the event its maker hears on its own
 connection, and the one event with which every message is answered.
 */
module Answers {
  import opened BookTypes
  import opened FlatBook
  import opened BookInvariant
  import opened PriorityLaws
  import opened Outcomes

  // ----- fills -----

  /**
   The three events of the fill of maker `m` by `n` units of the taker `o`: who bought and who sold, what the book
   has left at that price, and what the maker hears: filled, or how much of it still rests.
   */
  predicate FillTold(o: OrderData, m: OrderData, n: Quantity, execution: Event, update: Event, toMaker: Event) {
    && execution == (if o.side.Buy? then TradeExecuted(o.id, m.id, m.price, n, Buy)
                     else TradeExecuted(m.id, o.id, m.price, n, Sell))
    && update.BookUpdate? && update.side != o.side && update.level == m.price
    && toMaker == Routed(m.conn, if n == m.remaining then OrderFilled(m.id, m.clientId)
                                 else OrderRested(m.id, m.clientId, m.remaining - n))
  }

  /** How much the `i`-th maker of a queue gives a taker of `n`. */
  function Given(q: seq<OrderData>, n: Quantity, i: nat): Quantity
    requires i < |q|
  {
    if n - Ahead(q, i) < q[i].remaining then n - Ahead(q, i) else q[i].remaining
  }

  /** From position `base` on, `es` tells of a taker of `n` served by the first `k` makers of `q`, in order. */
  ghost predicate FillsTold(es: seq<Event>, base: nat, o: OrderData, q: seq<OrderData>, n: Quantity, k: nat) {
    && k <= |q| && base + 3 * k <= |es|
    && forall i :: 0 <= i < k ==>
         FillTold(o, q[i], Given(q, n, i), es[base + 3 * i], es[base + 3 * i + 1], es[base + 3 * i + 2])
  }

  /** The makers served are those with less than `n` before them. */
  ghost predicate ServedCount(q: seq<OrderData>, n: Quantity, k: nat) {
    k <= |q| && forall i :: 0 <= i < |q| ==> (i < k <==> Ahead(q, i) < n)
  }

  lemma FirstFillTold(st: Flat, o: OrderData)
    requires OppositeQueue(st, o) != []
    ensures var m := OppositeQueue(st, o)[0];
            var es, b := TradeOnce(st, o).0.events, |st.events|;
            && |es| == b + 3 && st.events <= es
            && FillTold(o, m, if o.remaining < m.remaining then o.remaining else m.remaining,
                        es[b], es[b + 1], es[b + 2])
  {
  }

  lemma GivenNext(q: seq<OrderData>, n: Quantity, i: nat)
    requires 0 < i < |q|
    ensures Given(q, n, i) == Given(q[1..], n - q[0].remaining, i - 1)
    ensures Ahead(q, i) == q[0].remaining + Ahead(q[1..], i - 1)
  {
    AheadStep(q, i - 1);
    assert q[1..][i - 1] == q[i];
  }

  /** The fills of a sweep that goes on behind its first maker. */
  lemma FillsOnward(es: seq<Event>, base: nat, o: OrderData, left: Quantity, q: seq<OrderData>, n: Quantity, k: nat)
    requires q != [] && base + 3 <= |es|
    requires FillTold(o, q[0], Given(q, n, 0), es[base], es[base + 1], es[base + 2])
    requires FillsTold(es, base + 3, o.(remaining := left), q[1..], n - q[0].remaining, k)
    ensures FillsTold(es, base, o, q, n, k + 1)
  {
    forall i | 0 <= i < k + 1
      ensures FillTold(o, q[i], Given(q, n, i), es[base + 3 * i], es[base + 3 * i + 1], es[base + 3 * i + 2])
    {
      if i > 0 {
        GivenNext(q, n, i);
        var j := i - 1;
        assert FillTold(o.(remaining := left), q[1..][j], Given(q[1..], n - q[0].remaining, j),
                        es[base + 3 + 3 * j], es[base + 3 + 3 * j + 1], es[base + 3 + 3 * j + 2]);
      }
    }
  }

  /** A sweep that tells of the fills by which the tape takes `n` from `q`, and of nothing else. */
  ghost predicate SweepTold(before: seq<Event>, o: OrderData, q: seq<OrderData>, n: Quantity, es: seq<Event>) {
    var k := |Tape(o, q, n)|;
    before <= es && |es| == |before| + 3 * k && FillsTold(es, |before|, o, q, n, k)
  }

  /** One fill, told, and then the rest of the sweep. */
  lemma SweepToldOnward(before: seq<Event>, o: OrderData, q: seq<OrderData>, n: Quantity,
                        o1: OrderData, q1: seq<OrderData>, n1: Quantity, middle: seq<Event>, es: seq<Event>)
    requires q != [] && q[0].remaining > 0 && 0 < o.remaining && 0 <= n1 && n <= o.remaining
    requires var taken := Min(o.remaining, q[0].remaining);
             && q1 == Reduce(q, taken) && n1 == n - taken && o1 == o.(remaining := o.remaining - taken)
             && |middle| == |before| + 3 && before <= middle
             && FillTold(o, q[0], taken, middle[|before|], middle[|before| + 1], middle[|before| + 2])
    requires SweepTold(middle, o1, q1, n1, es)
    ensures SweepTold(before, o, q, n, es)
  {
    var taken := Min(o.remaining, q[0].remaining);
    ConsumeFirst(o, q, n, taken, o1, q1, n1);
    assert Given(q, n, 0) == taken;
    var k1 := |Tape(o1, q1, n1)|;
    assert |Tape(o, q, n)| == k1 + 1;
    if taken == q[0].remaining {
      FillsOnward(es, |before|, o, o.remaining - taken, q, n, k1);
    } else {
      assert n1 == 0 && k1 == 0;
    }
  }

  lemma {:induction false} MatchTells(st: Flat, o: OrderData)
    requires Inv(st) && Fresh(st, o) && o.remaining >= 0
    ensures SweepTold(st.events, o, OppositeQueue(st, o), Executable(st, o), Match(st, o).0.events)
    decreases |OppositeQueue(st, o)|, o.remaining != 0
  {
    var q := OppositeQueue(st, o);
    if CanTrade(st, o) {
      var (st1, o1) := TradeOnce(st, o);
      assert Swept(st, o, st1, o1) by {
        TradeOnceKeepsInv(st, o);
      }
      MatchTells(st1, o1);
      ExecutableStep(st, o);
      FirstFillTold(st, o);
      SweepToldOnward(st.events, o, q, Executable(st, o), o1, OppositeQueue(st1, o1), Executable(st1, o1),
                      st1.events, Match(st1, o1).0.events);
    } else {
      NothingToConsume(st, o);
    }
  }

  // ----- what a message that lets an order in tells about fills -----

  /** The events of a message, behind those of the book its order meets: one fill after the other. */
  ghost predicate MakersTold(met: Flat, o: OrderData, n: Quantity, st': Flat) {
    var q, k := met.Of(o.side.Opposite()), |st'.trades| - |met.trades|;
    && met.events <= st'.events && 0 <= k && ServedCount(q, n, k)
    && FillsTold(st'.events, |met.events|, o, q, n, k)
  }

  lemma TapeCounts(o: OrderData, q: seq<OrderData>, n: Quantity)
    requires n >= 0 && forall i :: 0 <= i < |q| ==> q[i].remaining > 0
    ensures ServedCount(q, n, |Tape(o, q, n)|)
  {
    TapeAt(o, q, n);
  }

  lemma EnterTells(met: Flat, o: OrderData)
    requires Inv(met) && Fresh(met, o) && Enterable(met, o)
    ensures MakersTold(met, o, Executes(met, o), Enter(met, o).0)
  {
    var q, n := OppositeQueue(met, o), Executable(met, o);
    var end := Match(met, o).0;
    AvailableIsReachable(met, o);
    assert 0 <= n && Match(met, o).1.remaining == o.remaining - n by {
      SumBounds(q, Reach(o));
      SweepExecutes(met, o);
    }
    assert end.trades == met.trades + Tape(o, q, n) by {
      MatchConsumes(met, o);
    }
    MatchTells(met, o);
    TapeCounts(o, q, n);
    TapeCounts(o, q, 0);
    EnteredTells(met, o, n, end);
  }

  lemma EnteredTells(met: Flat, o: OrderData, n: Quantity, end: Flat)
    requires end == Match(met, o).0 && Match(met, o).1.remaining == o.remaining - n && o.remaining > 0 && n >= 0
    requires n == Min(o.remaining, Reachable(OppositeQueue(met, o), o.orderType, o.side, o.price))
    requires end.trades == met.trades + Tape(o, OppositeQueue(met, o), n)
    requires SweepTold(met.events, o, OppositeQueue(met, o), n, end.events)
    requires ServedCount(OppositeQueue(met, o), n, |Tape(o, OppositeQueue(met, o), n)|)
    requires ServedCount(OppositeQueue(met, o), 0, |Tape(o, OppositeQueue(met, o), 0)|)
    ensures MakersTold(met, o, Executes(met, o), Enter(met, o).0)
  {
    var st' := Enter(met, o).0;
    EnterGoesOn(met, o, end, n);
    if !(o.orderType.Limit? && o.tif.FillOrKill? && n != o.remaining) {
      ToldStill(end.events, st'.events, |met.events|, o, OppositeQueue(met, o), n, |Tape(o, OppositeQueue(met, o), n)|);
    }
  }

  lemma EnterGoesOn(met: Flat, o: OrderData, end: Flat, n: Quantity)
    requires end == Match(met, o).0 && Match(met, o).1.remaining == o.remaining - n && o.remaining > 0
    requires n == Min(o.remaining, Reachable(OppositeQueue(met, o), o.orderType, o.side, o.price))
    ensures var st' := Enter(met, o).0;
            if o.orderType.Limit? && o.tif.FillOrKill? && n != o.remaining then st' == met && Executes(met, o) == 0
            else Executes(met, o) == n && end.events <= st'.events && st'.trades == end.trades
  {
  }

  lemma ToldStill(es: seq<Event>, es': seq<Event>, base: nat, o: OrderData, q: seq<OrderData>, n: Quantity, k: nat)
    requires FillsTold(es, base, o, q, n, k) && es <= es'
    ensures FillsTold(es', base, o, q, n, k)
  {
    forall i | 0 <= i < k
      ensures FillTold(o, q[i], Given(q, n, i), es'[base + 3 * i], es'[base + 3 * i + 1], es'[base + 3 * i + 2])
    {
      assert FillTold(o, q[i], Given(q, n, i), es[base + 3 * i], es[base + 3 * i + 1], es[base + 3 * i + 2]);
    }
  }

  /**
   Every message that lets an order in: one fill for every maker with less than the executed quantity before it, each
   told by its three events, in the makers' order.
   */
  lemma EveryMakerIsTold(st: Flat, msg: Message, met: Flat, o: OrderData)
    requires Inv(st) && Accepts(st, msg) && LetsIn(st, msg, met, o)
    ensures MakersTold(met, o, Executes(met, o), Process(st, msg))
  {
    LetInIsReady(st, msg, met, o);
    EnterTells(met, o);
    LetInEnters(st, msg, met, o);
    var k := |Process(st, msg).trades| - |met.trades|;
    ToldStill(Enter(met, o).0.events, Process(st, msg).events, |met.events|, o, OppositeQueue(met, o),
              Executes(met, o), k);
  }

  // ----- the answer -----

  function LastEvent(st: Flat, msg: Message): Event
    requires Process(st, msg).events != []
  {
    Process(st, msg).events[|Process(st, msg).events| - 1]
  }

  /** The sender of a message hears `e`, last of all the message causes. */
  predicate Answered(st: Flat, msg: Message, e: PrivateEvent) {
    Process(st, msg).events != [] && LastEvent(st, msg) == Routed(msg.conn, e)
  }

  /**
   What the sender of a new order hears, case by case, by how much rests within its limit: filled if that is enough;
   else rejected if it is a limit fill-or-kill order or a market order that meets nobody; else told what rests if it is
   good till cancelled; else expired.
   */
  lemma AddIsAnswered(st: Flat, msg: Message)
    requires Inv(st) && msg.AddOrder? && Accepts(st, msg)
    ensures AnsweredByReach(st, msg, Reachable(st.Of(msg.side.Opposite()), msg.orderType, msg.side, msg.price))
    ensures Process(st, msg).nextId == st.nextId + 1
  {
    var st0, o := st.(nextId := st.nextId + 1), OrderOf(msg, st.nextId);
    var reach := Reachable(st.Of(msg.side.Opposite()), msg.orderType, msg.side, msg.price);
    NewOrderMayEnter(st, msg);
    assert Available(st0, o) == reach >= 0 by {
      AvailableIsReachable(st0, o);
      SumBounds(OppositeQueue(st0, o), Reach(o));
    }
    assert Match(st0, o).1.remaining == o.remaining - Min(o.remaining, reach) by {
      SweepExecutes(st0, o);
    }
    assert Enter(st0, o).0.nextId == st0.nextId by {
      EnterKeepsInv(st0, o);
    }
    AddAnswer(st, msg, Enter(st0, o), reach);
  }

  /** Which event the sender of a new order hears when it is answered as one of four cases. */
  ghost predicate AnsweredByReach(st: Flat, msg: Message, reach: Quantity)
    requires msg.AddOrder?
  {
    var kill := (msg.orderType.Limit? && msg.tif.FillOrKill?) || (msg.orderType.Market? && reach == 0);
    var id, short := st.nextId, reach < msg.quantity;
    && (Answered(st, msg, OrderFilled(id, msg.clientId)) <==> !short)
    && (Answered(st, msg, OrderRejected(id, NoLiquidity)) <==> short && kill)
    && (Answered(st, msg, OrderRested(id, msg.clientId, msg.quantity - reach)) <==>
          short && !kill && msg.tif.GoodTillCancel?)
    && (Answered(st, msg, OrderExpired(id, msg.clientId)) <==>
          short && !kill && !msg.tif.GoodTillCancel?)
  }

  lemma AddAnswer(st: Flat, msg: Message, entered: (Flat, AddOrderResult), reach: Quantity)
    requires msg.AddOrder? && msg.quantity > 0 && reach >= 0
    requires var st0, o := st.(nextId := st.nextId + 1), OrderOf(msg, st.nextId);
             && entered == Enter(st0, o) && entered.0.nextId == st0.nextId
             && Match(st0, o).1.remaining == o.remaining - Min(o.remaining, reach)
    ensures AnsweredByReach(st, msg, reach) && Process(st, msg).nextId == st.nextId + 1
  {
    ProcessAddIs(st, msg, entered);
    AnswerIsLast(st, msg, entered.0.events, AddEvent(msg, st.nextId, entered.1));
    ResultOfEntry(st.(nextId := st.nextId + 1), OrderOf(msg, st.nextId), reach);
  }

  lemma AnswerIsLast(st: Flat, msg: Message, es: seq<Event>, e: PrivateEvent)
    requires Process(st, msg).events == es + [Routed(msg.conn, e)]
    ensures forall e' :: Answered(st, msg, e') <==> e' == e
  {
  }

  lemma ResultOfEntry(st: Flat, o: OrderData, reach: Quantity)
    requires o.remaining > 0 && reach >= 0
    requires Match(st, o).1.remaining == o.remaining - Min(o.remaining, reach)
    ensures var r := Enter(st, o).1;
            && (reach >= o.remaining <==> r.status.FullyFilled?)
            && (reach < o.remaining ==>
                  r.remaining == o.remaining - (if o.orderType.Limit? && o.tif.FillOrKill? then 0 else reach))
            && (reach < o.remaining && o.orderType.Limit? && o.tif.FillOrKill? ==> r.status.Rejected?)
            && (reach < o.remaining && o.orderType.Limit? && !o.tif.FillOrKill? ==>
                  r.status == if reach == 0 then Resting else PartiallyFilled)
            && (reach < o.remaining && o.orderType.Market? ==>
                  r.status == if reach == 0 then Rejected else PartiallyFilled)
  {
  }

  /** What the sender of a cancellation hears, decided by whether the order rests; if not, nothing else happens. */
  lemma CancelIsAnswered(st: Flat, msg: Message)
    requires msg.CancelOrder?
    ensures Answered(st, msg, OrderCanceled(msg.id)) <==> Rests(st, msg.id)
    ensures Answered(st, msg, CancelRejected(msg.id, InvalidOrderId)) <==> !Rests(st, msg.id)
    ensures !Rests(st, msg.id) ==>
      Process(st, msg) == st.(events := st.events + [Routed(msg.conn, CancelRejected(msg.id, InvalidOrderId))])
    ensures Rests(st, msg.id) ==> |Process(st, msg).events| == |st.events| + 2 && st.events <= Process(st, msg).events
  {
  }

  /** The same of a modification. */
  lemma ModifyIsAnswered(st: Flat, msg: Message)
    requires msg.ModifyOrder?
    ensures Answered(st, msg, OrderModified(msg.id, msg.newPrice, msg.newQuantity)) <==> Rests(st, msg.id)
    ensures Answered(st, msg, ModifyRejected(msg.id, InvalidOrderId)) <==> !Rests(st, msg.id)
    ensures !Rests(st, msg.id) ==>
      Process(st, msg) == st.(events := st.events + [Routed(msg.conn, ModifyRejected(msg.id, InvalidOrderId))])
  {
  }
}
