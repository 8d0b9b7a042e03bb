/**
 The public feed and the tape. Replaying the book updates rebuilds the depth of every level, each
 execution is at once followed by the update that accounts for it, and the executions announced are
 exactly the trades recorded, all of them legal.
 */
module MarketData {
  import opened BookTypes
  import opened FlatBook
  import opened BookInvariant

  // ----- replay -----

  /** What a subscriber believes rests at a price: the last update, or nothing if there was none. */
  function Replay(es: seq<Event>, side: Side, price: Price): Quantity {
    if es == [] then 0
    else
      var n := |es| - 1;
      if es[n].BookUpdate? && es[n].side == side && es[n].level == price then es[n].depth
      else Replay(es[..n], side, price)
  }

  lemma ReplayAppend(es: seq<Event>, e: Event, side: Side, price: Price)
    ensures Replay(es + [e], side, price) ==
            if e.BookUpdate? && e.side == side && e.level == price then e.depth else Replay(es, side, price)
  {
    assert (es + [e])[..|es|] == es;
  }

  /** The feed agrees with the book at every price of both sides. */
  ghost predicate Mirrors(st: Flat) {
    forall side, price :: Replay(st.events, side, price) == Depth(st.Of(side), price)
  }

  // ----- executions -----

  /** Event `i`, if an execution, is followed by the update of its level to the depth before less the quantity. */
  predicate Accounted(es: seq<Event>, i: nat)
    requires i < |es|
  {
    es[i].TradeExecuted? ==>
      var side := es[i].aggressor.Opposite();
      && i + 1 < |es|
      && es[i + 1] == BookUpdate(side, es[i].price, Replay(es[..i], side, es[i].price) - es[i].quantity)
  }

  ghost predicate AllAccounted(es: seq<Event>) {
    forall i :: 0 <= i < |es| ==> Accounted(es, i)
  }

  lemma AccountedAppend(es: seq<Event>, more: seq<Event>)
    requires AllAccounted(es)
    requires forall i :: |es| <= i < |es + more| ==> Accounted(es + more, i)
    ensures AllAccounted(es + more)
  {
    forall i | 0 <= i < |es + more|
      ensures Accounted(es + more, i)
    {
      if i < |es| {
        assert Accounted(es, i);
        assert (es + more)[..i] == es[..i];
      }
    }
  }

  /** The executions among the events. */
  function Executions(es: seq<Event>): seq<Event> {
    if es == [] then []
    else
      var n := |es| - 1;
      Executions(es[..n]) + (if es[n].TradeExecuted? then [es[n]] else [])
  }

  function TapeEvents(trades: seq<Trade>): seq<Event> {
    if trades == [] then []
    else
      var n := |trades| - 1;
      TapeEvents(trades[..n]) + [TradeEvent(trades[n])]
  }

  lemma ExecutionsAppend(es: seq<Event>, e: Event)
    ensures Executions(es + [e]) == Executions(es) + (if e.TradeExecuted? then [e] else [])
  {
    assert (es + [e])[..|es|] == es;
  }

  lemma TapeAppend(ts: seq<Trade>, t: Trade)
    ensures TapeEvents(ts + [t]) == TapeEvents(ts) + [TradeEvent(t)]
  {
    assert (ts + [t])[..|ts|] == ts;
  }

  /** The executions announced are the tape, in order. */
  ghost predicate Announced(es: seq<Event>, ts: seq<Trade>) {
    Executions(es) == TapeEvents(ts)
  }

  /** What the public feed owes the book at every moment between two of its steps. */
  ghost predicate FeedOk(st: Flat) {
    && Mirrors(st)
    && AllAccounted(st.events)
    && Announced(st.events, st.trades)
  }

  // ----- steps -----

  lemma TradeOnceFeed(st: Flat, o: OrderData)
    requires OppositeQueue(st, o) != [] && FeedOk(st)
    ensures FeedOk(TradeOnce(st, o).0)
  {
    TradeOnceMirrors(st, o);
    TradeOnceAccounted(st, o);
    TradeOnceAnnounced(st, o);
  }

  lemma TradeOnceAnnounced(st: Flat, o: OrderData)
    requires OppositeQueue(st, o) != [] && Announced(st.events, st.trades)
    ensures Announced(TradeOnce(st, o).0.events, TradeOnce(st, o).0.trades)
  {
    var q := OppositeQueue(st, o);
    var m := q[0];
    var n := Min(o.remaining, m.remaining);
    TradeAnnounced(st.events, st.trades, TradeOf(o, m),
                   BookUpdate(o.side.Opposite(), m.price, Depth(Reduce(q, n), m.price)),
                   MakerEvent(m, m.remaining - n));
  }

  lemma TradeAnnounced(es: seq<Event>, ts: seq<Trade>, t: Trade, update: Event, maker: Event)
    requires Announced(es, ts) && !update.TradeExecuted? && !maker.TradeExecuted?
    ensures Announced(es + [TradeEvent(t), update, maker], ts + [t])
  {
    var es1, es2 := es + [TradeEvent(t)], es + [TradeEvent(t)] + [update];
    assert Executions(es1) == Executions(es) + [TradeEvent(t)] by {
      ExecutionsAppend(es, TradeEvent(t));
    }
    assert Executions(es2 + [maker]) == Executions(es1) by {
      ExecutionsAppend(es1, update);
      ExecutionsAppend(es2, maker);
    }
    assert es + [TradeEvent(t), update, maker] == es2 + [maker];
    TapeAppend(ts, t);
  }

  lemma TradeOnceMirrors(st: Flat, o: OrderData)
    requires OppositeQueue(st, o) != [] && Mirrors(st)
    ensures Mirrors(TradeOnce(st, o).0)
  {
    var q := OppositeQueue(st, o);
    var m := q[0];
    var n := Min(o.remaining, m.remaining);
    var st' := TradeOnce(st, o).0;
    var e1 := TradeEvent(TradeOf(o, m));
    var e2 := BookUpdate(o.side.Opposite(), m.price, Depth(Reduce(q, n), m.price));
    var e3 := MakerEvent(m, m.remaining - n);
    assert st'.events == st.events + [e1] + [e2] + [e3];
    forall side, price
      ensures Replay(st'.events, side, price) == Depth(st'.Of(side), price)
    {
      ReplayAppend(st.events, e1, side, price);
      ReplayAppend(st.events + [e1], e2, side, price);
      ReplayAppend(st.events + [e1] + [e2], e3, side, price);
      SumReduce(q, n, AtPrice(price));
    }
  }

  lemma TradeOnceAccounted(st: Flat, o: OrderData)
    requires OppositeQueue(st, o) != [] && Mirrors(st) && AllAccounted(st.events)
    ensures AllAccounted(TradeOnce(st, o).0.events)
  {
    var q := OppositeQueue(st, o);
    var n := Min(o.remaining, q[0].remaining);
    var es := TradeOnce(st, o).0.events;
    var k := |st.events|;
    assert es[..k] == st.events;
    SumReduce(q, n, AtPrice(q[0].price));
    assert es == st.events + es[k..];
    AccountedAppend(st.events, es[k..]);
  }

  lemma {:induction false} MatchFeed(st: Flat, o: OrderData)
    requires FeedOk(st)
    ensures FeedOk(Match(st, o).0)
    decreases |OppositeQueue(st, o)|, o.remaining != 0
  {
    if CanTrade(st, o) {
      TradeOnceFeed(st, o);
      var (st', o') := TradeOnce(st, o);
      MatchFeed(st', o');
    }
  }

  /** An event that is no execution, and an update only if it states the depth of a changed queue. */
  lemma EmitFeed(st: Flat, st': Flat, e: Event)
    requires FeedOk(st) && st'.events == st.events + [e] && st'.trades == st.trades && !e.TradeExecuted?
    requires forall side, price :: Depth(st'.Of(side), price) ==
               if e.BookUpdate? && e.side == side && e.level == price then e.depth
               else Depth(st.Of(side), price)
    ensures FeedOk(st')
  {
    forall side, price
      ensures Replay(st'.events, side, price) == Depth(st'.Of(side), price)
    {
      ReplayAppend(st.events, e, side, price);
    }
    assert Accounted(st.events + [e], |st.events|);
    AccountedAppend(st.events, [e]);
    ExecutionsAppend(st.events, e);
  }

  lemma EmitPrivate(st: Flat, e: Event)
    requires FeedOk(st) && e.Routed?
    ensures FeedOk(st.Emit([e]))
  {
    EmitFeed(st, st.Emit([e]), e);
  }

  lemma RestFeed(st: Flat, o: OrderData)
    requires FeedOk(st)
    ensures FeedOk(Rest(st, o))
  {
    var q := st.Of(o.side);
    forall side, price
      ensures Depth(Rest(st, o).Of(side), price) ==
              if side == o.side && price == o.price then Depth(Insert(q, o), price)
              else Depth(st.Of(side), price)
    {
      SumInsert(q, o, AtPrice(price));
    }
    EmitFeed(st, Rest(st, o), BookUpdate(o.side, o.price, Depth(Insert(q, o), o.price)));
  }

  lemma WithdrawFeed(st: Flat, id: OrderId)
    requires FeedOk(st) && Rests(st, id)
    ensures FeedOk(Withdraw(st, id))
  {
    var gone := if Holds(st.bids, id) then Buy else Sell;
    var q := st.Of(gone);
    var k := Find(q, id);
    var st' := Withdraw(st, id);
    forall side, price
      ensures Depth(st'.Of(side), price) ==
              if side == gone && price == q[k].price then Depth(q[..k] + q[k + 1..], price)
              else Depth(st.Of(side), price)
    {
      SumDrop(q, k, AtPrice(price));
    }
    EmitFeed(st, st', BookUpdate(gone, q[k].price, Depth(q[..k] + q[k + 1..], q[k].price)));
  }

  lemma EnterFeed(st: Flat, o: OrderData)
    requires FeedOk(st)
    ensures FeedOk(Enter(st, o).0)
  {
    MatchFeed(st, o);
    var (st', o') := Match(st, o);
    RestFeed(st', o');
  }

  lemma AddFeed(st: Flat, msg: Message)
    requires FeedOk(st) && msg.AddOrder?
    ensures FeedOk(Process(st, msg))
  {
    var st0, o := st.(nextId := st.nextId + 1), OrderOf(msg, st.nextId);
    assert FeedOk(st0) by {
      SameFeed(st, st0);
    }
    EnterFeed(st0, o);
    ProcessAddIs(st, msg, Enter(st0, o));
    EmitPrivate(Enter(st0, o).0, Routed(msg.conn, AddEvent(msg, st.nextId, Enter(st0, o).1)));
  }

  lemma SameFeed(st: Flat, st': Flat)
    requires FeedOk(st) && st' == st.(nextId := st'.nextId)
    ensures FeedOk(st')
  {
    forall side, price
      ensures Replay(st'.events, side, price) == Depth(st'.Of(side), price)
    {
      assert st'.Of(side) == st.Of(side);
    }
  }

  lemma ModifyFeed(st: Flat, msg: Message)
    requires FeedOk(st) && msg.ModifyOrder? && Rests(st, msg.id)
    ensures FeedOk(Process(st, msg))
  {
    var st1 := Withdraw(st, msg.id);
    var o := Replacement(OrderWith(st, msg.id), msg.newPrice, msg.newQuantity);
    var e := Routed(msg.conn, OrderModified(msg.id, msg.newPrice, msg.newQuantity));
    WithdrawFeed(st, msg.id);
    EnterFeed(st1, o);
    EmitPrivate(Enter(st1, o).0, e);
    assert Process(st, msg) == Enter(st1, o).0.Emit([e]);
  }

  lemma ProcessFeed(st: Flat, msg: Message)
    requires FeedOk(st)
    ensures FeedOk(Process(st, msg))
  {
    match msg
    case AddOrder(_, _, _, _, _, _, _, _) => AddFeed(st, msg);
    case CancelOrder(id, conn, _) =>
      if Rests(st, id) {
        WithdrawFeed(st, id);
        EmitPrivate(Withdraw(st, id), Routed(conn, OrderCanceled(id)));
      } else {
        EmitPrivate(st, Routed(conn, CancelRejected(id, InvalidOrderId)));
      }
    case ModifyOrder(id, _, _, conn, _) =>
      if Rests(st, id) {
        ModifyFeed(st, msg);
      } else {
        EmitPrivate(st, Routed(conn, ModifyRejected(id, InvalidOrderId)));
      }
  }

  lemma {:induction false} RunFeed(st: Flat, msgs: seq<Message>)
    requires FeedOk(st)
    ensures FeedOk(Run(st, msgs))
    decreases |msgs|
  {
    if msgs != [] {
      ProcessFeed(st, msgs[0]);
      RunFeed(Process(st, msgs[0]), msgs[1..]);
    }
  }

  // ----- what a subscriber may rely on -----

  /** After every run, the replayed depth of every price on either side is the depth of the book. */
  lemma ReplayRebuildsDepth(msgs: seq<Message>, side: Side, price: Price)
    ensures var st := Run(EMPTY, msgs);
            Replay(st.events, side, price) == Depth(st.Of(side), price)
  {
    RunFeed(EMPTY, msgs);
  }

  /** Every execution is followed by the update that takes its quantity off the depth last announced. */
  lemma ExecutionsAreAccounted(msgs: seq<Message>, i: nat)
    requires i < |Run(EMPTY, msgs).events|
    ensures Accounted(Run(EMPTY, msgs).events, i)
  {
    RunFeed(EMPTY, msgs);
  }

  /** The executions announced are the tape, in order: who bought, who sold, at what price, how much, who took. */
  lemma ExecutionsAreTheTape(msgs: seq<Message>)
    ensures |Executions(Run(EMPTY, msgs).events)| == |Run(EMPTY, msgs).trades|
    ensures forall i :: 0 <= i < |Run(EMPTY, msgs).trades| ==>
      var e, t := Executions(Run(EMPTY, msgs).events)[i], Run(EMPTY, msgs).trades[i];
      && e.TradeExecuted? && e.buyerId == t.buyer.id && e.sellerId == t.seller.id
      && e.price == t.price && e.quantity == t.quantity && e.aggressor == t.aggressor
  {
    RunFeed(EMPTY, msgs);
    TapeEventsAt(Run(EMPTY, msgs).trades);
  }

  lemma {:induction false} TapeEventsAt(ts: seq<Trade>)
    ensures |TapeEvents(ts)| == |ts|
    ensures forall i :: 0 <= i < |ts| ==> TapeEvents(ts)[i] == TradeEvent(ts[i])
  {
    if ts != [] {
      var n := |ts| - 1;
      TapeEventsAt(ts[..n]);
    }
  }
}
