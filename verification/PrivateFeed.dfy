/**
 The private events about each order, as its owner's connection hears them and as everyone's connections
 together do: an automaton read off the events, orderly in every run, and the exact condition under which it
 tells the quantity that really rests on the book.
 */
module PrivateFeed {
  import opened BookTypes
  import opened FlatBook
  import opened BookInvariant
  import opened Ledger

  /** Whose events are listened to: one connection's, as the engine routes them, or everyone's together. */
  datatype Listener = Everyone | Client(conn: int)

  predicate Hears(l: Listener, conn: int) {
    l.Everyone? || l.conn == conn
  }

  /** What a listener has been told about an order. */
  datatype Feed = Unheard | Live(remaining: Quantity) | Ended | Broken

  /**
   The protocol of the private events about one order: remainders shrink, one last word, silence
   afterwards. `Broken` records a breach.
   */
  function Hear(f: Feed, e: PrivateEvent): Feed {
    match e
    case OrderRested(_, _, r) => if f.Unheard? || (f.Live? && r < f.remaining) then Live(r) else Broken
    case OrderFilled(_, _) | OrderExpired(_, _) | OrderRejected(_, _) | OrderCanceled(_) =>
      if f.Unheard? || f.Live? then Ended else Broken
    case OrderModified(_, _, q) => if f.Live? then Live(q) else Broken
    case CancelRejected(_, _) | ModifyRejected(_, _) => f
  }

  function After(f: Feed, e: Event, id: OrderId, l: Listener): Feed {
    if e.Routed? && e.event.id == id && Hears(l, e.conn) then Hear(f, e.event) else f
  }

  function FeedOf(es: seq<Event>, id: OrderId, l: Listener): Feed {
    if es == [] then Unheard
    else
      var n := |es| - 1;
      After(FeedOf(es[..n], id, l), es[n], id, l)
  }

  lemma FeedAppend(es: seq<Event>, e: Event, id: OrderId, l: Listener)
    ensures FeedOf(es + [e], id, l) == After(FeedOf(es, id, l), e, id, l)
  {
    assert (es + [e])[..|es|] == es;
  }

  function Told(es: seq<Event>, id: OrderId, l: Listener): Quantity {
    var f := FeedOf(es, id, l);
    if f.Live? then f.remaining else 0
  }

  /** The feed of `id` is in protocol and never understates what rests. */
  predicate Orderly(st: Flat, id: OrderId, l: Listener) {
    var f := FeedOf(st.events, id, l);
    && !f.Broken?
    && (id >= st.nextId ==> f.Unheard?)
    && (Held(st, id) > 0 ==> f.Live? && Held(st, id) <= f.remaining)
  }

  /** The listener is the owner of every order resting under `id`, or hears everyone. */
  ghost predicate Owned(st: Flat, id: OrderId, l: Listener) {
    OwnedIn(st.bids, id, l) && OwnedIn(st.asks, id, l)
  }

  ghost predicate OwnedIn(q: seq<OrderData>, id: OrderId, l: Listener) {
    forall i :: 0 <= i < |q| && q[i].id == id ==> Hears(l, q[i].conn)
  }

  /** The feed of `id` tells exactly how much rests. */
  predicate TellsQuantity(st: Flat, id: OrderId, l: Listener) {
    Told(st.events, id, l) == Held(st, id)
  }

  // ----- sweeps -----

  lemma FirstMakerHeld(st: Flat, side: Side)
    requires Inv(st) && st.Of(side) != []
    ensures Held(st, st.Of(side)[0].id) == st.Of(side)[0].remaining > 0
  {
    var q := st.Of(side);
    SumNone(q[1..], WithId(q[0].id));
    SumNone(st.Of(side.Opposite()), WithId(q[0].id));
  }

  lemma TradeOnceHeard(st: Flat, o: OrderData, id: OrderId, l: Listener)
    requires Inv(st) && Fresh(st, o) && o.remaining > 0 && CanTrade(st, o)
    ensures var st' := TradeOnce(st, o).0;
            var m := OppositeQueue(st, o)[0];
            var n := Min(o.remaining, m.remaining);
            && FeedOf(st'.events, id, l) == After(FeedOf(st.events, id, l), MakerEvent(m, m.remaining - n), id, l)
            && Held(st', id) == Held(st, id) - (if m.id == id then n else 0)
            && m.id != o.id
  {
    var q := OppositeQueue(st, o);
    var m := q[0];
    var n := Min(o.remaining, m.remaining);
    var e1 := TradeEvent(TradeOf(o, m));
    var e2 := BookUpdate(o.side.Opposite(), m.price, Depth(Reduce(q, n), m.price));
    FeedAppend(st.events, e1, id, l);
    FeedAppend(st.events + [e1], e2, id, l);
    FeedAppend(st.events + [e1] + [e2], MakerEvent(m, m.remaining - n), id, l);
    assert TradeOnce(st, o).0.events == st.events + [e1] + [e2] + [MakerEvent(m, m.remaining - n)];
    SumReduce(q, n, WithId(id));
  }

  lemma TradeOnceOwned(st: Flat, o: OrderData, id: OrderId, l: Listener)
    requires OppositeQueue(st, o) != [] && Owned(st, id, l)
    ensures Owned(TradeOnce(st, o).0, id, l)
  {
    var q := OppositeQueue(st, o);
    var q' := Reduce(q, Min(o.remaining, q[0].remaining));
    assert forall i :: 0 <= i < |q'| ==>
      q'[i].id == q[i + |q| - |q'|].id && q'[i].conn == q[i + |q| - |q'|].conn;
    assert OwnedIn(q, id, l) && OwnedIn(q', id, l);
  }

  /** What one fill, and hence a sweep, does to the feed and the holding of an id. */
  ghost predicate Carried(st: Flat, o: OrderData, id: OrderId, l: Listener, st': Flat) {
    && Owned(st', id, l) && Orderly(st', id, l)
    && (TellsQuantity(st, id, l) ==> TellsQuantity(st', id, l))
    && (id == o.id ==> FeedOf(st'.events, id, l) == FeedOf(st.events, id, l))
  }

  lemma TradeOnceCarries(st: Flat, o: OrderData, id: OrderId, l: Listener)
    requires Inv(st) && Fresh(st, o) && o.remaining > 0 && CanTrade(st, o) && Owned(st, id, l) && Orderly(st, id, l)
    ensures Carried(st, o, id, l, TradeOnce(st, o).0)
  {
    TradeOnceHeard(st, o, id, l);
    TradeOnceOwned(st, o, id, l);
    FirstMakerHeld(st, o.side.Opposite());
  }

  lemma {:induction false} MatchHeard(st: Flat, o: OrderData, id: OrderId, l: Listener)
    requires Inv(st) && Fresh(st, o) && o.remaining >= 0 && Owned(st, id, l) && Orderly(st, id, l)
    ensures Carried(st, o, id, l, Match(st, o).0)
    decreases |OppositeQueue(st, o)|, o.remaining != 0
  {
    if CanTrade(st, o) {
      var (st1, o1) := TradeOnce(st, o);
      assert Swept(st, o, st1, o1) by {
        TradeOnceKeepsInv(st, o);
      }
      TradeOnceCarries(st, o, id, l);
      MatchHeard(st1, o1, id, l);
    }
  }

  // ----- operations -----

  /** What entering an order does to the feed and the holding of every id, its own included. */
  ghost predicate EnteredHeard(st: Flat, o: OrderData, id: OrderId, l: Listener, st': Flat) {
    && Owned(st', id, l)
    && (id != o.id ==> Orderly(st', id, l) && (TellsQuantity(st, id, l) ==> TellsQuantity(st', id, l)))
    && (id == o.id ==>
          && FeedOf(st'.events, id, l) == FeedOf(st.events, id, l)
          && Held(st', id) == if o.orderType.Limit? && o.tif.GoodTillCancel?
                              then o.remaining - Min(o.remaining, Available(st, o)) else 0)
  }

  lemma EnterHeard(st: Flat, o: OrderData, id: OrderId, l: Listener)
    requires Inv(st) && Fresh(st, o) && Enterable(st, o) && Owned(st, id, l) && Orderly(st, id, l)
    requires id == o.id ==> Hears(l, o.conn)
    ensures EnteredHeard(st, o, id, l, Enter(st, o).0)
  {
    var sw := Match(st, o);
    assert Carried(st, o, id, l, sw.0) by {
      MatchHeard(st, o, id, l);
    }
    assert Held(sw.0, o.id) == 0 && sw.1 == o.(remaining := sw.1.remaining) by {
      MatchKeepsInv(st, o);
      HeldNone(sw.0, o.id);
    }
    assert sw.1.remaining == o.remaining - Min(o.remaining, Available(st, o)) by {
      SweepExecutes(st, o);
    }
    assert Held(st, o.id) == 0 by {
      HeldNone(st, o.id);
    }
    SweepThenRest(st, o, id, l, sw);
  }

  /** A sweep that hid nothing, and then resting or not. */
  lemma SweepThenRest(st: Flat, o: OrderData, id: OrderId, l: Listener, sw: (Flat, OrderData))
    requires sw == Match(st, o) && Carried(st, o, id, l, sw.0)
    requires Owned(st, id, l) && Orderly(st, id, l) && (id == o.id ==> Hears(l, o.conn))
    requires sw.1 == o.(remaining := o.remaining - Min(o.remaining, Available(st, o)))
    requires Held(st, o.id) == 0 && Held(sw.0, o.id) == 0
    ensures EnteredHeard(st, o, id, l, Enter(st, o).0)
  {
    var st' := Enter(st, o).0;
    assert st' == st || st' == sw.0 || st' == Rest(sw.0, sw.1);
    if st' == Rest(sw.0, sw.1) {
      RestHeard(sw.0, sw.1, id, l);
      RestOwned(sw.0, sw.1, id, l);
    }
  }

  lemma RestOwned(st: Flat, o: OrderData, id: OrderId, l: Listener)
    requires Owned(st, id, l) && (id == o.id ==> Hears(l, o.conn))
    ensures Owned(Rest(st, o), id, l)
  {
    var q := st.Of(o.side);
    InsertAt(q, o);
    assert OwnedIn(q, id, l);
    assert OwnedIn(Insert(q, o), id, l);
  }

  /** Resting tells nobody anything, and adds to the holding of the order that rests. */
  lemma RestHeard(st: Flat, o: OrderData, id: OrderId, l: Listener)
    ensures FeedOf(Rest(st, o).events, id, l) == FeedOf(st.events, id, l)
    ensures Held(Rest(st, o), id) == Held(st, id) + (if o.id == id then o.remaining else 0)
  {
    var q := st.Of(o.side);
    SumInsert(q, o, WithId(id));
    FeedAppend(st.events, BookUpdate(o.side, o.price, Depth(Insert(q, o), o.price)), id, l);
  }

  lemma WithdrawHeard(st: Flat, target: OrderId, id: OrderId, l: Listener)
    requires Inv(st) && Rests(st, target) && Owned(st, id, l) && Orderly(st, id, l)
    ensures var st' := Withdraw(st, target);
            && FeedOf(st'.events, id, l) == FeedOf(st.events, id, l)
            && Held(st', id) == (if target == id then 0 else Held(st, id))
            && Held(st, target) == OrderWith(st, target).remaining > 0
            && Owned(st', id, l) && Orderly(st', id, l)
  {
    var st' := Withdraw(st, target);
    assert Held(st', id) == (if target == id then 0 else Held(st, id)) by {
      WithdrawConserves(st, target, id);
    }
    assert Held(st, target) == OrderWith(st, target).remaining > 0 by {
      HeldSome(st, target);
    }
    WithdrawOwned(st, target, id, l);
    var side := if Holds(st.bids, target) then Buy else Sell;
    var e := st'.events[|st.events|];
    assert st'.events == st.events + [e] && e.BookUpdate?;
    FeedAppend(st.events, e, id, l);
  }

  lemma WithdrawOwned(st: Flat, target: OrderId, id: OrderId, l: Listener)
    requires Rests(st, target) && Owned(st, id, l)
    ensures Owned(Withdraw(st, target), id, l)
  {
    var q := if Holds(st.bids, target) then st.bids else st.asks;
    var k := Find(q, target);
    DropOwned(q, k, id, l);
  }

  lemma DropOwned(q: seq<OrderData>, k: nat, id: OrderId, l: Listener)
    requires OwnedIn(q, id, l) && k < |q|
    ensures OwnedIn(q[..k] + q[k + 1..], id, l)
  {
    var q' := q[..k] + q[k + 1..];
    assert forall i :: 0 <= i < |q'| ==> q'[i] == q[if i < k then i else i + 1];
  }

  /** One order rests under an id at most, so what the id holds is what the order has left. */
  lemma HeldSome(st: Flat, id: OrderId)
    requires Inv(st) && Rests(st, id)
    ensures Held(st, id) == OrderWith(st, id).remaining > 0
  {
    var q, p := if Holds(st.bids, id) then st.bids else st.asks, if Holds(st.bids, id) then st.asks else st.bids;
    var k := Find(q, id);
    SumDrop(q, k, WithId(id));
    OthersHoldNothing(q, k, id);
    assert Sum(p, WithId(id)) == 0 by {
      SumNone(p, WithId(id));
    }
  }

  lemma OthersHoldNothing(q: seq<OrderData>, k: nat, id: OrderId)
    requires k < |q| && q[k].id == id && forall i, j :: 0 <= i < j < |q| ==> q[i].id != q[j].id
    ensures Sum(q[..k] + q[k + 1..], WithId(id)) == 0
  {
    var q' := q[..k] + q[k + 1..];
    assert forall i :: 0 <= i < |q'| ==> q'[i] == q[if i < k then i else i + 1];
    SumNone(q', WithId(id));
  }

  // ----- messages -----

  /**
   Where the feed tells the quantity after a message: a market order tagged good-till-cancel is not filled in part; a
   cancellation of a resting order is heard by the listener; a replacement leaves resting what the listener
   believes, which is the quantity asked for if the listener hears of it, and else what rested before.
   */
  predicate KeepsQuantity(st: Flat, msg: Message, l: Listener) {
    match msg
    case AddOrder(orderType, tif, _, _, quantity, _, _, _) =>
      !(orderType.Market? && tif.GoodTillCancel? &&
        0 < Available(st, OrderOf(msg, st.nextId)) < quantity)
    case CancelOrder(id, conn, _) => Rests(st, id) ==> Hears(l, conn)
    case ModifyOrder(id, price, quantity, conn, _) =>
      Rests(st, id) ==> LeftOf(st, msg) == if Hears(l, conn) then quantity else OrderWith(st, id).remaining
  }

  /** What a replacement leaves resting once it has traded. */
  function LeftOf(st: Flat, msg: Message): Quantity
    requires msg.ModifyOrder? && Rests(st, msg.id)
  {
    msg.newQuantity -
    Min(msg.newQuantity, Available(st, Replacement(OrderWith(st, msg.id), msg.newPrice, msg.newQuantity)))
  }

  /** The id a message speaks for. */
  function Subject(st: Flat, msg: Message): OrderId {
    if msg.AddOrder? then st.nextId else msg.id
  }

  /** A new order's sender hears the events about it. */
  predicate SenderIs(st: Flat, msg: Message, id: OrderId, l: Listener) {
    msg.AddOrder? && id == st.nextId ==> Hears(l, msg.conn)
  }

  /**
   What a message does to the feed of an id: a feed that tells the quantity goes on doing so unless the message
   speaks for the id and does not keep the quantity, and then does not; everyone's feed stays orderly in any case.
   */
  ghost predicate Heard(st: Flat, msg: Message, id: OrderId, l: Listener) {
    Leads(st, msg, Process(st, msg), id, l)
  }

  ghost predicate Leads(st: Flat, msg: Message, st': Flat, id: OrderId, l: Listener) {
    && Owned(st', id, l)
    && (l.Everyone? ==> Orderly(st', id, l))
    && (TellsQuantity(st, id, l) ==>
          && (TellsQuantity(st', id, l) <==> id != Subject(st, msg) || KeepsQuantity(st, msg, l))
          && (TellsQuantity(st', id, l) ==> Orderly(st', id, l)))
  }

  /** What of a new order will rest. */
  function OwnRest(st: Flat, msg: Message): Quantity
    requires msg.AddOrder?
  {
    if msg.orderType.Limit? && msg.tif.GoodTillCancel? then LeftOfNew(st, msg) else 0
  }

  function LeftOfNew(st: Flat, msg: Message): Quantity
    requires msg.AddOrder?
  {
    msg.quantity - Min(msg.quantity, Available(st, OrderOf(msg, st.nextId)))
  }

  /** The sender's event names a remainder only for an order that rests it, the one quirk apart. */
  lemma OwnEvent(st: Flat, msg: Message, r: AddOrderResult)
    requires Inv(st) && msg.AddOrder? && Accepts(st, msg)
    requires r == Enter(st.(nextId := st.nextId + 1), OrderOf(msg, st.nextId)).1
    ensures var e := AddEvent(msg, st.nextId, r);
            && e.id == st.nextId
            && !e.OrderModified? && !e.CancelRejected? && !e.ModifyRejected?
            && 0 <= OwnRest(st, msg) <= LeftOfNew(st, msg)
            && (e.OrderRested? ==> e.remaining == LeftOfNew(st, msg) > 0)
            && (e.OrderRested? <==> OwnRest(st, msg) > 0 || !KeepsQuantity(st, msg, Everyone))
  {
    var st0, o := st.(nextId := st.nextId + 1), OrderOf(msg, st.nextId);
    NewOrderMayEnter(st, msg);
    assert Available(st, o) >= 0 by {
      SumBounds(OppositeQueue(st, o), Reach(o));
    }
    assert Match(st0, o).1.remaining == LeftOfNew(st, msg) by {
      SweepExecutes(st0, o);
    }
    ReportOfSweep(st0, o, msg, LeftOfNew(st, msg));
    ReportTells(msg, st.nextId, Available(st, o));
  }

  /** The result of a new order that could not trade `left` of its quantity. */
  function ReportFor(msg: Message, left: Quantity): AddOrderResult
    requires msg.AddOrder?
  {
    if msg.orderType.Limit? && msg.tif.FillOrKill? && left != 0 then AddOrderResult(Rejected, 0, msg.quantity)
    else ResultOf(msg.orderType, msg.quantity - left, left)
  }

  lemma ReportOfSweep(st: Flat, o: OrderData, msg: Message, left: Quantity)
    requires msg.AddOrder? && o == OrderOf(msg, o.id) && Match(st, o).1.remaining == left
    ensures Enter(st, o).1 == ReportFor(msg, left)
  {
  }

  lemma ReportTells(msg: Message, id: OrderId, available: Quantity)
    requires msg.AddOrder? && msg.quantity > 0 && available >= 0
    ensures var left := msg.quantity - Min(msg.quantity, available);
            var e := AddEvent(msg, id, ReportFor(msg, left));
            && e.id == id && !e.OrderModified? && !e.CancelRejected? && !e.ModifyRejected?
            && (e.OrderRested? ==> e.remaining == left > 0)
            && (e.OrderRested? <==>
                  || (msg.orderType.Limit? && msg.tif.GoodTillCancel? && left > 0)
                  || (msg.orderType.Market? && msg.tif.GoodTillCancel? && 0 < available < msg.quantity))
  {
  }

  /** A private event reaches only its own id, and only those who hear its connection. */
  lemma Speak(st: Flat, conn: int, e: PrivateEvent, id: OrderId, l: Listener)
    ensures var st' := st.Emit([Routed(conn, e)]);
            && FeedOf(st'.events, id, l) ==
               (if e.id == id && Hears(l, conn) then Hear(FeedOf(st.events, id, l), e) else FeedOf(st.events, id, l))
            && Held(st', id) == Held(st, id) && Owned(st', id, l) == Owned(st, id, l)
            && (e.id != id ==>
                  && Orderly(st', id, l) == Orderly(st, id, l)
                  && TellsQuantity(st', id, l) == TellsQuantity(st, id, l))
  {
    FeedAppend(st.events, Routed(conn, e), id, l);
  }

  lemma AddBystander(st: Flat, msg: Message, id: OrderId, l: Listener)
    requires Inv(st) && msg.AddOrder? && Accepts(st, msg) && id != st.nextId
    requires Owned(st, id, l) && Orderly(st, id, l)
    ensures Heard(st, msg, id, l)
  {
    var st0, o := st.(nextId := st.nextId + 1), OrderOf(msg, st.nextId);
    NewOrderMayEnter(st, msg);
    assert EnteredHeard(st0, o, id, l, Enter(st0, o).0) by {
      assert Owned(st0, id, l) && Orderly(st0, id, l);
      EnterHeard(st0, o, id, l);
    }
    BystanderOutcome(st, msg, Enter(st0, o).0, AddEvent(msg, st.nextId, Enter(st0, o).1), id, l);
    ProcessAddIs(st, msg, Enter(st0, o));
  }

  /** An event about another id changes nothing for this one. */
  lemma BystanderOutcome(st: Flat, msg: Message, st1: Flat, e: PrivateEvent, id: OrderId, l: Listener)
    requires id != Subject(st, msg) && id != e.id
    requires Owned(st1, id, l) && Orderly(st1, id, l) && (TellsQuantity(st, id, l) ==> TellsQuantity(st1, id, l))
    ensures Leads(st, msg, st1.Emit([Routed(msg.conn, e)]), id, l)
  {
    Speak(st1, msg.conn, e, id, l);
  }

  lemma AddOwn(st: Flat, msg: Message, l: Listener)
    requires Inv(st) && msg.AddOrder? && Accepts(st, msg) && Hears(l, msg.conn)
    requires Owned(st, st.nextId, l) && Orderly(st, st.nextId, l)
    ensures Heard(st, msg, st.nextId, l)
  {
    var id := st.nextId;
    var st0, o := st.(nextId := id + 1), OrderOf(msg, id);
    NewOrderMayEnter(st, msg);
    var entered := Enter(st0, o);
    assert Owned(entered.0, id, l) && FeedOf(entered.0.events, id, l).Unheard? && entered.0.nextId == id + 1 &&
           Held(entered.0, id) == OwnRest(st, msg) by {
      assert Owned(st0, id, l) && Orderly(st0, id, l) by {
        HeldNone(st, id);
      }
      EnterHeard(st0, o, id, l);
      EnterKeepsInv(st0, o);
    }
    var e := AddEvent(msg, id, entered.1);
    OwnEvent(st, msg, entered.1);
    ProcessAddIs(st, msg, entered);
    Speak(entered.0, msg.conn, e, id, l);
    OwnOutcome(entered.0, Process(st, msg), e, id, l);
  }

  /** A first event that reports exactly what rests, or ends, leaves an unheard order orderly and exact. */
  lemma OwnOutcome(st1: Flat, st2: Flat, e: PrivateEvent, id: OrderId, l: Listener)
    requires FeedOf(st1.events, id, l).Unheard? && FeedOf(st2.events, id, l) == Hear(Unheard, e)
    requires Held(st2, id) == Held(st1, id) && id < st2.nextId
    requires !e.OrderModified? && !e.CancelRejected? && !e.ModifyRejected?
    requires 0 <= Held(st1, id)
    requires e.OrderRested? ==> Held(st1, id) <= e.remaining && e.remaining > 0
    requires !e.OrderRested? ==> Held(st1, id) == 0
    ensures Orderly(st2, id, l)
    ensures TellsQuantity(st2, id, l) <==> (e.OrderRested? ==> e.remaining == Held(st1, id))
  {
  }

  /** Someone's event about an id, after which it holds something or nothing: what the listener makes of it. */
  lemma SubjectOutcome(st: Flat, st1: Flat, conn: int, e: PrivateEvent, id: OrderId, l: Listener)
    requires Orderly(st, id, l) && Held(st, id) > 0 && id < st1.nextId && e.id == id
    requires FeedOf(st1.events, id, l) == FeedOf(st.events, id, l) && Held(st1, id) >= 0
    requires (e.OrderCanceled? && Held(st1, id) == 0) || (e.OrderModified? && Held(st1, id) <= e.newQuantity)
    ensures var st2 := st1.Emit([Routed(conn, e)]);
            && Owned(st2, id, l) == Owned(st1, id, l)
            && (l.Everyone? ==> Orderly(st2, id, l))
            && (TellsQuantity(st, id, l) ==>
                  && (TellsQuantity(st2, id, l) <==>
                        Held(st1, id) == if !Hears(l, conn) then Held(st, id)
                                         else if e.OrderModified? then e.newQuantity else 0)
                  && (TellsQuantity(st2, id, l) ==> Orderly(st2, id, l)))
  {
    Speak(st1, conn, e, id, l);
  }

  lemma CancelHeard(st: Flat, msg: Message, id: OrderId, l: Listener)
    requires Inv(st) && msg.CancelOrder? && Owned(st, id, l) && Orderly(st, id, l)
    ensures Heard(st, msg, id, l)
  {
    if Rests(st, msg.id) {
      var st1, e := Withdraw(st, msg.id), OrderCanceled(msg.id);
      WithdrawHeard(st, msg.id, id, l);
      if id == msg.id {
        WithdrawKeepsInv(st, id);
        SubjectOutcome(st, st1, msg.conn, e, id, l);
      } else {
        BystanderOutcome(st, msg, st1, e, id, l);
      }
    } else {
      Speak(st, msg.conn, CancelRejected(msg.id, InvalidOrderId), id, l);
    }
  }

  /** A replacement is fit to enter the book its predecessor has left. */
  lemma ReplacementReady(st: Flat, msg: Message)
    requires Inv(st) && msg.ModifyOrder? && Accepts(st, msg) && Rests(st, msg.id)
    ensures var st1 := Withdraw(st, msg.id);
            var o := Replacement(OrderWith(st, msg.id), msg.newPrice, msg.newQuantity);
            && Inv(st1) && Fresh(st1, o) && Enterable(st1, o) && st1.nextId == st.nextId && msg.id < st.nextId
            && o.orderType.Limit? && o.tif.GoodTillCancel?
            && Available(st1, o) == Available(st, o) >= 0
  {
    var o := Replacement(OrderWith(st, msg.id), msg.newPrice, msg.newQuantity);
    WithdrawKeepsInv(st, msg.id);
    AvailableAfterWithdraw(st, msg.id, o);
    SumBounds(OppositeQueue(st, o), Reach(o));
  }

  lemma OwnerHears(st: Flat, id: OrderId, l: Listener)
    requires Rests(st, id) && Owned(st, id, l)
    ensures Hears(l, OrderWith(st, id).conn)
  {
  }

  lemma ModifyHeard(st: Flat, msg: Message, id: OrderId, l: Listener)
    requires Inv(st) && msg.ModifyOrder? && Accepts(st, msg) && Owned(st, id, l) && Orderly(st, id, l)
    ensures Heard(st, msg, id, l)
  {
    if Rests(st, msg.id) {
      var o := Replacement(OrderWith(st, msg.id), msg.newPrice, msg.newQuantity);
      var st1 := Withdraw(st, msg.id);
      ReplacementEnters(st, msg, st1, o, id, l);
      ModifyTold(st, msg, Enter(st1, o).0, id, l);
    } else {
      Speak(st, msg.conn, ModifyRejected(msg.id, InvalidOrderId), id, l);
    }
  }

  /** Withdrawing the order and entering its replacement, as the feed of an id sees it. */
  lemma ReplacementEnters(st: Flat, msg: Message, st1: Flat, o: OrderData, id: OrderId, l: Listener)
    requires Inv(st) && msg.ModifyOrder? && Accepts(st, msg) && Rests(st, msg.id)
    requires Owned(st, id, l) && Orderly(st, id, l)
    requires st1 == Withdraw(st, msg.id) && o == Replacement(OrderWith(st, msg.id), msg.newPrice, msg.newQuantity)
    ensures var st2 := Enter(st1, o).0;
            && Owned(st2, id, l) && st2.nextId == st.nextId && msg.id < st.nextId
            && (id != msg.id ==> Orderly(st2, id, l) && (TellsQuantity(st, id, l) ==> TellsQuantity(st2, id, l)))
            && (id == msg.id ==>
                  FeedOf(st2.events, id, l) == FeedOf(st.events, id, l) && Held(st2, id) == LeftOf(st, msg))
  {
    ReplacementReady(st, msg);
    assert Owned(st1, id, l) && Orderly(st1, id, l) && FeedOf(st1.events, id, l) == FeedOf(st.events, id, l) &&
           (id != msg.id ==> Held(st1, id) == Held(st, id)) by {
      WithdrawHeard(st, msg.id, id, l);
    }
    if id == msg.id {
      OwnerHears(st, id, l);
    }
    EnterHeard(st1, o, id, l);
    assert Enter(st1, o).0.nextId == st1.nextId by {
      EnterKeepsInv(st1, o);
    }
  }

  /** The last step of a modification, once the replacement has entered as `st2`. */
  lemma ModifyTold(st: Flat, msg: Message, st2: Flat, id: OrderId, l: Listener)
    requires msg.ModifyOrder? && Inv(st) && Accepts(st, msg) && Rests(st, msg.id) && Orderly(st, id, l)
    requires st2 == Enter(Withdraw(st, msg.id), Replacement(OrderWith(st, msg.id), msg.newPrice, msg.newQuantity)).0
    requires Owned(st2, id, l) && st2.nextId == st.nextId && msg.id < st.nextId
    requires id != msg.id ==> Orderly(st2, id, l) && (TellsQuantity(st, id, l) ==> TellsQuantity(st2, id, l))
    requires id == msg.id ==> FeedOf(st2.events, id, l) == FeedOf(st.events, id, l) && Held(st2, id) == LeftOf(st, msg)
    ensures Heard(st, msg, id, l)
  {
    var e := OrderModified(msg.id, msg.newPrice, msg.newQuantity);
    assert Process(st, msg) == st2.Emit([Routed(msg.conn, e)]);
    if id == msg.id {
      HeldSome(st, id);
      ReplacementReady(st, msg);
      SubjectOutcome(st, st2, msg.conn, e, id, l);
    } else {
      BystanderOutcome(st, msg, st2, e, id, l);
    }
  }

  /** Every message, on the feed of every id. */
  lemma ProcessHeard(st: Flat, msg: Message, id: OrderId, l: Listener)
    requires Inv(st) && Accepts(st, msg) && Owned(st, id, l) && Orderly(st, id, l) && SenderIs(st, msg, id, l)
    ensures Heard(st, msg, id, l)
  {
    match msg
    case AddOrder(_, _, _, _, _, _, _, _) =>
      if id == st.nextId {
        AddOwn(st, msg, l);
      } else {
        AddBystander(st, msg, id, l);
      }
    case CancelOrder(_, _, _) => CancelHeard(st, msg, id, l);
    case ModifyOrder(_, _, _, _, _) => ModifyHeard(st, msg, id, l);
  }

  // ----- runs -----

  /** In every run whatever, all events about an order together follow the protocol. */
  lemma {:induction false} RunOrderly(st: Flat, msgs: seq<Message>, id: OrderId)
    requires Inv(st) && AcceptsAll(st, msgs) && Orderly(st, id, Everyone)
    ensures Orderly(Run(st, msgs), id, Everyone)
    decreases |msgs|
  {
    if msgs != [] {
      ProcessHeard(st, msgs[0], id, Everyone);
      ProcessKeepsInv(st, msgs[0]);
      RunOrderly(Process(st, msgs[0]), msgs[1..], id);
    }
  }

  predicate Concerns(e: Event, id: OrderId) {
    e.Routed? && e.event.id == id && !e.event.CancelRejected? && !e.event.ModifyRejected?
  }

  predicate Terminal(e: Event, id: OrderId) {
    Concerns(e, id) && !e.event.OrderRested? && !e.event.OrderModified?
  }

  lemma {:induction false} OrderlyFeed(es: seq<Event>, id: OrderId, i: nat)
    requires !FeedOf(es, id, Everyone).Broken? && i < |es| && Terminal(es[i], id)
    ensures FeedOf(es, id, Everyone).Ended?
    ensures forall j :: i < j < |es| ==> !Concerns(es[j], id)
    decreases |es|
  {
    var n := |es| - 1;
    if i < n {
      OrderlyFeed(es[..n], id, i);
    }
  }

  /** In every run, modifications and quirks included, an order's last word is its last word. */
  lemma NothingAfterTheLastWord(msgs: seq<Message>, id: OrderId, i: nat, j: nat)
    requires AcceptsAll(EMPTY, msgs)
    requires i < j < |Run(EMPTY, msgs).events| && Terminal(Run(EMPTY, msgs).events[i], id)
    ensures !Concerns(Run(EMPTY, msgs).events[j], id)
    ensures !Rests(Run(EMPTY, msgs), id)
  {
    RunOrderly(EMPTY, msgs, id);
    RunKeepsInv(EMPTY, msgs);
    OrderlyFeed(Run(EMPTY, msgs).events, id, i);
    if Rests(Run(EMPTY, msgs), id) {
      HeldSome(Run(EMPTY, msgs), id);
    }
  }

  lemma {:induction false} ShrinkingFeed(es: seq<Event>, id: OrderId, i: nat)
    requires !FeedOf(es, id, Everyone).Broken? && i < |es|
    requires es[i].Routed? && es[i].event.OrderRested? && es[i].event.id == id
    requires forall k :: i < k < |es| ==> !(es[k].Routed? && es[k].event.OrderModified? && es[k].event.id == id)
    ensures !FeedOf(es, id, Everyone).Unheard?
    ensures FeedOf(es, id, Everyone).Live? ==> FeedOf(es, id, Everyone).remaining <= es[i].event.remaining
    ensures forall j :: i < j < |es| && es[j].Routed? && es[j].event.OrderRested? && es[j].event.id == id ==>
      es[j].event.remaining < es[i].event.remaining
    decreases |es|
  {
    var n := |es| - 1;
    if i < n {
      ShrinkingFeed(es[..n], id, i);
    }
  }

  lemma {:induction false} UnbrokenPrefix(es: seq<Event>, id: OrderId, n: nat)
    requires !FeedOf(es, id, Everyone).Broken? && n <= |es|
    ensures !FeedOf(es[..n], id, Everyone).Broken?
    decreases |es|
  {
    if n < |es| {
      assert es[..|es| - 1][..n] == es[..n];
      UnbrokenPrefix(es[..|es| - 1], id, n);
    } else {
      assert es[..n] == es;
    }
  }

  /** In every run, the remainders reported for an order strictly decrease until it is modified. */
  lemma RemaindersShrink(msgs: seq<Message>, id: OrderId, i: nat, j: nat)
    requires AcceptsAll(EMPTY, msgs)
    requires var es := Run(EMPTY, msgs).events;
             && i < j < |es|
             && es[i].Routed? && es[i].event.OrderRested? && es[i].event.id == id
             && es[j].Routed? && es[j].event.OrderRested? && es[j].event.id == id
             && forall k :: i < k < j ==> !(es[k].Routed? && es[k].event.OrderModified? && es[k].event.id == id)
    ensures Run(EMPTY, msgs).events[j].event.remaining < Run(EMPTY, msgs).events[i].event.remaining
  {
    assert !FeedOf(Run(EMPTY, msgs).events, id, Everyone).Broken? by {
      RunOrderly(EMPTY, msgs, id);
    }
    ShrinkBetween(Run(EMPTY, msgs).events, id, i, j);
  }

  lemma ShrinkBetween(es: seq<Event>, id: OrderId, i: nat, j: nat)
    requires !FeedOf(es, id, Everyone).Broken? && i < j < |es|
    requires es[i].Routed? && es[i].event.OrderRested? && es[i].event.id == id
    requires es[j].Routed? && es[j].event.OrderRested? && es[j].event.id == id
    requires forall k :: i < k < j ==> !(es[k].Routed? && es[k].event.OrderModified? && es[k].event.id == id)
    ensures es[j].event.remaining < es[i].event.remaining
  {
    UnbrokenPrefix(es, id, j + 1);
    ShrinkingFeed(es[..j + 1], id, i);
  }
}
