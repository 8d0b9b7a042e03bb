/**
 What the owner of an order believes to rest, and at what price: the quantity as the private events it hears tell
 it, the price it asked for until it hears of a modification. The exact condition under which the belief is true.
 */
module OwnerFeed {
  import opened BookTypes
  import opened FlatBook
  import opened BookInvariant
  import opened Ledger
  import opened PrivateFeed

  /** The price a listener believes in: what was asked for, until a modification is heard of. */
  function PriceTold(es: seq<Event>, id: OrderId, l: Listener, asked: Price): Price {
    if es == [] then asked
    else
      var n := |es| - 1;
      Repriced(PriceTold(es[..n], id, l, asked), es[n], id, l)
  }

  function Repriced(price: Price, e: Event, id: OrderId, l: Listener): Price {
    if e.Routed? && e.event.OrderModified? && e.event.id == id && Hears(l, e.conn) then e.event.newPrice else price
  }

  lemma PriceAppend(es: seq<Event>, e: Event, id: OrderId, l: Listener, asked: Price)
    ensures PriceTold(es + [e], id, l, asked) == Repriced(PriceTold(es, id, l, asked), e, id, l)
  {
    assert (es + [e])[..|es|] == es;
  }

  /** Whatever rests under `id` rests at `price`. */
  ghost predicate Priced(st: Flat, id: OrderId, price: Price) {
    PricedIn(st.bids, id, price) && PricedIn(st.asks, id, price)
  }

  ghost predicate PricedIn(q: seq<OrderData>, id: OrderId, price: Price) {
    forall i :: 0 <= i < |q| && q[i].id == id ==> q[i].price == price
  }

  ghost predicate TellsPrice(st: Flat, id: OrderId, l: Listener, asked: Price) {
    Priced(st, id, PriceTold(st.events, id, l, asked))
  }

  /** The listener's belief about `id` is true: so much rests, and at this price. */
  ghost predicate Exact(st: Flat, id: OrderId, l: Listener, asked: Price) {
    TellsQuantity(st, id, l) && TellsPrice(st, id, l, asked)
  }

  // ----- who hears of no modification -----

  lemma {:induction false} UnheardIsUnrepriced(es: seq<Event>, id: OrderId, l: Listener, asked: Price)
    requires FeedOf(es, id, l).Unheard?
    ensures PriceTold(es, id, l, asked) == asked
  {
    if es != [] {
      UnheardIsUnrepriced(es[..|es| - 1], id, l, asked);
    }
  }

  /** `es'` goes on from `es` without a word of a modification. */
  ghost predicate Unmodified(es: seq<Event>, es': seq<Event>) {
    && es <= es'
    && forall i :: |es| <= i < |es'| ==> !(es'[i].Routed? && es'[i].event.OrderModified?)
  }

  lemma {:induction false} UnmodifiedIsUnrepriced(es: seq<Event>, es': seq<Event>, id: OrderId, l: Listener,
                                                  asked: Price)
    requires Unmodified(es, es')
    ensures PriceTold(es', id, l, asked) == PriceTold(es, id, l, asked)
    decreases |es'|
  {
    if |es'| > |es| {
      assert Unmodified(es, es'[..|es'| - 1]);
      UnmodifiedIsUnrepriced(es, es'[..|es'| - 1], id, l, asked);
    } else {
      assert es' == es;
    }
  }

  // ----- what operations do to prices -----

  /** Everything but the order `o` keeps its price, and nobody is told of a modification. */
  ghost predicate KeepsPrices(st: Flat, st': Flat, id: OrderId, price: Price) {
    Unmodified(st.events, st'.events) && (Priced(st, id, price) ==> Priced(st', id, price))
  }

  lemma TradeOncePrices(st: Flat, o: OrderData, id: OrderId, price: Price)
    requires OppositeQueue(st, o) != []
    ensures KeepsPrices(st, TradeOnce(st, o).0, id, price)
  {
    var q := OppositeQueue(st, o);
    ReducePrices(q, Min(o.remaining, q[0].remaining), id, price);
  }

  lemma ReducePrices(q: seq<OrderData>, n: Quantity, id: OrderId, price: Price)
    requires q != []
    ensures PricedIn(q, id, price) ==> PricedIn(Reduce(q, n), id, price)
  {
    var q' := Reduce(q, n);
    assert forall i :: 0 <= i < |q'| ==>
      q'[i].id == q[i + |q| - |q'|].id && q'[i].price == q[i + |q| - |q'|].price;
  }

  lemma {:induction false} MatchPrices(st: Flat, o: OrderData, id: OrderId, price: Price)
    ensures KeepsPrices(st, Match(st, o).0, id, price)
    decreases |OppositeQueue(st, o)|, o.remaining != 0
  {
    if CanTrade(st, o) {
      var (st1, o1) := TradeOnce(st, o);
      TradeOncePrices(st, o, id, price);
      MatchPrices(st1, o1, id, price);
    }
  }

  lemma RestPrices(st: Flat, o: OrderData, id: OrderId, price: Price)
    requires id == o.id ==> price == o.price
    ensures KeepsPrices(st, Rest(st, o), id, price)
  {
    InsertAt(st.Of(o.side), o);
  }

  lemma EnterPrices(st: Flat, o: OrderData, id: OrderId, price: Price)
    requires Inv(st) && Fresh(st, o) && o.remaining >= 0 && (id == o.id ==> price == o.price)
    ensures KeepsPrices(st, Enter(st, o).0, id, price)
  {
    var (st', o') := Match(st, o);
    MatchPrices(st, o, id, price);
    assert o'.id == o.id && o'.price == o.price by {
      MatchKeepsInv(st, o);
    }
    EnteredPrices(st, o, st', o', id, price);
  }

  lemma EnteredPrices(st: Flat, o: OrderData, st': Flat, o': OrderData, id: OrderId, price: Price)
    requires (st', o') == Match(st, o) && KeepsPrices(st, st', id, price)
    requires o'.id == o.id && o'.price == o.price && (id == o.id ==> price == o.price)
    ensures KeepsPrices(st, Enter(st, o).0, id, price)
  {
    var st2 := Enter(st, o).0;
    assert st2 == st || st2 == st' || st2 == Rest(st', o');
    RestPrices(st', o', id, price);
  }

  lemma WithdrawPrices(st: Flat, target: OrderId, id: OrderId, price: Price)
    requires Rests(st, target)
    ensures KeepsPrices(st, Withdraw(st, target), id, price)
  {
    var q := if Holds(st.bids, target) then st.bids else st.asks;
    DropPrices(q, Find(q, target), id, price);
  }

  lemma DropPrices(q: seq<OrderData>, k: nat, id: OrderId, price: Price)
    requires k < |q|
    ensures PricedIn(q, id, price) ==> PricedIn(q[..k] + q[k + 1..], id, price)
  {
    var q' := q[..k] + q[k + 1..];
    assert forall i :: 0 <= i < |q'| ==> q'[i] == q[if i < k then i else i + 1];
  }

  lemma NothingRests(st: Flat, id: OrderId, price: Price)
    requires !Rests(st, id)
    ensures Priced(st, id, price)
  {
  }

  lemma PriceIsUnique(st: Flat, id: OrderId, price: Price)
    requires Priced(st, id, price) && Rests(st, id)
    ensures OrderWith(st, id).price == price
  {
  }

  // ----- messages -----

  /**
   Which messages keep an owner's belief true. A market order tagged good-till-cancel is not filled in part; a
   cancellation of a resting order is heard by the listener; a modification that it hears leaves resting what it
   asks for, and one that it does not hear leaves resting what rested, at the price it rested at.
   */
  predicate Faithful(st: Flat, msg: Message, l: Listener) {
    match msg
    case AddOrder(orderType, tif, _, _, quantity, _, _, _) =>
      !(orderType.Market? && tif.GoodTillCancel? &&
        0 < Available(st, OrderOf(msg, st.nextId)) < quantity)
    case CancelOrder(id, conn, _) => Rests(st, id) ==> Hears(l, conn)
    case ModifyOrder(id, price, quantity, conn, _) =>
      Rests(st, id) ==>
        if Hears(l, conn) then LeftOf(st, msg) == quantity
        else LeftOf(st, msg) == OrderWith(st, id).remaining && price == OrderWith(st, id).price
  }

  /** A new order's sender hears the events about it, and asked for this price. */
  predicate SentBy(st: Flat, msg: Message, id: OrderId, l: Listener, asked: Price) {
    msg.AddOrder? && id == st.nextId ==> Hears(l, msg.conn) && msg.price == asked
  }

  /** Someone else's modification of the order `id`. */
  predicate Unheard(st: Flat, msg: Message, id: OrderId, l: Listener) {
    msg.ModifyOrder? && msg.id == id && Rests(st, id) && !Hears(l, msg.conn)
  }

  /** What a message does to the price believed: true prices stay true, but for a modification unheard. */
  ghost predicate PriceLeads(st: Flat, msg: Message, st': Flat, id: OrderId, l: Listener, asked: Price) {
    if Unheard(st, msg, id, l) then
      Rests(st', id) ==> (TellsPrice(st', id, l, asked) <==> msg.newPrice == OrderWith(st, id).price)
    else TellsPrice(st', id, l, asked)
  }

  lemma AddPrices(st: Flat, msg: Message, id: OrderId, l: Listener, asked: Price)
    requires Inv(st) && msg.AddOrder? && Accepts(st, msg) && Orderly(st, id, l)
    requires SentBy(st, msg, id, l, asked) && TellsPrice(st, id, l, asked)
    ensures TellsPrice(Process(st, msg), id, l, asked)
  {
    var st0, o := st.(nextId := st.nextId + 1), OrderOf(msg, st.nextId);
    var price := PriceTold(st.events, id, l, asked);
    if id == st.nextId {
      UnheardIsUnrepriced(st.events, id, l, asked);
    }
    NewOrderMayEnter(st, msg);
    var entered := Enter(st0, o);
    assert KeepsPrices(st0, entered.0, id, price) by {
      EnterPrices(st0, o, id, price);
    }
    ProcessAddIs(st, msg, entered);
    SpeakPrices(st0, entered.0, msg.conn, AddEvent(msg, st.nextId, entered.1), id, l, asked);
  }

  /** After a private event that is no modification. */
  lemma SpeakPrices(st: Flat, st': Flat, conn: int, e: PrivateEvent, id: OrderId, l: Listener, asked: Price)
    requires TellsPrice(st, id, l, asked) && KeepsPrices(st, st', id, PriceTold(st.events, id, l, asked))
    requires !e.OrderModified?
    ensures TellsPrice(st'.Emit([Routed(conn, e)]), id, l, asked)
  {
    UnmodifiedIsUnrepriced(st.events, st'.events, id, l, asked);
    PriceAppend(st'.events, Routed(conn, e), id, l, asked);
  }

  lemma CancelPrices(st: Flat, msg: Message, id: OrderId, l: Listener, asked: Price)
    requires msg.CancelOrder? && TellsPrice(st, id, l, asked)
    ensures TellsPrice(Process(st, msg), id, l, asked)
  {
    var price := PriceTold(st.events, id, l, asked);
    if Rests(st, msg.id) {
      WithdrawPrices(st, msg.id, id, price);
      SpeakPrices(st, Withdraw(st, msg.id), msg.conn, OrderCanceled(msg.id), id, l, asked);
    } else {
      SpeakPrices(st, st, msg.conn, CancelRejected(msg.id, InvalidOrderId), id, l, asked);
    }
  }

  lemma ModifyPrices(st: Flat, msg: Message, id: OrderId, l: Listener, asked: Price)
    requires Inv(st) && msg.ModifyOrder? && Accepts(st, msg) && TellsPrice(st, id, l, asked)
    ensures PriceLeads(st, msg, Process(st, msg), id, l, asked)
  {
    if Rests(st, msg.id) {
      var o := Replacement(OrderWith(st, msg.id), msg.newPrice, msg.newQuantity);
      var st1 := Withdraw(st, msg.id);
      var st2 := Enter(st1, o).0;
      var price := if msg.id == id then msg.newPrice else PriceTold(st.events, id, l, asked);
      assert KeepsPrices(st, st1, id, price) && (msg.id == id ==> Priced(st1, id, price)) by {
        WithdrawPrices(st, msg.id, id, price);
        WithdrawKeepsInv(st, msg.id);
        if msg.id == id {
          NothingRests(st1, id, price);
        }
      }
      assert KeepsPrices(st1, st2, id, price) by {
        ReplacementReady(st, msg);
        EnterPrices(st1, o, id, price);
      }
      assert Process(st, msg) == st2.Emit([Routed(msg.conn, OrderModified(msg.id, msg.newPrice, msg.newQuantity))]);
      ModifiedPrice(st, msg, st2, id, l, asked);
    } else {
      SpeakPrices(st, st, msg.conn, ModifyRejected(msg.id, InvalidOrderId), id, l, asked);
    }
  }

  /** The replacement, if any of it rests, rests at the new price, and the listener hears of that or not. */
  lemma ModifiedPrice(st: Flat, msg: Message, st2: Flat, id: OrderId, l: Listener, asked: Price)
    requires msg.ModifyOrder? && Rests(st, msg.id) && TellsPrice(st, id, l, asked)
    requires Unmodified(st.events, st2.events)
    requires Priced(st2, id, if msg.id == id then msg.newPrice else PriceTold(st.events, id, l, asked))
    ensures PriceLeads(st, msg, st2.Emit([Routed(msg.conn, OrderModified(msg.id, msg.newPrice, msg.newQuantity))]),
                       id, l, asked)
  {
    var e := Routed(msg.conn, OrderModified(msg.id, msg.newPrice, msg.newQuantity));
    UnmodifiedIsUnrepriced(st.events, st2.events, id, l, asked);
    PriceAppend(st2.events, e, id, l, asked);
    if Unheard(st, msg, id, l) {
      PriceIsUnique(st, id, PriceTold(st.events, id, l, asked));
      if Rests(st2, id) {
        PriceIsUnique(st2, id, msg.newPrice);
      }
    }
  }

  lemma ProcessPrices(st: Flat, msg: Message, id: OrderId, l: Listener, asked: Price)
    requires Inv(st) && Accepts(st, msg) && Orderly(st, id, l)
    requires SentBy(st, msg, id, l, asked) && TellsPrice(st, id, l, asked)
    ensures PriceLeads(st, msg, Process(st, msg), id, l, asked)
  {
    match msg
    case AddOrder(_, _, _, _, _, _, _, _) => AddPrices(st, msg, id, l, asked);
    case CancelOrder(_, _, _) => CancelPrices(st, msg, id, l, asked);
    case ModifyOrder(_, _, _, _, _) => ModifyPrices(st, msg, id, l, asked);
  }

  /**
   Every message, on what the owner of an id believes: a true belief stays true if and only if the message speaks
   for another id, or is faithful to the owner.
   */
  lemma ProcessTells(st: Flat, msg: Message, id: OrderId, l: Listener, asked: Price)
    requires Inv(st) && Accepts(st, msg) && Owned(st, id, l) && Orderly(st, id, l)
    requires SentBy(st, msg, id, l, asked) && Exact(st, id, l, asked)
    ensures Owned(Process(st, msg), id, l)
    ensures Exact(Process(st, msg), id, l, asked) <==> id != Subject(st, msg) || Faithful(st, msg, l)
    ensures Exact(Process(st, msg), id, l, asked) ==> Orderly(Process(st, msg), id, l)
  {
    var st' := Process(st, msg);
    ProcessHeard(st, msg, id, l);
    ProcessPrices(st, msg, id, l, asked);
    if Unheard(st, msg, id, l) {
      HeldSome(st, id);
      if TellsQuantity(st', id, l) && !Rests(st', id) {
        HeldNone(st', id);
        UnheardKeepsQuantity(st, msg, id, l);
      }
    }
  }

  /** What an unheard modification leaves told. */
  lemma UnheardKeepsQuantity(st: Flat, msg: Message, id: OrderId, l: Listener)
    requires Inv(st) && Accepts(st, msg) && Owned(st, id, l) && Orderly(st, id, l)
    requires Unheard(st, msg, id, l)
    ensures FeedOf(Process(st, msg).events, id, l) == FeedOf(st.events, id, l)
    ensures Told(st.events, id, l) > 0
  {
    HeldSome(st, id);
    var st1 := Withdraw(st, id);
    var o := Replacement(OrderWith(st, id), msg.newPrice, msg.newQuantity);
    ReplacementEnters(st, msg, st1, o, id, l);
    Speak(Enter(st1, o).0, msg.conn, OrderModified(id, msg.newPrice, msg.newQuantity), id, l);
  }

  /**
   When what every owner believes is true, one message leaves it so if and only if it is faithful to the owner of
   the order it speaks for.
   */
  lemma ExactIffFaithful(st: Flat, msg: Message, owner: OrderId -> Listener, asked: OrderId -> Price)
    requires Inv(st) && Accepts(st, msg)
    requires forall id ::
      Owned(st, id, owner(id)) && Orderly(st, id, owner(id)) && Exact(st, id, owner(id), asked(id))
    requires SentBy(st, msg, st.nextId, owner(st.nextId), asked(st.nextId))
    ensures (forall id :: Exact(Process(st, msg), id, owner(id), asked(id))) <==>
            Faithful(st, msg, owner(Subject(st, msg)))
  {
    forall id
      ensures Exact(Process(st, msg), id, owner(id), asked(id)) <==>
              id != Subject(st, msg) || Faithful(st, msg, owner(Subject(st, msg)))
    {
      assert Owned(st, id, owner(id)) && Orderly(st, id, owner(id)) && Exact(st, id, owner(id), asked(id));
      ProcessTells(st, msg, id, owner(id), asked(id));
    }
    var subject := Subject(st, msg);
    assert Exact(Process(st, msg), subject, owner(subject), asked(subject)) <==> Faithful(st, msg, owner(subject));
  }

  // ----- runs -----

  /** If the run adds an order under `id`, it comes from a connection the listener hears, and asks for that price. */
  predicate AddedBy(st: Flat, msgs: seq<Message>, id: OrderId, l: Listener, asked: Price)
    decreases |msgs|
  {
    msgs == [] || (SentBy(st, msgs[0], id, l, asked) && AddedBy(Process(st, msgs[0]), msgs[1..], id, l, asked))
  }

  /** Every message of the run that speaks for `id` is faithful to the listener. */
  predicate FaithfulTo(st: Flat, msgs: seq<Message>, id: OrderId, l: Listener)
    decreases |msgs|
  {
    msgs == [] ||
    ((Subject(st, msgs[0]) == id ==> Faithful(st, msgs[0], l)) && FaithfulTo(Process(st, msgs[0]), msgs[1..], id, l))
  }

  /** What the listener believes of `id` is true, at the start and after every message of the run. */
  ghost predicate ExactThroughout(st: Flat, msgs: seq<Message>, id: OrderId, l: Listener, asked: Price)
    decreases |msgs|
  {
    && Exact(st, id, l, asked)
    && (msgs == [] || ExactThroughout(Process(st, msgs[0]), msgs[1..], id, l, asked))
  }

  lemma {:induction false} RunTells(st: Flat, msgs: seq<Message>, id: OrderId, l: Listener, asked: Price)
    requires Inv(st) && AcceptsAll(st, msgs) && AddedBy(st, msgs, id, l, asked)
    requires Owned(st, id, l) && Orderly(st, id, l) && Exact(st, id, l, asked)
    ensures ExactThroughout(st, msgs, id, l, asked) <==> FaithfulTo(st, msgs, id, l)
    decreases |msgs|
  {
    if msgs != [] {
      var st1 := Process(st, msgs[0]);
      ProcessTells(st, msgs[0], id, l, asked);
      if Exact(st1, id, l, asked) {
        assert Inv(st1) by {
          ProcessKeepsInv(st, msgs[0]);
        }
        RunTells(st1, msgs[1..], id, l, asked);
      }
    }
  }

  lemma {:induction false} ExactToTheEnd(st: Flat, msgs: seq<Message>, id: OrderId, l: Listener, asked: Price)
    requires ExactThroughout(st, msgs, id, l, asked)
    ensures Exact(Run(st, msgs), id, l, asked)
    decreases |msgs|
  {
    if msgs != [] {
      ExactToTheEnd(Process(st, msgs[0]), msgs[1..], id, l, asked);
    }
  }

  /**
   In every run, what an order's owner believes is true after every message if and only if every message that
   speaks for the order is faithful to its owner; and then folding the events emitted for the owner's connection
   gives what the order has resting, and the price it rests at.
   */
  lemma FeedTellsTheBook(msgs: seq<Message>, id: OrderId, conn: int, asked: Price)
    requires AcceptsAll(EMPTY, msgs) && AddedBy(EMPTY, msgs, id, Client(conn), asked)
    ensures ExactThroughout(EMPTY, msgs, id, Client(conn), asked) <==> FaithfulTo(EMPTY, msgs, id, Client(conn))
    ensures FaithfulTo(EMPTY, msgs, id, Client(conn)) ==>
      var st := Run(EMPTY, msgs);
      && Told(st.events, id, Client(conn)) == Held(st, id)
      && (Rests(st, id) ==> PriceTold(st.events, id, Client(conn), asked) == OrderWith(st, id).price)
  {
    RunTells(EMPTY, msgs, id, Client(conn), asked);
    if FaithfulTo(EMPTY, msgs, id, Client(conn)) {
      ExactToTheEnd(EMPTY, msgs, id, Client(conn), asked);
    }
  }
}
