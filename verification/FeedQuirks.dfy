/** Inputs on which an owner is told something else than what rests. */
module FeedQuirks {
  import opened BookTypes
  import opened FlatBook
  import opened BookInvariant
  import opened Ledger
  import opened PrivateFeed
  import opened OwnerFeed

  /** After one resting order, its owner's feed and everyone's are exact. */
  lemma FirstOrderIsTold(rest: Message, id: OrderId, l: Listener)
    requires rest.AddOrder? && rest.orderType.Limit? && rest.tif.GoodTillCancel? && rest.quantity > 0 && rest.price > 0
    requires id == 1 ==> Hears(l, rest.conn)
    ensures var st := Process(EMPTY, rest);
            Accepts(EMPTY, rest) && Inv(st) && st.nextId == 2 && st.Of(rest.side) == [OrderOf(rest, 1)]
            && st.Of(rest.side.Opposite()) == []
            && Owned(st, id, l) && Orderly(st, id, l) && TellsQuantity(st, id, l)
  {
    FirstOrderRests(rest);
    ProcessKeepsInv(EMPTY, rest);
    ProcessHeard(EMPTY, rest, id, l);
  }

  /** A market order tagged good-till-cancel, filled 4 of 10, is told that 6 rest; none do. */
  lemma GtcMarketIsMisreported()
    ensures var rest := AddOrder(Limit, GoodTillCancel, 1, 100, 4, Sell, 7, 1);
            var take := AddOrder(Market, GoodTillCancel, 2, 0, 10, Buy, 8, 2);
            var st := Process(Process(EMPTY, rest), take);
            && Accepts(EMPTY, rest) && Accepts(Process(EMPTY, rest), take)
            && Told(st.events, 2, Client(8)) != Held(st, 2)
  {
    var rest := AddOrder(Limit, GoodTillCancel, 1, 100, 4, Sell, 7, 1);
    var take := AddOrder(Market, GoodTillCancel, 2, 0, 10, Buy, 8, 2);
    FirstOrderIsTold(rest, 2, Client(8));
    var st := Process(EMPTY, rest);
    assert Available(st, OrderOf(take, 2)) == 4;
    ProcessHeard(st, take, 2, Client(8));
  }

  /** The owner of a resting order that a stranger cancels hears nothing of it, and goes on believing that it rests. */
  lemma StrangersCancelIsUnheard(st: Flat, id: OrderId, owner: int, stranger: int, seqNo: nat)
    requires Inv(st) && Rests(st, id) && stranger != owner
    requires Owned(st, id, Client(owner)) && Orderly(st, id, Client(owner)) && TellsQuantity(st, id, Client(owner))
    ensures var st' := Process(st, CancelOrder(id, stranger, seqNo));
            && Told(st'.events, id, Client(owner)) == Told(st.events, id, Client(owner)) > 0
            && Held(st', id) == 0
  {
    WithdrawHeard(st, id, id, Client(owner));
    Speak(Withdraw(st, id), stranger, OrderCanceled(id), id, Client(owner));
  }

  /** Connection 7 rests 4; connection 8 cancels them; both messages are accepted, and 7 is told nothing. */
  lemma AStrangerCancels()
    ensures var rest := AddOrder(Limit, GoodTillCancel, 1, 100, 4, Sell, 7, 1);
            var cancel := CancelOrder(1, 8, 2);
            var st := Process(Process(EMPTY, rest), cancel);
            && Accepts(EMPTY, rest) && Accepts(Process(EMPTY, rest), cancel)
            && Told(st.events, 1, Client(7)) > 0 == Held(st, 1)
  {
    var rest := AddOrder(Limit, GoodTillCancel, 1, 100, 4, Sell, 7, 1);
    FirstOrderIsTold(rest, 1, Client(7));
    assert Find(Process(EMPTY, rest).asks, 1) == 0;
    StrangersCancelIsUnheard(Process(EMPTY, rest), 1, 7, 8, 2);
  }

  /** A modification by another connection changes nothing of what the owner has been told. */
  lemma StrangersModifyIsUnheard(st: Flat, msg: Message, owner: int, asked: Price)
    requires Inv(st) && Accepts(st, msg) && msg.ModifyOrder? && Rests(st, msg.id) && msg.conn != owner
    requires Owned(st, msg.id, Client(owner)) && Orderly(st, msg.id, Client(owner))
    requires Exact(st, msg.id, Client(owner), asked)
    ensures var l, es := Client(owner), Process(st, msg).events;
            && FeedOf(es, msg.id, l) == FeedOf(st.events, msg.id, l)
            && PriceTold(es, msg.id, l, asked) == PriceTold(st.events, msg.id, l, asked)
  {
    var l, id := Client(owner), msg.id;
    var st1 := Withdraw(st, id);
    var o := Replacement(OrderWith(st, id), msg.newPrice, msg.newQuantity);
    UnheardKeepsQuantity(st, msg, id, l);
    assert Unmodified(st.events, st1.events) by {
      WithdrawPrices(st, id, id, msg.newPrice);
    }
    assert Unmodified(st1.events, Enter(st1, o).0.events) by {
      ReplacementReady(st, msg);
      EnterPrices(st1, o, id, msg.newPrice);
    }
    UnmodifiedIsUnrepriced(st.events, Enter(st1, o).0.events, id, l, asked);
    PriceAppend(Enter(st1, o).0.events, Routed(msg.conn, OrderModified(id, msg.newPrice, msg.newQuantity)), id, l,
                asked);
  }

  /**
   Connection 7 rests 4 at 100; connection 8 moves them to 105; both messages are accepted, 4 rest as before, and 7
   goes on believing that they rest at 100.
   */
  lemma AStrangerReprices()
    ensures var rest := AddOrder(Limit, GoodTillCancel, 1, 100, 4, Sell, 7, 1);
            var reprice := ModifyOrder(1, 105, 4, 8, 2);
            var st1 := Process(EMPTY, rest);
            var st := Process(st1, reprice);
            && Accepts(EMPTY, rest) && Accepts(st1, reprice) && Exact(st1, 1, Client(7), 100)
            && Told(st.events, 1, Client(7)) == 4 == Held(st, 1)
            && |st.asks| == 1 && st.asks[0].id == 1 && st.asks[0].conn == 7 && st.asks[0].price == 105
            && PriceTold(st.events, 1, Client(7), 100) == 100
            && !Faithful(st1, reprice, Client(7)) && !Exact(st, 1, Client(7), 100)
  {
    var rest := AddOrder(Limit, GoodTillCancel, 1, 100, 4, Sell, 7, 1);
    FirstOrderIsTold(rest, 1, Client(7));
    var st1 := Process(EMPTY, rest);
    assert PriceTold(st1.events, 1, Client(7), 100) == 100 by {
      ProcessPrices(EMPTY, rest, 1, Client(7), 100);
      assert st1.asks[0].id == 1;
    }
    RepricedAlone(st1, rest, ModifyOrder(1, 105, 4, 8, 2));
  }

  lemma RepricedAlone(st: Flat, rest: Message, reprice: Message)
    requires rest == AddOrder(Limit, GoodTillCancel, 1, 100, 4, Sell, 7, 1) && reprice == ModifyOrder(1, 105, 4, 8, 2)
    requires Inv(st) && st.bids == [] && st.asks == [OrderOf(rest, 1)] && st.nextId == 2
    requires Owned(st, 1, Client(7)) && Orderly(st, 1, Client(7)) && TellsQuantity(st, 1, Client(7))
    requires PriceTold(st.events, 1, Client(7), 100) == 100
    ensures Accepts(st, reprice) && Exact(st, 1, Client(7), 100)
    ensures var st' := Process(st, reprice);
            && Told(st'.events, 1, Client(7)) == 4 == Held(st', 1)
            && st'.asks == [Replacement(OrderOf(rest, 1), 105, 4)]
            && PriceTold(st'.events, 1, Client(7), 100) == 100
            && !Faithful(st, reprice, Client(7)) && !Exact(st', 1, Client(7), 100)
  {
    var o := Replacement(OrderOf(rest, 1), 105, 4);
    var st' := Process(st, reprice);
    assert st'.asks == [o] && st'.bids == [] && Accepts(st, reprice) && !Faithful(st, reprice, Client(7)) by {
      MovedAlone(st, rest, o, reprice);
    }
    HeldAlone(st, OrderOf(rest, 1));
    HeldAlone(st', o);
    assert Exact(st, 1, Client(7), 100);
    StrangersModifyIsUnheard(st, reprice, 7, 100);
    assert st'.asks[0].id == 1;
  }

  lemma HeldAlone(st: Flat, o: OrderData)
    requires st.bids == [] && st.asks == [o]
    ensures Held(st, o.id) == o.remaining && Rests(st, o.id)
  {
    assert Sum(st.asks[1..], WithId(o.id)) == 0;
    assert Find(st.asks, o.id) == 0;
  }

  lemma MovedAlone(st: Flat, rest: Message, o: OrderData, reprice: Message)
    requires rest == AddOrder(Limit, GoodTillCancel, 1, 100, 4, Sell, 7, 1) && reprice == ModifyOrder(1, 105, 4, 8, 2)
    requires st.bids == [] && st.asks == [OrderOf(rest, 1)] && o == Replacement(OrderOf(rest, 1), 105, 4)
    ensures Process(st, reprice).asks == [o] && Process(st, reprice).bids == []
    ensures Accepts(st, reprice) && !Faithful(st, reprice, Client(7))
  {
    assert Find(st.asks, 1) == 0;
    MeetsNobody(Withdraw(st, 1), o);
  }

  lemma MeetsNobody(st: Flat, o: OrderData)
    requires st.bids == [] && st.asks == [] && o.remaining > 0
    ensures Match(st, o) == (st, o) && Insert([], o) == [o]
  {
  }

  /** A replacement bid for 10 that meets an offer of 4 is told that 10 rest; 6 do. */
  lemma CrossingModifyIsMisreported()
    ensures var offer := AddOrder(Limit, GoodTillCancel, 1, 100, 4, Sell, 7, 1);
            var bid := AddOrder(Limit, GoodTillCancel, 2, 90, 10, Buy, 8, 2);
            var raise := ModifyOrder(2, 100, 10, 8, 3);
            var st := Run(EMPTY, [offer, bid]);
            && AcceptsAll(EMPTY, [offer, bid]) && Accepts(st, raise)
            && Told(Process(st, raise).events, 2, Client(8)) != Held(Process(st, raise), 2)
  {
    var offer := AddOrder(Limit, GoodTillCancel, 1, 100, 4, Sell, 7, 1);
    var bid := AddOrder(Limit, GoodTillCancel, 2, 90, 10, Buy, 8, 2);
    var raise := ModifyOrder(2, 100, 10, 8, 3);
    OfferAndBidRest(offer, bid);
    RunTwo(EMPTY, offer, bid);
    RaiseIsMisreported(Process(Process(EMPTY, offer), bid), offer, bid, raise);
  }

  lemma RaiseIsMisreported(st: Flat, offer: Message, bid: Message, raise: Message)
    requires offer == AddOrder(Limit, GoodTillCancel, 1, 100, 4, Sell, 7, 1)
    requires bid == AddOrder(Limit, GoodTillCancel, 2, 90, 10, Buy, 8, 2)
    requires raise == ModifyOrder(2, 100, 10, 8, 3)
    requires Inv(st) && Owned(st, 2, Client(8)) && Orderly(st, 2, Client(8)) && TellsQuantity(st, 2, Client(8))
    requires st.asks == [OrderOf(offer, 1)] && st.bids == [OrderOf(bid, 2)]
    ensures Accepts(st, raise) && !TellsQuantity(Process(st, raise), 2, Client(8))
  {
    assert Find(st.bids, 2) == 0;
    var o := Replacement(OrderOf(bid, 2), 100, 10);
    var q := OppositeQueue(st, o);
    assert Sum(q[1..], Reach(o)) == 0;
    assert Available(st, o) == Weight(Reach(o), q[0]) == 4;
    ProcessHeard(st, raise, 2, Client(8));
  }

  lemma OfferAndBidRest(offer: Message, bid: Message)
    requires offer == AddOrder(Limit, GoodTillCancel, 1, 100, 4, Sell, 7, 1)
    requires bid == AddOrder(Limit, GoodTillCancel, 2, 90, 10, Buy, 8, 2)
    ensures var st1 := Process(EMPTY, offer);
            var st := Process(st1, bid);
            && Accepts(EMPTY, offer) && Accepts(st1, bid) && Inv(st)
            && st.asks == [OrderOf(offer, 1)] && st.bids == [OrderOf(bid, 2)]
            && Owned(st, 2, Client(8)) && Orderly(st, 2, Client(8)) && TellsQuantity(st, 2, Client(8))
  {
    FirstOrderIsTold(offer, 2, Client(8));
    var st1 := Process(EMPTY, offer);
    var o := OrderOf(bid, 2);
    BidMeetsNobody(st1.(nextId := 3), o);
    assert Available(st1, o) == 0 by {
      SumNone(st1.asks, Reach(o));
    }
    ProcessKeepsInv(st1, bid);
    ProcessHeard(st1, bid, 2, Client(8));
  }

  lemma BidMeetsNobody(st: Flat, o: OrderData)
    requires o.side.Buy? && o.orderType.Limit? && st.bids == []
    requires |st.asks| == 1 && st.asks[0].price > o.price
    ensures Match(st, o) == (st, o) && Insert([], o) == [o]
  {
  }
}
