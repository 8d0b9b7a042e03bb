/**
 The matching engine as it runs: two sides of price-level objects, an index from order id to place,
 the tape, the id counter and the event stream. Every operation is proved against the flat book.
 */
module OrderBooks {
  import opened BookTypes
  import opened FlatBook
  import opened BookInvariant
  import opened LevelViews
  import opened LevelBooks
  import opened PriceLevels

  /** Levels of one side, best first; a fact about the objects, whatever the heap holds. */
  ghost predicate Arranged(side: Side, levels: seq<PriceLevel>, repr: set<PriceLevel>) {
    && (forall i, j :: 0 <= i < j < |levels| ==> Better(side, levels[i].price, levels[j].price))
    && (forall i :: 0 <= i < |levels| ==> levels[i].side == side && levels[i] in repr)
  }

  /** Position of the level of a price among sorted levels, or where it would be inserted. */
  function LowerBound(side: Side, levels: seq<PriceLevel>, price: Price): (i: nat)
    ensures i <= |levels|
    ensures forall j :: 0 <= j < i ==> Better(side, levels[j].price, price)
    ensures i < |levels| ==> !Better(side, levels[i].price, price)
  {
    if levels == [] || !Better(side, levels[0].price, price) then 0
    else 1 + LowerBound(side, levels[1..], price)
  }

  lemma LowerBoundFinds(side: Side, levels: seq<PriceLevel>, repr: set<PriceLevel>, i: nat)
    requires Arranged(side, levels, repr) && i < |levels|
    ensures LowerBound(side, levels, levels[i].price) == i
  {
    assert forall j :: 0 <= j < i ==> Better(side, levels[j].price, levels[i].price);
  }

  /** The levels look like `vs`. */
  ghost predicate Seen(levels: seq<PriceLevel>, vs: seq<LevelView>)
    reads levels
  {
    |vs| == |levels| && forall i :: 0 <= i < |levels| ==> vs[i] == levels[i].View()
  }

  /** A new level in its place keeps a side arranged and seen. */
  lemma InsertedInPlace(side: Side, levels: seq<PriceLevel>, vs: seq<LevelView>, k: nat, level: PriceLevel,
                        repr: set<PriceLevel>)
    requires Arranged(side, levels, repr) && Seen(levels, vs) && level.side == side && k <= |levels|
    requires forall j :: 0 <= j < k ==> Better(side, levels[j].price, level.price)
    requires k < |levels| ==> Better(side, level.price, levels[k].price)
    ensures Arranged(side, levels[..k] + [level] + levels[k..], repr + {level})
    ensures Seen(levels[..k] + [level] + levels[k..], vs[..k] + [level.View()] + vs[k..])
    ensures Position(side, vs, level.price, k)
  {
    var levels' := levels[..k] + [level] + levels[k..];
    assert forall j :: 0 <= j < |levels'| ==>
      levels'[j] == if j < k then levels[j] else if j == k then level else levels[j - 1];
    forall j | k <= j < |levels|
      ensures Better(side, level.price, levels[j].price)
    {
      assert j == k || Better(side, levels[k].price, levels[j].price);
    }
    assert forall i, j :: 0 <= i < j < |levels'| ==> Better(side, levels'[i].price, levels'[j].price);
  }

  /** A side without one of its levels is still arranged and seen. */
  lemma ErasedInPlace(side: Side, levels: seq<PriceLevel>, vs: seq<LevelView>, k: nat, repr: set<PriceLevel>)
    requires Arranged(side, levels, repr) && Seen(levels, vs) && k < |levels|
    ensures Arranged(side, levels[..k] + levels[k + 1..], repr)
    ensures Seen(levels[..k] + levels[k + 1..], vs[..k] + vs[k + 1..])
  {
    var levels' := levels[..k] + levels[k + 1..];
    assert forall j :: 0 <= j < |levels'| ==> levels'[j] == levels[if j < k then j else j + 1];
  }

  class OrderBook {
    var bids: seq<PriceLevel>
    var asks: seq<PriceLevel>
    var lookUp: map<OrderId, OrderLocation>
    var trades: seq<Trade>
    var nextOrderId: OrderId
    var events: seq<Event>
    /** The levels of either side as values, kept in step with the objects. */
    ghost var bidViews: seq<LevelView>
    ghost var askViews: seq<LevelView>
    /** The level objects. */
    ghost var Repr: set<PriceLevel>

    function Levels(side: Side): seq<PriceLevel>
      reads this
    {
      if side.Buy? then bids else asks
    }

    ghost function Views(side: Side): seq<LevelView>
      reads this
    {
      if side.Buy? then bidViews else askViews
    }

    // ----- abstraction and invariant -----

    ghost function State(): LevelBook
      reads this
    {
      LevelBook(bidViews, askViews, lookUp, trades, nextOrderId, events)
    }

    /** The flat book these objects stand for. */
    ghost function Abs(): Flat
      reads this
    {
      State().Flat()
    }

    /** Both sides are sorted and seen as they are. */
    ghost predicate Linked()
      reads this, Repr
    {
      && Arranged(Buy, bids, Repr) && Arranged(Sell, asks, Repr)
      && Seen(bids, bidViews) && Seen(asks, askViews)
    }

    /** Everything but that no level is empty: what holds while a level is being emptied. */
    ghost predicate Shaped()
      reads this, Repr
    {
      Linked() && Coherent(State())
    }

    ghost predicate Valid()
      reads this, Repr
    {
      Shaped() && Populated(State())
    }

    constructor ()
      ensures Valid() && Repr == {} && Abs() == EMPTY
    {
      bids, asks, lookUp, trades, nextOrderId, events := [], [], map[], [], 1, [];
      bidViews, askViews, Repr := [], [], {};
    }

    /** The only new levels are new objects. */
    twostate predicate GrownByFresh()
      reads this
    {
      forall l :: l in Repr && l !in old(Repr) ==> fresh(l)
    }

    // ----- one fill -----

    /** No other level is the first level of a side. */
    lemma FirstLevelIsApart(side: Side)
      requires Arranged(Buy, bids, Repr) && Arranged(Sell, asks, Repr) && Levels(side) != []
      ensures forall i :: 0 < i < |Levels(side)| ==> Levels(side)[i] != Levels(side)[0]
      ensures forall i :: 0 <= i < |Levels(side.Opposite())| ==> Levels(side.Opposite())[i] != Levels(side)[0]
    {
      forall i | 0 < i < |Levels(side)|
        ensures Levels(side)[i] != Levels(side)[0]
      {
        assert Better(side, Levels(side)[0].price, Levels(side)[i].price);
      }
    }

    /** The steps of one fill between the incoming order and the front of a level. */
    method TradeWithFront(order: Order, level: PriceLevel) returns (executed: Quantity)
      requires order.remaining > 0
      requires level.Valid() && !level.Empty() && level.orders[0].remaining > 0
      modifies this`trades, this`events, this`lookUp, level, order
      ensures FilledFront(old(State()), old(order.Data()), old(level.View()), executed, State())
      ensures order.Data() == old(order.Data()).(remaining := old(order.remaining) - executed)
      ensures level.View() == LevelFilled(old(level.View()), executed)
    {
      executed := Min(order.remaining, level.orders[0].remaining);
      var trade := TradeOf(order.Data(), level.orders[0]);
      events := events + [TradeEvent(trade)];
      trades := trades + [trade];

      var getFilled := level.orders[0].remaining == executed;
      var frontId := level.orders[0].id;
      var maker := level.orders[0];
      order.FillOrder(executed);
      var makerRemaining := level.orders[0].remaining - executed;
      level.FillFrontOrder(executed);
      if getFilled {
        lookUp := lookUp - {frontId};
      }
      var counterpart := if order.side.Buy? then Sell else Buy;
      events := events + [BookUpdate(counterpart, level.price, level.totalQuantity)];
      events := events + [MakerEvent(maker, makerRemaining)];
    }

    /** The same, seen from the book: the first level of the other side is the only one touched. */
    method TradeWithBest(order: Order, level: PriceLevel) returns (executed: Quantity)
      requires Linked() && order.remaining > 0
      requires Levels(order.side.Opposite()) != [] && level == Levels(order.side.Opposite())[0]
      requires level.Valid() && !level.Empty() && level.orders[0].remaining > 0
      modifies this`trades, this`events, this`lookUp, this`bidViews, this`askViews, level, order
      ensures Linked()
      ensures FilledFirst(old(State()), old(order.Data()), executed, State())
      ensures order.Data() == old(order.Data()).(remaining := old(order.remaining) - executed)
    {
      ghost var opp, s, o := order.side.Opposite(), State(), order.Data();
      FirstLevelIsApart(opp);
      assert Views(opp)[0] == level.View();
      executed := TradeWithFront(order, level);
      ghost var mid := State();
      SeeFirst(opp, level);
      FilledThenSeen(s, o, executed, mid, State());
    }

    /** After the first level of a side changed: see it as it is. */
    ghost method SeeFirst(side: Side, level: PriceLevel)
      requires Arranged(Buy, bids, Repr) && Arranged(Sell, asks, Repr)
      requires Levels(side) != [] && level == Levels(side)[0] && |Views(side)| == |Levels(side)|
      requires forall i :: 0 < i < |Levels(side)| ==> Views(side)[i] == Levels(side)[i].View()
      requires Seen(Levels(side.Opposite()), Views(side.Opposite()))
      modifies this`bidViews, this`askViews
      ensures Linked() && Views(side) == old(Views(side))[0 := level.View()]
      ensures Views(side.Opposite()) == old(Views(side.Opposite()))
    {
      if side.Buy? {
        bidViews := bidViews[0 := level.View()];
      } else {
        askViews := askViews[0 := level.View()];
      }
    }

    /** One fill between the incoming order and the front of the best level of the other side. */
    method ExecuteTrade(order: Order, level: PriceLevel) returns (executed: Quantity)
      requires Shaped() && Draining(State(), order.side.Opposite())
      requires level == Levels(order.side.Opposite())[0] && !level.Empty()
      requires order.remaining > 0 && Fresh(Abs(), order.Data())
      requires Crosses(order.orderType, order.side, order.price, level.price)
      modifies this`trades, this`events, this`lookUp, this`bidViews, this`askViews, level, order
      ensures Shaped() && Draining(State(), order.side.Opposite())
      ensures CanTrade(old(Abs()), old(order.Data()))
      ensures (Abs(), order.Data()) == TradeOnce(old(Abs()), old(order.Data()))
      ensures executed == old(order.remaining) - order.remaining > 0 && order.remaining >= 0
      ensures Fresh(Abs(), order.Data())
      ensures Match(Abs(), order.Data()) == Match(old(Abs()), old(order.Data()))
    {
      ghost var s, o := State(), order.Data();
      assert s.Of(order.side.Opposite())[0] == level.View();
      FillDue(s, o);
      executed := TradeWithBest(order, level);
      FillKeepsAll(s, o, executed, State(), order.Data());
    }

    /** Erase the first level of a side. */
    method EraseFirst(side: Side)
      requires Linked() && Levels(side) != []
      modifies this`bids, this`asks, this`bidViews, this`askViews
      ensures Linked()
      ensures Levels(side) == old(Levels(side))[1..] && Levels(side.Opposite()) == old(Levels(side.Opposite()))
      ensures Views(side) == old(Views(side))[1..] && Views(side.Opposite()) == old(Views(side.Opposite()))
    {
      if side.Buy? {
        bids, bidViews := bids[1..], bidViews[1..];
      } else {
        asks, askViews := asks[1..], askViews[1..];
      }
    }

    /** Drop the first level of a side, emptied by the last fill. */
    method DropEmptyLevel(side: Side)
      requires Shaped() && Draining(State(), side) && Levels(side)[0].Empty()
      modifies this`bids, this`asks, this`bidViews, this`askViews
      ensures Shaped() && Populated(State()) && Abs() == old(Abs())
      ensures |Levels(side)| < old(|Levels(side)|)
    {
      ghost var s := State();
      assert s.Of(side)[0] == Levels(side)[0].View();
      EraseFirst(side);
      CloseFirst(s, side, State());
    }

    // ----- sweeps -----

    /** The order is being swept through the book, and what will come of it is `goal`. */
    ghost predicate Sweeping(order: Order, goal: (Flat, OrderData))
      reads this, Repr, order
    {
      Shaped() && Fresh(Abs(), order.Data()) && 0 <= order.remaining && Match(Abs(), order.Data()) == goal
    }

    /** The sweep has come to the first level of the other side, and accepts its price. */
    ghost predicate Facing(order: Order, level: PriceLevel, goal: (Flat, OrderData))
      reads this, Repr, order, level
    {
      && Sweeping(order, goal) && Draining(State(), order.side.Opposite())
      && level == Levels(order.side.Opposite())[0]
      && Crosses(order.orderType, order.side, order.price, level.price)
    }

    /** One fill of a sweep leaves where the sweep leads. */
    method FillOnce(order: Order, level: PriceLevel, ghost goal: (Flat, OrderData)) returns (executed: Quantity)
      requires Facing(order, level, goal) && !order.IsFilled() && !level.Empty()
      modifies this`trades, this`events, this`lookUp, this`bidViews, this`askViews, level, order
      ensures Facing(order, level, goal)
      ensures executed == old(order.remaining) - order.remaining > 0 && order.remaining >= 0
    {
      executed := ExecuteTrade(order, level);
    }

    /** Fill the order from one level until either is exhausted. */
    method FillFromLevel(order: Order, level: PriceLevel, ghost goal: (Flat, OrderData)) returns (executed: Quantity)
      requires Facing(order, level, goal)
      modifies this`trades, this`events, this`lookUp, this`bidViews, this`askViews, level, order
      ensures Facing(order, level, goal)
      ensures executed == old(order.remaining) - order.remaining >= 0
      ensures level.orders == [] || order.remaining == 0
      ensures executed == 0 ==> level.orders == old(level.orders)
    {
      executed := 0;
      while !order.IsFilled() && !level.Empty()
        invariant Facing(order, level, goal)
        invariant executed == old(order.remaining) - order.remaining >= 0
        invariant executed == 0 ==> level.orders == old(level.orders)
        decreases order.remaining
      {
        var n := FillOnce(order, level, goal);
        executed := executed + n;
      }
    }

    /** One round of a sweep: fill from the best level, and erase it if that emptied it. */
    method SweepBestLevel(order: Order, ghost goal: (Flat, OrderData)) returns (executed: Quantity)
      requires Sweeping(order, goal) && Populated(State()) && !order.IsFilled()
      requires var side := order.side.Opposite();
               Levels(side) != [] && Crosses(order.orderType, order.side, order.price, Levels(side)[0].price)
      modifies this`trades, this`events, this`lookUp, this`bids, this`asks, this`bidViews, this`askViews
      modifies order, Repr
      ensures Sweeping(order, goal) && Populated(State())
      ensures executed == old(order.remaining) - order.remaining >= 0
      ensures var side := order.side.Opposite();
              |Levels(side)| < old(|Levels(side)|) ||
              (|Levels(side)| == old(|Levels(side)|) && order.remaining < old(order.remaining))
    {
      var side := order.side.Opposite();
      var level := Levels(side)[0];
      executed := FillFromLevel(order, level, goal);
      if level.Empty() {
        DropEmptyLevel(side);
      } else {
        KeepFirst(State(), side);
      }
    }

    /** Sweep a limit order through the levels it accepts, best first. */
    method MatchLimitOrderAgainstSide(order: Order) returns (executed: Quantity)
      requires Valid() && order.orderType.Limit? && order.remaining >= 0 && Fresh(Abs(), order.Data())
      modifies this, Repr, order
      ensures Valid() && Repr == old(Repr)
      ensures (Abs(), order.Data()) == Match(old(Abs()), old(order.Data()))
      ensures executed == old(order.remaining) - order.remaining
    {
      executed := 0;
      var side := order.side.Opposite();
      ghost var goal := Match(Abs(), order.Data());
      while !order.IsFilled() && Levels(side) != [] && Crosses(Limit, order.side, order.price, Levels(side)[0].price)
        invariant Sweeping(order, goal) && Populated(State()) && Repr == old(Repr)
        invariant executed == old(order.remaining) - order.remaining
        decreases |Levels(side)|, order.remaining
      {
        var n := SweepBestLevel(order, goal);
        executed := executed + n;
      }
      SweepOver(State(), order.Data());
    }

    /** Sweep a market order through the levels, best first. */
    method MatchMarketOrderAgainstSide(order: Order) returns (executed: Quantity)
      requires Valid() && order.orderType.Market? && order.remaining >= 0 && Fresh(Abs(), order.Data())
      modifies this, Repr, order
      ensures Valid() && Repr == old(Repr)
      ensures (Abs(), order.Data()) == Match(old(Abs()), old(order.Data()))
      ensures executed == old(order.remaining) - order.remaining
    {
      executed := 0;
      var side := order.side.Opposite();
      ghost var goal := Match(Abs(), order.Data());
      while !order.IsFilled() && Levels(side) != []
        invariant Sweeping(order, goal) && Populated(State()) && Repr == old(Repr)
        invariant executed == old(order.remaining) - order.remaining
        decreases |Levels(side)|, order.remaining
      {
        var n := SweepBestLevel(order, goal);
        executed := executed + n;
      }
      SweepOver(State(), order.Data());
    }

    /** Add up cached totals, best level first, until they suffice or the next price is refused. */
    method CanFullyFillAgainstSide(order: Order, side: Side) returns (enough: bool, ghost n: nat)
      requires Linked() && order.remaining > 0
      ensures var vs := Views(side);
              && n <= |vs|
              && (forall j :: 0 <= j < n ==> Crosses(Limit, order.side, order.price, vs[j].price))
              && (enough || n == |vs| || !Crosses(Limit, order.side, order.price, vs[n].price))
              && (enough <==> Totals(vs[..n]) >= order.remaining)
    {
      var levels := Levels(side);
      ghost var vs := Views(side);
      var quantity := order.remaining;
      var i := 0;
      while quantity > 0 && i < |levels| && Crosses(Limit, order.side, order.price, levels[i].price)
        invariant i <= |levels| && quantity == order.remaining - Totals(vs[..i])
        invariant forall j :: 0 <= j < i ==> Crosses(Limit, order.side, order.price, vs[j].price)
        decreases |levels| - i
      {
        assert vs[i] == levels[i].View();
        TotalsAppend(vs[..i], vs[i]);
        assert vs[..i + 1] == vs[..i] + [vs[i]];
        quantity := quantity - levels[i].totalQuantity;
        i := i + 1;
      }
      assert i < |levels| ==> vs[i] == levels[i].View();
      enough, n := quantity <= 0, i;
    }

    /** Fill-or-kill looks only at cached totals; it sees exactly whether the sweep would fill the order. */
    method CanFullyFill(order: Order) returns (enough: bool)
      requires Valid() && order.orderType.Limit? && order.remaining > 0 && Fresh(Abs(), order.Data())
      ensures enough <==> Match(Abs(), order.Data()).1.remaining == 0
    {
      ghost var n;
      enough, n := CanFullyFillAgainstSide(order, order.side.Opposite());
      TotalsDecide(State(), order.Data(), n);
    }

    // ----- resting -----

    /** Put a copy of the order at the back of the level of its price, opening the level if there is none. */
    method PlaceInLevel(order: Order) returns (level: PriceLevel, ghost i: nat)
      requires Linked() && LevelsOk(order.side, Views(order.side)) && !order.IsFilled() && order.price > 0
      modifies this`bids, this`asks, this`bidViews, this`askViews, this`Repr, Repr
      ensures Linked() && GrownByFresh()
      ensures PlacedAt(old(Views(order.side)), order.Data(), i, level.View(), Views(order.side))
      ensures Views(order.side.Opposite()) == old(Views(order.side.Opposite()))
    {
      var levels := Levels(order.side);
      var k := LowerBound(order.side, levels, order.price);
      i := k;
      if k < |levels| && levels[k].price == order.price {
        level := levels[k];
        JoinLevelAt(order, k);
      } else {
        level := new PriceLevel(order.price, order.side);
        level.AddOrder(order);
        InsertLevel(order.side, k, level);
      }
    }

    method JoinLevelAt(order: Order, k: nat)
      requires Linked() && LevelsOk(order.side, Views(order.side)) && !order.IsFilled()
      requires k < |Levels(order.side)| && Levels(order.side)[k].price == order.price
      modifies this`bidViews, this`askViews, Levels(order.side)[k]
      ensures Linked()
      ensures var v := old(Views(order.side)[k]);
              && Levels(order.side)[k].View() ==
                 LevelView(order.price, v.total + order.remaining, v.orders + [order.Data()])
              && Views(order.side) == old(Views(order.side))[k := Levels(order.side)[k].View()]
      ensures Views(order.side.Opposite()) == old(Views(order.side.Opposite()))
    {
      var level := Levels(order.side)[k];
      assert Views(order.side)[k] == level.View();
      LevelsAreApart(order.side, k);
      level.AddOrder(order);
      if order.side.Buy? {
        bidViews := bidViews[k := level.View()];
      } else {
        askViews := askViews[k := level.View()];
      }
    }

    /** A level of a side is no other level of the book. */
    lemma LevelsAreApart(side: Side, k: nat)
      requires Arranged(Buy, bids, Repr) && Arranged(Sell, asks, Repr) && k < |Levels(side)|
      ensures forall i :: 0 <= i < |Levels(side)| && i != k ==> Levels(side)[i] != Levels(side)[k]
      ensures forall i :: 0 <= i < |Levels(side.Opposite())| ==> Levels(side.Opposite())[i] != Levels(side)[k]
    {
      forall i | 0 <= i < |Levels(side)| && i != k
        ensures Levels(side)[i] != Levels(side)[k]
      {
        assert i < k ==> Better(side, Levels(side)[i].price, Levels(side)[k].price);
        assert k < i ==> Better(side, Levels(side)[k].price, Levels(side)[i].price);
      }
    }

    /** Insert a new level object in its place. */
    method InsertLevel(side: Side, k: nat, level: PriceLevel)
      requires Linked() && level.side == side && k <= |Levels(side)|
      requires forall j :: 0 <= j < k ==> Better(side, Levels(side)[j].price, level.price)
      requires k < |Levels(side)| ==> Better(side, level.price, Levels(side)[k].price)
      modifies this`bids, this`asks, this`bidViews, this`askViews, this`Repr
      ensures Linked() && Repr == old(Repr) + {level}
      ensures Views(side) == old(Views(side))[..k] + [level.View()] + old(Views(side))[k..]
      ensures Views(side.Opposite()) == old(Views(side.Opposite()))
      ensures Position(side, old(Views(side)), level.price, k)
    {
      InsertedInPlace(side, Levels(side), Views(side), k, level, Repr);
      Repr := Repr + {level};
      if side.Buy? {
        bids := bids[..k] + [level] + bids[k..];
        bidViews := bidViews[..k] + [level.View()] + bidViews[k..];
      } else {
        asks := asks[..k] + [level] + asks[k..];
        askViews := askViews[..k] + [level.View()] + askViews[k..];
      }
    }

    /** The steps of resting an order: its level, its index entry, its announcement. */
    method RestInPlace(order: Order) returns (inserted: bool, ghost i: nat, ghost v: LevelView)
      requires Linked() && LevelsOk(order.side, Views(order.side)) && !order.IsFilled() && order.price > 0
      requires order.id !in lookUp
      modifies this`bids, this`asks, this`bidViews, this`askViews, this`lookUp, this`events, this`Repr, Repr
      ensures Linked() && GrownByFresh() && inserted
      ensures Rested(old(State()), order.Data(), i, v, State())
    {
      var level;
      level, i := PlaceInLevel(order);
      v := level.View();
      inserted := order.id !in lookUp;
      if inserted {
        lookUp := lookUp[order.id := OrderLocation(order.side, order.price)];
      }
      events := events + [BookUpdate(order.side, order.price, level.totalQuantity)];
    }

    /** Rest what is left of an order, if anything is. */
    method AddOrderToSide(order: Order) returns (inserted: bool)
      requires Valid()
      requires order.IsFilled() ||
               (Fresh(Abs(), order.Data()) && RestingOk(order.side, order.Data(), nextOrderId) &&
                !CanTrade(Abs(), order.Data()))
      modifies this, Repr
      ensures Valid() && GrownByFresh() && inserted
      ensures Abs() == if order.IsFilled() then old(Abs()) else Rest(old(Abs()), order.Data())
    {
      if order.IsFilled() {
        return true;
      }
      ghost var s, o := State(), order.Data();
      ghost var i, v;
      inserted, i, v := RestInPlace(order);
      RestKeepsAll(s, o, i, v, State());
    }

    // ----- cancelling -----

    /** Take an order out of the level its location names, and the level away if that emptied it. */
    method CancelOrderSide(location: OrderLocation, id: OrderId, ghost i: nat) returns (found: bool)
      requires Linked() && LevelsOk(location.side, Views(location.side))
      requires i < |Views(location.side)| && Views(location.side)[i].price == location.price
      requires Holds(Views(location.side)[i].orders, id)
      modifies this`bids, this`asks, this`bidViews, this`askViews, this`events, Repr
      ensures Linked() && found
      ensures var vs := old(Views(location.side));
              var j := Find(vs[i].orders, id);
              var v := LevelWithout(vs[i], j);
              && Views(location.side) == AfterLeaving(vs, i, v)
              && events == old(events) + [BookUpdate(location.side, v.price, if v.orders == [] then 0 else v.total)]
      ensures Views(location.side.Opposite()) == old(Views(location.side.Opposite()))
    {
      var levels := Levels(location.side);
      var k := LowerBound(location.side, levels, location.price);
      assert levels[i].price == Views(location.side)[i].price;
      LowerBoundFinds(location.side, levels, Repr, i);
      if k == |levels| || levels[k].price != location.price {
        return false;
      }
      var newQuantity := EraseFromLevel(location.side, k, id);
      events := events + [BookUpdate(location.side, location.price, newQuantity)];
      found := true;
    }

    method EraseFromLevel(side: Side, k: nat, id: OrderId) returns (left: Quantity)
      requires Linked() && LevelsOk(side, Views(side))
      requires k < |Levels(side)| && Holds(Views(side)[k].orders, id)
      modifies this`bids, this`asks, this`bidViews, this`askViews, Levels(side)[k]
      ensures Linked()
      ensures var vs := old(Views(side));
              var j := Find(vs[k].orders, id);
              var v := LevelWithout(vs[k], j);
              && Views(side) == AfterLeaving(vs, k, v)
              && left == if v.orders == [] then 0 else v.total
      ensures Views(side.Opposite()) == old(Views(side.Opposite()))
    {
      ghost var vs := Views(side);
      ghost var j := Find(vs[k].orders, id);
      EraseInLevel(side, k, id);
      var level := Levels(side)[k];
      ghost var v := LevelWithout(vs[k], j);
      assert level.View() == v && Views(side) == vs;
      left := if level.Empty() then 0 else level.totalQuantity;
      SetOrEraseLevel(side, k);
    }

    /** The level loses the order; the other levels look as before. */
    method EraseInLevel(side: Side, k: nat, id: OrderId)
      requires Linked() && LevelsOk(side, Views(side))
      requires k < |Levels(side)| && Holds(Views(side)[k].orders, id)
      modifies Levels(side)[k]
      ensures Seen(Levels(side.Opposite()), Views(side.Opposite()))
      ensures Seen(Levels(side), Views(side)[k := Levels(side)[k].View()])
      ensures var v := Views(side)[k];
              var j := Find(v.orders, id);
              Levels(side)[k].View() == LevelWithout(v, j)
    {
      var level := Levels(side)[k];
      assert Views(side)[k] == level.View();
      LevelsAreApart(side, k);
      level.EraseOrder(id);
    }

    /** After one level changed: see it as it is, or erase it if it is empty. */
    method SetOrEraseLevel(side: Side, k: nat)
      requires Arranged(Buy, bids, Repr) && Arranged(Sell, asks, Repr) && k < |Levels(side)|
      requires Seen(Levels(side.Opposite()), Views(side.Opposite()))
      requires |Views(side)| == |Levels(side)| && Seen(Levels(side), Views(side)[k := Levels(side)[k].View()])
      modifies this`bids, this`asks, this`bidViews, this`askViews
      ensures Linked()
      ensures var v := old(Levels(side)[k].View());
              var vs := old(Views(side));
              Views(side) == AfterLeaving(vs, k, v)
      ensures Views(side.Opposite()) == old(Views(side.Opposite()))
    {
      var levels := Levels(side);
      ghost var vs := Views(side)[k := levels[k].View()];
      if levels[k].Empty() {
        ErasedInPlace(side, levels, vs, k, Repr);
        levels := levels[..k] + levels[k + 1..];
        vs := vs[..k] + vs[k + 1..];
        assert vs == Views(side)[..k] + Views(side)[k + 1..];
      }
      if side.Buy? {
        bids, bidViews := levels, vs;
      } else {
        asks, askViews := levels, vs;
      }
    }

    /** Cancel by id: out of the index, out of its level. */
    method CancelOrder(id: OrderId) returns (cancelled: bool)
      requires Valid()
      modifies this, Repr
      ensures Valid() && Repr == old(Repr)
      ensures cancelled <==> Rests(old(Abs()), id)
      ensures Abs() == if cancelled then Withdraw(old(Abs()), id) else old(Abs())
    {
      ghost var s := State();
      IndexKnows(s, id);
      cancelled := id in lookUp;
      if cancelled {
        ghost var i := LocateLevel(s, id);
        cancelled := Depart(id, i);
        DepartKeepsAll(s, id, i, State());
      }
    }

    /** The steps of cancelling an order known to the index. */
    method Depart(id: OrderId, ghost i: nat) returns (found: bool)
      requires Linked() && id in lookUp && LevelsOk(lookUp[id].side, Views(lookUp[id].side))
      requires i < |Views(lookUp[id].side)| && Views(lookUp[id].side)[i].price == lookUp[id].price
      requires Holds(Views(lookUp[id].side)[i].orders, id)
      modifies this`bids, this`asks, this`bidViews, this`askViews, this`events, this`lookUp, Repr
      ensures Linked() && found
      ensures Departed(old(State()), id, i, State())
    {
      var location := lookUp[id];
      lookUp := lookUp - {id};
      found := CancelOrderSide(location, id, i);
    }

    /** The resting order carrying an id, if there is one. */
    method FindOrder(id: OrderId) returns (found: bool, data: OrderData)
      requires Valid()
      ensures found <==> Rests(Abs(), id)
      ensures found ==> data == OrderWith(Abs(), id)
    {
      if id !in lookUp {
        data := *;
        return false, data;
      }
      var location := lookUp[id];
      var levels := Levels(location.side);
      ghost var i := LocateLevel(State(), id);
      LocatedOrder(State(), id, i);
      assert Views(location.side)[i] == levels[i].View();
      LowerBoundFinds(location.side, levels, Repr, i);
      var level := levels[LowerBound(location.side, levels, location.price)];
      found, data := true, level.orders[Find(level.orders, id)];
    }

    // ----- entering -----

    /** Every combination has its one status. */
    function FromMatch(inserted: bool, orderType: OrderType, executed: Quantity, remaining: Quantity)
      : (r: AddOrderResult)
      ensures r.remaining == remaining && r.executed == if inserted then executed else 0
      ensures r.status.Failed? <==> !inserted
      ensures r.status.FullyFilled? <==> inserted && remaining == 0
      ensures r.status.PartiallyFilled? <==> inserted && remaining != 0 && executed != 0
      ensures r.status.Rejected? <==> inserted && remaining != 0 && executed == 0 && orderType.Market?
      ensures r.status.Resting? <==> inserted && remaining != 0 && executed == 0 && orderType.Limit?
    {
      if inserted then ResultOf(orderType, executed, remaining) else AddOrderResult(Failed, 0, remaining)
    }

    /** Match a buy against the asks, a sell against the bids; what is left can meet nobody. */
    method MatchOrder(order: Order, ghost goal: (Flat, OrderData)) returns (executed: Quantity)
      requires Valid() && order.orderType.Limit? && Fresh(Abs(), order.Data()) && Enterable(Abs(), order.Data())
      requires goal == Match(Abs(), order.Data())
      modifies this, Repr, order
      ensures Valid() && Repr == old(Repr)
      ensures Abs() == goal.0 && order.Data() == goal.1
      ensures executed == old(order.remaining) - order.remaining
      ensures order.remaining != 0 ==> Fresh(Abs(), order.Data()) && !CanTrade(Abs(), order.Data())
      ensures order.remaining != 0 && order.tif.GoodTillCancel? ==> RestingOk(order.side, order.Data(), nextOrderId)
    {
      AfterSweep(Abs(), order.Data());
      executed := MatchLimitOrderAgainstSide(order);
    }

    /** What is left of a good-till-cancel order rests. */
    method RestIfKept(order: Order) returns (inserted: bool)
      requires Valid()
      requires order.remaining != 0 && order.tif.GoodTillCancel? ==>
                 Fresh(Abs(), order.Data()) && RestingOk(order.side, order.Data(), nextOrderId) &&
                 !CanTrade(Abs(), order.Data())
      modifies this, Repr
      ensures Valid() && GrownByFresh() && inserted
      ensures Abs() == if order.tif.GoodTillCancel? && order.remaining != 0 then Rest(old(Abs()), order.Data())
                       else old(Abs())
    {
      inserted := true;
      if order.tif.GoodTillCancel? {
        inserted := AddOrderToSide(order);
      }
    }

    /** Sweep, then rest what is left if the order is good till cancelled. */
    method SweepThenRest(order: Order, ghost goal: (Flat, OrderData))
      returns (executed: Quantity, remaining: Quantity, inserted: bool)
      requires Valid() && order.orderType.Limit? && Fresh(Abs(), order.Data()) && Enterable(Abs(), order.Data())
      requires goal == Match(Abs(), order.Data())
      modifies this, Repr, order
      ensures Valid() && GrownByFresh() && inserted
      ensures Abs() == if order.tif.GoodTillCancel? && goal.1.remaining != 0 then Rest(goal.0, goal.1) else goal.0
      ensures executed == old(order.remaining) - goal.1.remaining && remaining == goal.1.remaining
    {
      executed := MatchOrder(order, goal);
      remaining := order.remaining;
      inserted := RestIfKept(order);
    }

    /** The same, with its result. */
    method MatchAndRest(order: Order, ghost goal: (Flat, OrderData)) returns (r: AddOrderResult)
      requires Valid() && order.orderType.Limit? && Fresh(Abs(), order.Data()) && Enterable(Abs(), order.Data())
      requires goal == Match(Abs(), order.Data())
      modifies this, Repr, order
      ensures Valid() && GrownByFresh()
      ensures Abs() == if order.tif.GoodTillCancel? && goal.1.remaining != 0 then Rest(goal.0, goal.1) else goal.0
      ensures r == ResultOf(Limit, old(order.remaining) - goal.1.remaining, goal.1.remaining)
    {
      var executed, remaining, inserted := SweepThenRest(order, goal);
      r := FromMatch(inserted, order.orderType, executed, remaining);
    }

    method AddLimitOrder(order: Order) returns (r: AddOrderResult)
      requires Valid() && order.orderType.Limit? && Fresh(Abs(), order.Data()) && Enterable(Abs(), order.Data())
      modifies this, Repr, order
      ensures Valid() && GrownByFresh()
      ensures Abs() == Enter(old(Abs()), old(order.Data())).0
      ensures r == Enter(old(Abs()), old(order.Data())).1
    {
      ghost var goal := Match(Abs(), order.Data());
      var enough := true;
      if order.tif.FillOrKill? {
        enough := CanFullyFill(order);
      }
      if enough {
        EnterLimit(Abs(), order.Data(), goal);
        r := MatchAndRest(order, goal);
      } else {
        r := AddOrderResult(Rejected, 0, order.remaining);
      }
    }

    /** The same sweep, its outcome known in advance. */
    method SweepMarketOrder(order: Order, ghost goal: (Flat, OrderData)) returns (executed: Quantity)
      requires Valid() && order.orderType.Market? && order.remaining >= 0 && Fresh(Abs(), order.Data())
      requires goal == Match(Abs(), order.Data())
      modifies this, Repr, order
      ensures Valid() && Repr == old(Repr)
      ensures Abs() == goal.0 && order.remaining == goal.1.remaining
      ensures executed == old(order.remaining) - order.remaining
    {
      executed := MatchMarketOrderAgainstSide(order);
    }

    method AddMarketOrder(order: Order) returns (r: AddOrderResult)
      requires Valid() && order.orderType.Market? && Fresh(Abs(), order.Data()) && Enterable(Abs(), order.Data())
      modifies this, Repr, order
      ensures Valid() && GrownByFresh()
      ensures Abs() == Enter(old(Abs()), old(order.Data())).0
      ensures r == Enter(old(Abs()), old(order.Data())).1
    {
      ghost var goal := Match(Abs(), order.Data());
      EnterMarket(Abs(), order.Data(), goal);
      var executed := SweepMarketOrder(order, goal);
      r := ResultOf(order.orderType, executed, order.remaining);
    }

    method Add(order: Order) returns (r: AddOrderResult)
      requires Valid() && Fresh(Abs(), order.Data()) && Enterable(Abs(), order.Data())
      modifies this, Repr, order
      ensures Valid() && GrownByFresh()
      ensures Abs() == Enter(old(Abs()), old(order.Data())).0
      ensures r == Enter(old(Abs()), old(order.Data())).1 && r.status != Failed
    {
      if order.orderType.Limit? {
        r := AddLimitOrder(order);
      } else {
        r := AddMarketOrder(order);
      }
    }

    /** Cancel, then enter the replacement under the same id. */
    method Modify(id: OrderId, newPrice: Price, newQuantity: Quantity) returns (modified: bool)
      requires Valid()
      requires Rests(Abs(), id) ==> Enterable(Abs(), Replacement(OrderWith(Abs(), id), newPrice, newQuantity))
      modifies this, Repr
      ensures Valid() && GrownByFresh()
      ensures modified <==> Rests(old(Abs()), id)
      ensures Abs() == if modified
                       then Enter(Withdraw(old(Abs()), id),
                                  Replacement(OrderWith(old(Abs()), id), newPrice, newQuantity)).0
                       else old(Abs())
    {
      ghost var st := Abs();
      var found, was := FindOrder(id);
      if !found {
        return false;
      }
      var order := new Order.FromReplacement(was, newPrice, newQuantity);
      ReplacementMayEnter(st, id, order.Data());
      var cancelled := CancelOrder(id);
      var r := Add(order);
      modified := r.status != Failed;
    }

    // ----- messages -----

    method AddPrivateEvent(conn: int, event: PrivateEvent)
      requires Valid()
      modifies this`events
      ensures Valid() && Abs() == old(Abs()).Emit([Routed(conn, event)])
    {
      Say(State(), Routed(conn, event));
      events := events + [Routed(conn, event)];
    }

    /** Hand out the next book id. */
    method TakeNextId() returns (id: OrderId)
      requires Valid()
      modifies this`nextOrderId
      ensures Valid() && id == old(Abs()).nextId && !Rests(Abs(), id)
      ensures Abs() == old(Abs()).(nextId := old(Abs()).nextId + 1)
    {
      TakeId(State());
      id := nextOrderId;
      nextOrderId := nextOrderId + 1;
    }

    /** Let the message's order into the book under the id it was given. */
    method EnterNew(msg: Message, id: OrderId, ghost goal: (Flat, AddOrderResult)) returns (r: AddOrderResult)
      requires Valid() && msg.AddOrder? && Fresh(Abs(), OrderOf(msg, id)) && Enterable(Abs(), OrderOf(msg, id))
      requires goal == Enter(Abs(), OrderOf(msg, id))
      modifies this, Repr
      ensures Valid() && GrownByFresh()
      ensures Abs() == goal.0 && r == goal.1 && r.status != Failed
    {
      var order := new Order(msg.orderType, msg.tif, id, msg.price, msg.quantity, msg.side, msg.seqNo, msg.conn,
                             msg.clientId);
      r := Add(order);
    }

    /** Take the next id and enter the order under it. */
    method EnterUnderNextId(msg: Message, ghost goal: (Flat, AddOrderResult)) returns (id: OrderId, r: AddOrderResult)
      requires Valid() && msg.AddOrder? && Accepts(Abs(), msg)
      requires goal == Enter(Abs().(nextId := Abs().nextId + 1), OrderOf(msg, Abs().nextId))
      modifies this, Repr
      ensures Valid() && GrownByFresh()
      ensures id == old(Abs()).nextId && Abs() == goal.0 && r == goal.1
    {
      ghost var st := Abs();
      id := TakeNextId();
      assert Fresh(Abs(), OrderOf(msg, id)) && Enterable(Abs(), OrderOf(msg, id)) by {
        NewOrderMayEnter(st, msg);
      }
      r := EnterNew(msg, id, goal);
    }

    /** Tell the sender of an order what came of it. */
    method ReportAdd(msg: Message, id: OrderId, r: AddOrderResult)
      requires Valid() && msg.AddOrder?
      modifies this`events
      ensures Valid() && Abs() == old(Abs()).Emit([Routed(msg.conn, AddEvent(msg, id, r))])
    {
      var event;
      match r.status {
        case Failed | Rejected => event := OrderRejected(id, NoLiquidity);
        case FullyFilled => event := OrderFilled(id, msg.clientId);
        case Resting =>
          if msg.tif.ImmediateOrCancel? {
            event := OrderExpired(id, msg.clientId);
          } else {
            event := OrderRested(id, msg.clientId, r.remaining);
          }
        case PartiallyFilled =>
          if msg.tif.GoodTillCancel? {
            event := OrderRested(id, msg.clientId, r.remaining);
          } else {
            event := OrderExpired(id, msg.clientId);
          }
      }
      AddPrivateEvent(msg.conn, event);
    }

    method ProcessAdd(msg: Message)
      requires Valid() && msg.AddOrder? && Accepts(Abs(), msg)
      modifies this, Repr
      ensures Valid() && GrownByFresh()
      ensures Abs() == Process(old(Abs()), msg)
    {
      ghost var st := Abs();
      ghost var goal := Enter(st.(nextId := st.nextId + 1), OrderOf(msg, st.nextId));
      ghost var end := Process(st, msg);
      ProcessAddIs(st, msg, goal);
      EnterAndReport(msg, goal, end);
    }

    /** The same, where the entry and the whole message lead being known. */
    method EnterAndReport(msg: Message, ghost goal: (Flat, AddOrderResult), ghost end: Flat)
      requires Valid() && msg.AddOrder? && Accepts(Abs(), msg)
      requires goal == Enter(Abs().(nextId := Abs().nextId + 1), OrderOf(msg, Abs().nextId))
      requires end == goal.0.Emit([Routed(msg.conn, AddEvent(msg, Abs().nextId, goal.1))])
      modifies this, Repr
      ensures Valid() && GrownByFresh() && Abs() == end
    {
      var id, r := EnterUnderNextId(msg, goal);
      ReportAdd(msg, id, r);
    }

    method ProcessModify(msg: Message)
      requires Valid() && msg.ModifyOrder? && Accepts(Abs(), msg)
      modifies this, Repr
      ensures Valid() && GrownByFresh()
      ensures Abs() == Process(old(Abs()), msg)
    {
      var modified := Modify(msg.id, msg.newPrice, msg.newQuantity);
      if !modified {
        AddPrivateEvent(msg.conn, ModifyRejected(msg.id, InvalidOrderId));
        return;
      }
      AddPrivateEvent(msg.conn, OrderModified(msg.id, msg.newPrice, msg.newQuantity));
    }

    method ProcessCancel(msg: Message)
      requires Valid() && msg.CancelOrder?
      modifies this, Repr
      ensures Valid() && GrownByFresh()
      ensures Abs() == Process(old(Abs()), msg)
    {
      var cancelled := CancelOrder(msg.id);
      if !cancelled {
        AddPrivateEvent(msg.conn, CancelRejected(msg.id, InvalidOrderId));
        return;
      }
      AddPrivateEvent(msg.conn, OrderCanceled(msg.id));
    }

    method ProcessMessage(msg: Message)
      requires Valid() && Accepts(Abs(), msg)
      modifies this, Repr
      ensures Valid() && GrownByFresh()
      ensures Abs() == Process(old(Abs()), msg)
    {
      match msg {
        case AddOrder(_, _, _, _, _, _, _, _) => ProcessAdd(msg);
        case CancelOrder(_, _, _) => ProcessCancel(msg);
        case ModifyOrder(_, _, _, _, _) => ProcessModify(msg);
      }
    }

    /** Every message of a list, in order. */
    method ProcessAll(msgs: seq<Message>)
      requires Valid() && AcceptsAll(Abs(), msgs)
      modifies this, Repr
      ensures Valid() && GrownByFresh()
      ensures Abs() == Run(old(Abs()), msgs)
    {
      ghost var goal := Run(Abs(), msgs);
      for i := 0 to |msgs|
        invariant Valid() && GrownByFresh()
        invariant AcceptsAll(Abs(), msgs[i..]) && Run(Abs(), msgs[i..]) == goal
      {
        assert msgs[i..][0] == msgs[i] && msgs[i..][1..] == msgs[i + 1..];
        ProcessMessage(msgs[i]);
      }
    }

    // ----- inspection -----

    method LevelQuantity(side: Side, price: Price) returns (quantity: Quantity)
      requires Valid()
      ensures quantity == Depth(Abs().Of(side), price)
    {
      var levels := Levels(side);
      var k := LowerBound(side, levels, price);
      DepthSeen(State(), side, price, k);
      quantity := if k < |levels| && levels[k].price == price then levels[k].totalQuantity else 0;
    }

    /** The best price of a side; none when the side is empty. */
    method BestPrice(side: Side) returns (found: bool, price: Price)
      requires Valid()
      ensures found <==> Abs().Of(side) != []
      ensures found ==> price == Abs().Of(side)[0].price
    {
      var levels := Levels(side);
      price := 0;
      found := levels != [];
      if found {
        FirstMaker(State(), side);
        price := levels[0].price;
      }
    }
  }
}
