/**
 The engine's state as one value: two sides of levels with cached totals, the index, the tape, the id
 counter and the events; what its redundant parts owe each other; and how each step keeps that.
 */
module LevelBooks {
  import opened BookTypes
  import opened FlatBook
  import opened BookInvariant
  import opened LevelViews

  /** Where a resting order lives: its side and its level's price; its id names it within the level. */
  datatype OrderLocation = OrderLocation(side: Side, price: Price)

  ghost predicate EntriesOk(lookUp: map<OrderId, OrderLocation>, side: Side, q: seq<OrderData>) {
    forall i :: 0 <= i < |q| ==> q[i].id in lookUp && lookUp[q[i].id] == OrderLocation(side, q[i].price)
  }

  /** The index agrees with the book: exactly the resting ids, each at its side and price. */
  ghost predicate IndexOk(lookUp: map<OrderId, OrderLocation>, st: Flat) {
    && EntriesOk(lookUp, Buy, st.bids) && EntriesOk(lookUp, Sell, st.asks)
    && forall id :: id in lookUp ==> Rests(st, id)
  }

  /** The index entry of an id that is not on the book is nobody's loss. */
  lemma ForgetId(lookUp: map<OrderId, OrderLocation>, side: Side, q: seq<OrderData>, id: OrderId)
    requires EntriesOk(lookUp, side, q) && !Holds(q, id)
    ensures EntriesOk(lookUp - {id}, side, q)
  {
  }

  /** One id leaves one queue, and with it the index. */
  lemma IndexAfterRemoval(lookUp: map<OrderId, OrderLocation>, st: Flat, side: Side, k: nat, st': Flat)
    requires Inv(st) && IndexOk(lookUp, st) && k < |st.Of(side)|
    requires st'.Of(side) == Without(st.Of(side), k) && st'.Of(side.Opposite()) == st.Of(side.Opposite())
    ensures IndexOk(lookUp - {st.Of(side)[k].id}, st')
  {
    var q, p := st.Of(side), st.Of(side.Opposite());
    var id := q[k].id;
    DropOk(side, q, k, st.nextId);
    EntriesWithout(lookUp, side, q, k);
    ForgetId(lookUp, side, Without(q, k), id);
    ForgetId(lookUp, side.Opposite(), p, id);
    forall other | other in lookUp && other != id
      ensures Rests(st', other)
    {
      if Holds(q, other) {
        StillHolds(q, k, other);
      }
    }
  }

  lemma EntriesWithout(lookUp: map<OrderId, OrderLocation>, side: Side, q: seq<OrderData>, k: nat)
    requires EntriesOk(lookUp, side, q) && k < |q|
    ensures EntriesOk(lookUp, side, Without(q, k))
  {
    assert forall i :: 0 <= i < |q| - 1 ==> Without(q, k)[i] == q[if i < k then i else i + 1];
  }

  lemma StillHolds(q: seq<OrderData>, k: nat, id: OrderId)
    requires k < |q| && Holds(q, id) && q[k].id != id
    ensures Holds(Without(q, k), id)
  {
    var j := Find(q, id);
    assert Without(q, k)[if j < k then j else j - 1].id == id;
  }

  /** Reducing the front of a queue changes no entry. */
  lemma IndexAfterReduction(lookUp: map<OrderId, OrderLocation>, st: Flat, side: Side, m: OrderData, st': Flat)
    requires IndexOk(lookUp, st) && st.Of(side) != []
    requires m.id == st.Of(side)[0].id && m.price == st.Of(side)[0].price
    requires st'.Of(side) == [m] + st.Of(side)[1..] && st'.Of(side.Opposite()) == st.Of(side.Opposite())
    ensures IndexOk(lookUp, st')
  {
    var q, q' := st.Of(side), st'.Of(side);
    assert forall i :: 0 <= i < |q| ==> q'[i].id == q[i].id && q'[i].price == q[i].price;
    assert EntriesOk(lookUp, side, q');
    forall id | id in lookUp
      ensures Rests(st', id)
    {
      if Holds(q, id) {
        assert q'[Find(q, id)].id == id;
      }
    }
  }

  lemma IndexAfterTradeOnce(lookUp: map<OrderId, OrderLocation>, st: Flat, o: OrderData)
    requires Inv(st) && OppositeQueue(st, o) != [] && IndexOk(lookUp, st)
    ensures var m := OppositeQueue(st, o)[0];
            var n := Min(o.remaining, m.remaining);
            IndexOk(if m.remaining == n then lookUp - {m.id} else lookUp, TradeOnce(st, o).0)
  {
    var opp := o.side.Opposite();
    var m := st.Of(opp)[0];
    var n := Min(o.remaining, m.remaining);
    var st' := TradeOnce(st, o).0;
    if m.remaining == n {
      assert st'.Of(opp) == Without(st.Of(opp), 0);
      IndexAfterRemoval(lookUp, st, opp, 0, st');
    } else {
      IndexAfterReduction(lookUp, st, opp, m.(remaining := m.remaining - n), st');
    }
  }

  /** Everything the engine holds. */
  datatype LevelBook = LevelBook(
    bids: seq<LevelView>,
    asks: seq<LevelView>,
    lookUp: map<OrderId, OrderLocation>,
    trades: seq<Trade>,
    nextId: OrderId,
    events: seq<Event>)
  {
    function Of(side: Side): seq<LevelView> {
      if side.Buy? then bids else asks
    }

    /** The flat book this state stands for. */
    function Flat(): Flat {
      FlatBook.Flat(Flatten(bids), Flatten(asks), trades, nextId, events)
    }
  }

  /** Sorted levels with exact totals, a legal flat book, an exact index. */
  ghost predicate Coherent(s: LevelBook) {
    && LevelsOk(Buy, s.bids) && LevelsOk(Sell, s.asks)
    && Inv(s.Flat()) && IndexOk(s.lookUp, s.Flat())
  }

  /** No level is empty. */
  ghost predicate NoneEmpty(vs: seq<LevelView>) {
    vs == [] || (vs[0].orders != [] && NoneEmpty(vs[1..]))
  }

  ghost predicate Populated(s: LevelBook) {
    NoneEmpty(s.bids) && NoneEmpty(s.asks)
  }

  lemma {:induction false} NoneEmptyIff(vs: seq<LevelView>)
    ensures NoneEmpty(vs) <==> forall i :: 0 <= i < |vs| ==> vs[i].orders != []
  {
    if vs != [] {
      NoneEmptyIff(vs[1..]);
      assert forall i :: 0 < i < |vs| ==> vs[i] == vs[1..][i - 1];
    }
  }

  /** Only the first level of `side` may be empty. */
  ghost predicate Draining(s: LevelBook, side: Side) {
    s.Of(side) != [] && NoneEmpty(s.Of(side)[1..]) && NoneEmpty(s.Of(side.Opposite()))
  }

  function LevelFilled(v: LevelView, n: Quantity): LevelView
    requires v.orders != []
  {
    LevelView(v.price, v.total - n, Reduce(v.orders, n))
  }

  /** A fill of `n` between an order and the front of level `v`, in the index, the tape and the events. */
  ghost predicate FilledFront(s: LevelBook, o: OrderData, v: LevelView, n: Quantity, s': LevelBook) {
    && v.orders != []
    && var maker := v.orders[0];
    && n == Min(o.remaining, maker.remaining)
    && s'.lookUp == (if maker.remaining == n then s.lookUp - {maker.id} else s.lookUp)
    && s'.trades == s.trades + [TradeOf(o, maker)]
    && s'.nextId == s.nextId
    && s'.events == s.events + [TradeEvent(TradeOf(o, maker)), BookUpdate(o.side.Opposite(), v.price, v.total - n),
                                MakerEvent(maker, maker.remaining - n)]
  }

  /** The next state differs only in the first level of one side, the index, the tape and the events. */
  ghost predicate FilledFirst(s: LevelBook, o: OrderData, n: Quantity, s': LevelBook) {
    var opp := o.side.Opposite();
    && s.Of(opp) != [] && FilledFront(s, o, s.Of(opp)[0], n, s')
    && s'.Of(opp) == s.Of(opp)[0 := LevelFilled(s.Of(opp)[0], n)]
    && s'.Of(o.side) == s.Of(o.side)
  }

  lemma FilledThenSeen(s: LevelBook, o: OrderData, n: Quantity, mid: LevelBook, s': LevelBook)
    requires var opp := o.side.Opposite();
             && s.Of(opp) != [] && FilledFront(s, o, s.Of(opp)[0], n, mid) && mid.bids == s.bids && mid.asks == s.asks
             && s'.Of(opp) == mid.Of(opp)[0 := LevelFilled(mid.Of(opp)[0], n)] && s'.Of(o.side) == mid.Of(o.side)
    requires s'.lookUp == mid.lookUp && s'.trades == mid.trades && s'.nextId == mid.nextId && s'.events == mid.events
    ensures FilledFirst(s, o, n, s')
  {
  }

  /** A fill in the first level is a trade with the first maker of the queue. */
  lemma FillIsTradeOnce(s: LevelBook, o: OrderData, n: Quantity, s': LevelBook)
    requires LevelsOk(o.side.Opposite(), s.Of(o.side.Opposite())) && FilledFirst(s, o, n, s')
    ensures OppositeQueue(s.Flat(), o) != []
    ensures OppositeQueue(s.Flat(), o)[0] == s.Of(o.side.Opposite())[0].orders[0]
    ensures TradeOnce(s.Flat(), o) == (s'.Flat(), o.(remaining := o.remaining - n))
  {
    TradeOnceInLevels(s.Flat(), o, s.Of(o.side.Opposite()), n, s'.Flat(), o.(remaining := o.remaining - n));
  }

  lemma FillKeepsLevels(s: LevelBook, o: OrderData, n: Quantity, s': LevelBook)
    requires LevelsOk(Buy, s.bids) && LevelsOk(Sell, s.asks) && FilledFirst(s, o, n, s')
    ensures LevelsOk(Buy, s'.bids) && LevelsOk(Sell, s'.asks)
  {
    ReduceLevel(o.side.Opposite(), s.Of(o.side.Opposite()), n);
  }

  lemma FillKeepsIndex(s: LevelBook, o: OrderData, n: Quantity, s': LevelBook)
    requires Inv(s.Flat()) && IndexOk(s.lookUp, s.Flat()) && FilledFirst(s, o, n, s')
    requires OppositeQueue(s.Flat(), o) != []
    requires OppositeQueue(s.Flat(), o)[0] == s.Of(o.side.Opposite())[0].orders[0]
    requires TradeOnce(s.Flat(), o).0 == s'.Flat()
    ensures IndexOk(s'.lookUp, s'.Flat())
  {
    IndexAfterTradeOnce(s.lookUp, s.Flat(), o);
  }

  lemma FillKeepsDraining(s: LevelBook, o: OrderData, n: Quantity, s': LevelBook)
    requires FilledFirst(s, o, n, s') && Draining(s, o.side.Opposite())
    ensures Draining(s', o.side.Opposite())
  {
    assert s'.Of(o.side.Opposite())[1..] == s.Of(o.side.Opposite())[1..];
  }

  lemma FillKeepsCoherence(s: LevelBook, o: OrderData, n: Quantity, s': LevelBook)
    requires Coherent(s) && FilledFirst(s, o, n, s')
    requires o.remaining > 0 && Fresh(s.Flat(), o) && CanTrade(s.Flat(), o)
    ensures TradeOnce(s.Flat(), o) == (s'.Flat(), o.(remaining := o.remaining - n))
    ensures Coherent(s')
  {
    FillIsTradeOnce(s, o, n, s');
    FillKeepsLevels(s, o, n, s');
    assert Inv(s'.Flat()) by {
      TradeOnceKeepsInv(s.Flat(), o);
    }
    FillKeepsIndex(s, o, n, s');
  }

  /** The first order of a non-empty first level is the first maker of the queue. */
  lemma FirstMaker(s: LevelBook, side: Side)
    requires Coherent(s) && s.Of(side) != [] && s.Of(side)[0].orders != []
    ensures s.Flat().Of(side) != [] && s.Flat().Of(side)[0] == s.Of(side)[0].orders[0]
    ensures s.Flat().Of(side)[0].price == s.Of(side)[0].price
    ensures s.Flat().Of(side)[0].remaining > 0
    ensures LevelOk(s.Of(side)[0])
  {
    assert LevelOk(s.Of(side)[0]);
  }

  /** An emptied first level may go. */
  lemma CloseFirst(s: LevelBook, side: Side, s': LevelBook)
    requires Coherent(s) && Draining(s, side) && s.Of(side)[0].orders == []
    requires s'.Of(side) == s.Of(side)[1..] && s'.Of(side.Opposite()) == s.Of(side.Opposite())
    requires s'.lookUp == s.lookUp && s'.trades == s.trades && s'.nextId == s.nextId && s'.events == s.events
    ensures s'.Flat() == s.Flat() && Coherent(s') && Populated(s')
  {
    CloseLevel(side, s.Of(side), 0);
    assert s.Of(side)[..0] + s.Of(side)[1..] == s.Of(side)[1..];
  }

  lemma KeepFirst(s: LevelBook, side: Side)
    requires Draining(s, side) && s.Of(side)[0].orders != []
    ensures Populated(s)
  {
  }

  /** One more fill is one more step of the sweep. */
  lemma SweepStep(st: Flat, o: OrderData)
    requires Inv(st) && Fresh(st, o) && o.remaining > 0 && CanTrade(st, o)
    ensures var (st', o') := TradeOnce(st, o);
            Match(st', o') == Match(st, o) && Fresh(st', o') && 0 <= o'.remaining < o.remaining && o'.side == o.side
            && o'.orderType == o.orderType && o'.price == o.price
  {
    TradeOnceKeepsInv(st, o);
  }

  /** When an order accepts a non-empty first level, a fill is due there. */
  lemma FillDue(s: LevelBook, o: OrderData)
    requires Coherent(s) && o.remaining > 0
    requires var opp := o.side.Opposite();
             s.Of(opp) != [] && s.Of(opp)[0].orders != [] && Crosses(o.orderType, o.side, o.price, s.Of(opp)[0].price)
    ensures CanTrade(s.Flat(), o)
    ensures LevelOk(s.Of(o.side.Opposite())[0]) && s.Of(o.side.Opposite())[0].orders[0].remaining > 0
  {
    FirstMaker(s, o.side.Opposite());
  }

  /** A fill that is due is one step of the sweep, and keeps everything. */
  lemma FillKeepsAll(s: LevelBook, o: OrderData, n: Quantity, s': LevelBook, o': OrderData)
    requires Coherent(s) && Draining(s, o.side.Opposite()) && Fresh(s.Flat(), o) && o.remaining > 0
    requires CanTrade(s.Flat(), o) && FilledFirst(s, o, n, s') && o' == o.(remaining := o.remaining - n)
    ensures (s'.Flat(), o') == TradeOnce(s.Flat(), o)
    ensures Coherent(s') && Draining(s', o.side.Opposite()) && Fresh(s'.Flat(), o')
    ensures Match(s'.Flat(), o') == Match(s.Flat(), o)
    ensures 0 <= o'.remaining < o.remaining
  {
    FillKeepsDraining(s, o, n, s');
    FillKeepsCoherence(s, o, n, s');
    SweepStep(s.Flat(), o);
  }

  /** The sweep is over when the order is filled, or nobody is left, or the best price is refused. */
  lemma SweepOver(s: LevelBook, o: OrderData)
    requires Coherent(s) && Populated(s)
    requires var opp := o.side.Opposite();
             && (o.remaining == 0 || s.Of(opp) == [] ||
                 !Crosses(o.orderType, o.side, o.price, s.Of(opp)[0].price))
    ensures Match(s.Flat(), o) == (s.Flat(), o)
  {
    var opp := o.side.Opposite();
    if s.Of(opp) != [] {
      FirstMaker(s, opp);
    }
  }

  // ----- resting -----

  /** The next state has `o` recorded in the index and announced with its level's new total. */
  ghost predicate Announced(s: LevelBook, o: OrderData, total: Quantity, s': LevelBook) {
    && s'.Of(o.side.Opposite()) == s.Of(o.side.Opposite())
    && s'.lookUp == s.lookUp[o.id := OrderLocation(o.side, o.price)]
    && s'.trades == s.trades && s'.nextId == s.nextId
    && s'.events == s.events + [BookUpdate(o.side, o.price, total)]
  }

  /** The order went to the back of the level of its price. */
  ghost predicate JoinedAt(vs: seq<LevelView>, o: OrderData, i: nat, v: LevelView, vs': seq<LevelView>) {
    && i < |vs| && vs[i].price == o.price
    && v == LevelView(o.price, vs[i].total + o.remaining, vs[i].orders + [o])
    && vs' == vs[i := v]
  }

  /** The order opened a level of its own, in its place. */
  ghost predicate OpenedAt(vs: seq<LevelView>, o: OrderData, i: nat, v: LevelView, vs': seq<LevelView>) {
    && Position(o.side, vs, o.price, i)
    && v == LevelView(o.price, o.remaining, [o])
    && vs' == vs[..i] + [v] + vs[i..]
  }

  ghost predicate PlacedAt(vs: seq<LevelView>, o: OrderData, i: nat, v: LevelView, vs': seq<LevelView>) {
    JoinedAt(vs, o, i, v, vs') || OpenedAt(vs, o, i, v, vs')
  }

  ghost predicate Rested(s: LevelBook, o: OrderData, i: nat, v: LevelView, s': LevelBook) {
    PlacedAt(s.Of(o.side), o, i, v, s'.Of(o.side)) && Announced(s, o, v.total, s')
  }

  lemma EntriesAfterInsert(lookUp: map<OrderId, OrderLocation>, q: seq<OrderData>, o: OrderData)
    requires EntriesOk(lookUp, o.side, q) && !Holds(q, o.id)
    ensures EntriesOk(lookUp[o.id := OrderLocation(o.side, o.price)], o.side, Insert(q, o))
  {
    InsertAt(q, o);
  }

  lemma HoldsAfterInsert(q: seq<OrderData>, o: OrderData, id: OrderId)
    requires id == o.id || Holds(q, id)
    ensures Holds(Insert(q, o), id)
  {
    InsertAt(q, o);
    var k := Rank(o.side, q, o.price);
    var j := Find(q, id);
    if id == o.id {
      assert Insert(q, o)[k].id == id;
    } else {
      assert Insert(q, o)[if j < k then j else j + 1].id == id;
    }
  }

  lemma IndexAfterInsert(lookUp: map<OrderId, OrderLocation>, st: Flat, o: OrderData)
    requires IndexOk(lookUp, st) && !Rests(st, o.id)
    ensures IndexOk(lookUp[o.id := OrderLocation(o.side, o.price)], Rest(st, o))
  {
    var lookUp' := lookUp[o.id := OrderLocation(o.side, o.price)];
    var q := st.Of(o.side);
    EntriesAfterInsert(lookUp, q, o);
    assert EntriesOk(lookUp', o.side.Opposite(), st.Of(o.side.Opposite()));
    forall id | id in lookUp'
      ensures Rests(Rest(st, o), id)
    {
      if id == o.id || Holds(q, id) {
        HoldsAfterInsert(q, o, id);
      }
    }
  }

  /** However it finds its level, a resting order joins the queue, and its level's total is the new depth. */
  lemma PlaceIsInsert(vs: seq<LevelView>, o: OrderData, i: nat, v: LevelView, vs': seq<LevelView>)
    requires LevelsOk(o.side, vs) && PlacedAt(vs, o, i, v, vs')
    ensures Flatten(vs') == Insert(Flatten(vs), o) && LevelsOk(o.side, vs')
    ensures Depth(Flatten(vs'), o.price) == v.total
  {
    if JoinedAt(vs, o, i, v, vs') {
      JoinLevel(vs, i, o);
    } else {
      OpenLevel(vs, i, o);
    }
    assert vs'[i] == v;
    DepthOfLevel(o.side, vs', i);
  }

  lemma RestKeepsPopulated(s: LevelBook, o: OrderData, i: nat, v: LevelView, s': LevelBook)
    requires Populated(s) && Rested(s, o, i, v, s')
    ensures Populated(s')
  {
    NoneEmptyIff(s.Of(o.side));
    NoneEmptyIff(s'.Of(o.side));
  }

  lemma RestKeepsCoherence(s: LevelBook, o: OrderData, i: nat, v: LevelView, s': LevelBook)
    requires Coherent(s) && Rested(s, o, i, v, s')
    requires Fresh(s.Flat(), o) && RestingOk(o.side, o, s.nextId) && !CanTrade(s.Flat(), o)
    ensures s'.Flat() == Rest(s.Flat(), o) && Coherent(s')
  {
    assert LevelsOk(o.side, s'.Of(o.side)) && s'.Flat() == Rest(s.Flat(), o) by {
      PlaceIsInsert(s.Of(o.side), o, i, v, s'.Of(o.side));
    }
    assert Inv(Rest(s.Flat(), o)) by {
      RestKeepsInv(s.Flat(), o);
    }
    assert IndexOk(s'.lookUp, Rest(s.Flat(), o)) by {
      IndexAfterInsert(s.lookUp, s.Flat(), o);
    }
  }

  lemma RestKeepsAll(s: LevelBook, o: OrderData, i: nat, v: LevelView, s': LevelBook)
    requires Coherent(s) && Populated(s) && Rested(s, o, i, v, s')
    requires Fresh(s.Flat(), o) && RestingOk(o.side, o, s.nextId) && !CanTrade(s.Flat(), o)
    ensures s'.Flat() == Rest(s.Flat(), o) && Coherent(s') && Populated(s')
  {
    RestKeepsCoherence(s, o, i, v, s');
    RestKeepsPopulated(s, o, i, v, s');
  }

  // ----- leaving -----

  /** The level an index entry points at exists and holds the id. */
  lemma LocateLevel(s: LevelBook, id: OrderId) returns (i: nat)
    requires Coherent(s) && id in s.lookUp
    ensures Rests(s.Flat(), id)
    ensures var loc := s.lookUp[id];
            && loc.side == (if Holds(s.Flat().bids, id) then Buy else Sell)
            && loc.price == OrderWith(s.Flat(), id).price
            && i < |s.Of(loc.side)| && s.Of(loc.side)[i].price == loc.price && Holds(s.Of(loc.side)[i].orders, id)
  {
    var side := if Holds(s.Flat().bids, id) then Buy else Sell;
    var q := s.Flat().Of(side);
    var k := Find(q, id);
    var j: nat;
    i, j := FlattenHas(s.Of(side), k);
    assert LevelOk(s.Of(side)[i]);
  }

  /** The index knows exactly the resting ids. */
  lemma IndexKnows(s: LevelBook, id: OrderId)
    requires Coherent(s)
    ensures id in s.lookUp <==> Rests(s.Flat(), id)
  {
  }

  /** The order found in that level is the order of the queue. */
  lemma LocatedOrder(s: LevelBook, id: OrderId, i: nat)
    requires Coherent(s) && id in s.lookUp && Rests(s.Flat(), id)
    requires s.lookUp[id].side == (if Holds(s.Flat().bids, id) then Buy else Sell)
    requires i < |s.Of(s.lookUp[id].side)| && Holds(s.Of(s.lookUp[id].side)[i].orders, id)
    ensures var q := s.Of(s.lookUp[id].side)[i].orders;
            q[Find(q, id)] == OrderWith(s.Flat(), id)
  {
    var side := s.lookUp[id].side;
    LeaveLevel(side, s.Of(side), i, Find(s.Of(side)[i].orders, id));
  }

  /** The next state lacks one order of one level, and the level if nothing is left of it. */
  ghost predicate Departed(s: LevelBook, id: OrderId, i: nat, s': LevelBook) {
    && id in s.lookUp
    && var side := s.lookUp[id].side;
    && var vs := s.Of(side);
    && i < |vs| && vs[i].price == s.lookUp[id].price && Holds(vs[i].orders, id)
    && var j := Find(vs[i].orders, id);
    && var v := LevelWithout(vs[i], j);
    && s'.Of(side) == AfterLeaving(vs, i, v)
    && s'.Of(side.Opposite()) == s.Of(side.Opposite())
    && s'.lookUp == s.lookUp - {id}
    && s'.trades == s.trades && s'.nextId == s.nextId
    && s'.events == s.events + [BookUpdate(side, v.price, if v.orders == [] then 0 else v.total)]
  }

  /** What became of a level an order left: gone if it was the last, else smaller by it. */
  function AfterLeaving(vs: seq<LevelView>, i: nat, v: LevelView): seq<LevelView>
    requires i < |vs|
  {
    if v.orders == [] then vs[..i] + vs[i + 1..] else vs[i := v]
  }

  /** Closing the level if it was left empty changes neither the queue nor the depth at its price. */
  lemma CloseIfEmpty(side: Side, vs: seq<LevelView>, i: nat, v: LevelView)
    requires i < |vs| && LevelsOk(side, vs[i := v]) && v.price == vs[i].price
    ensures Flatten(AfterLeaving(vs, i, v)) == Flatten(vs[i := v]) && LevelsOk(side, AfterLeaving(vs, i, v))
    ensures Depth(Flatten(AfterLeaving(vs, i, v)), vs[i].price) == if v.orders == [] then 0 else v.total
  {
    DepthOfLevel(side, vs[i := v], i);
    if v.orders == [] {
      assert v.total == 0 by {
        assert LevelOk(vs[i := v][i]);
      }
      CloseLevel(side, vs[i := v], i);
      assert vs[i := v][..i] + vs[i := v][i + 1..] == vs[..i] + vs[i + 1..];
    }
  }

  lemma LeaveAndClose(side: Side, vs: seq<LevelView>, i: nat, j: nat)
    requires LevelsOk(side, vs) && i < |vs| && j < |vs[i].orders| && DistinctIds(Flatten(vs))
    ensures var o := vs[i].orders[j];
            var v := LevelWithout(vs[i], j);
            var vs' := AfterLeaving(vs, i, v);
            var q := Flatten(vs);
            var k := Find(q, o.id);
            && k < |q| && q[k] == o && Flatten(vs') == Without(q, k) && LevelsOk(side, vs')
            && Depth(Flatten(vs'), vs[i].price) == if v.orders == [] then 0 else v.total
  {
    var v := LevelWithout(vs[i], j);
    var q := Flatten(vs);
    var k := Find(q, vs[i].orders[j].id);
    assert k < |q| && q[k] == vs[i].orders[j] && Flatten(vs[i := v]) == Without(q, k) && LevelsOk(side, vs[i := v]) by {
      LeaveLevel(side, vs, i, j);
    }
    CloseIfEmpty(side, vs, i, v);
  }

  ghost predicate DistinctIds(q: seq<OrderData>) {
    forall m, n :: 0 <= m < n < |q| ==> q[m].id != q[n].id
  }

  lemma DepartIsWithdraw(s: LevelBook, id: OrderId, i: nat, s': LevelBook)
    requires Departed(s, id, i, s')
    requires LevelsOk(s.lookUp[id].side, s.Of(s.lookUp[id].side))
    requires DistinctIds(s.Flat().Of(s.lookUp[id].side))
    requires Rests(s.Flat(), id) && s.lookUp[id].side == (if Holds(s.Flat().bids, id) then Buy else Sell)
    ensures s'.Flat() == Withdraw(s.Flat(), id)
    ensures LevelsOk(s.lookUp[id].side, s'.Of(s.lookUp[id].side))
  {
    var side := s.lookUp[id].side;
    var vs := s.Of(side);
    var q := Flatten(vs);
    var k := Find(q, id);
    assert k < |q| && q[k].price == vs[i].price && s'.Flat().Of(side) == Without(q, k) &&
           s'.events == s.events + [BookUpdate(side, q[k].price, Depth(Without(q, k), q[k].price))] by {
      DepartFromSide(s, id, i, s');
    }
    assert LevelsOk(side, s'.Of(side)) by {
      DepartFromSide(s, id, i, s');
    }
    RecogniseWithdraw(s.Flat(), id, side, s'.Flat());
  }

  lemma DepartFromSide(s: LevelBook, id: OrderId, i: nat, s': LevelBook)
    requires Departed(s, id, i, s')
    requires LevelsOk(s.lookUp[id].side, s.Of(s.lookUp[id].side))
    requires DistinctIds(Flatten(s.Of(s.lookUp[id].side)))
    ensures var side := s.lookUp[id].side;
            var q := Flatten(s.Of(side));
            var k := Find(q, id);
            && k < |q| && q[k].price == s.Of(side)[i].price && Flatten(s'.Of(side)) == Without(q, k)
            && s'.events == s.events + [BookUpdate(side, q[k].price, Depth(Without(q, k), q[k].price))]
            && LevelsOk(side, s'.Of(side))
  {
    var side := s.lookUp[id].side;
    var vs := s.Of(side);
    var j := Find(vs[i].orders, id);
    assert vs[i].orders[j].price == vs[i].price by {
      assert LevelOk(vs[i]);
    }
    LeaveAndClose(side, vs, i, j);
  }

  lemma RecogniseWithdraw(st: Flat, id: OrderId, side: Side, st': Flat)
    requires Rests(st, id) && side == (if Holds(st.bids, id) then Buy else Sell)
    requires var q := st.Of(side);
             var k := Find(q, id);
             && st'.Of(side) == Without(q, k)
             && st'.events == st.events + [BookUpdate(side, q[k].price, Depth(Without(q, k), q[k].price))]
    requires st'.Of(side.Opposite()) == st.Of(side.Opposite()) && st'.trades == st.trades && st'.nextId == st.nextId
    ensures st' == Withdraw(st, id)
  {
  }

  lemma DepartKeepsCoherence(s: LevelBook, id: OrderId, i: nat, s': LevelBook)
    requires Coherent(s) && Departed(s, id, i, s')
    ensures Rests(s.Flat(), id) && s'.Flat() == Withdraw(s.Flat(), id) && Coherent(s')
  {
    var side := if Holds(s.Flat().bids, id) then Buy else Sell;
    assert Rests(s.Flat(), id) && s.lookUp[id].side == side by {
      var m := LocateLevel(s, id);
    }
    assert s'.Flat() == Withdraw(s.Flat(), id) && LevelsOk(side, s'.Of(side)) by {
      DepartIsWithdraw(s, id, i, s');
    }
    assert Inv(s'.Flat()) by {
      WithdrawKeepsInv(s.Flat(), id);
    }
    IndexAfterWithdraw(s.lookUp, s.Flat(), id);
  }

  lemma IndexAfterWithdraw(lookUp: map<OrderId, OrderLocation>, st: Flat, id: OrderId)
    requires Inv(st) && IndexOk(lookUp, st) && Rests(st, id)
    ensures IndexOk(lookUp - {id}, Withdraw(st, id))
  {
    var side := if Holds(st.bids, id) then Buy else Sell;
    IndexAfterRemoval(lookUp, st, side, Find(st.Of(side), id), Withdraw(st, id));
  }

  lemma DepartKeepsPopulated(s: LevelBook, id: OrderId, i: nat, s': LevelBook)
    requires Populated(s) && Departed(s, id, i, s')
    ensures Populated(s')
  {
    var side := s.lookUp[id].side;
    NoneEmptyIff(s.Of(side));
    NoneEmptyIff(s'.Of(side));
  }

  /** After its sweep an order finds nobody left to trade with, and a remainder that rests is fit to. */
  lemma AfterSweep(st: Flat, o: OrderData)
    requires Inv(st) && Fresh(st, o) && Enterable(st, o)
    ensures var (st', o') := Match(st, o);
            && Fresh(st', o') && !CanTrade(st', o') && st'.nextId == st.nextId
            && o' == o.(remaining := o'.remaining) && 0 <= o'.remaining <= o.remaining
            && (o.orderType.Limit? && o.tif.GoodTillCancel? && o'.remaining != 0 ==>
                  RestingOk(o.side, o', st'.nextId))
  {
    MatchKeepsInv(st, o);
    SweepExecutes(st, o);
  }

  lemma DepartKeepsAll(s: LevelBook, id: OrderId, i: nat, s': LevelBook)
    requires Coherent(s) && Populated(s) && Departed(s, id, i, s')
    ensures Rests(s.Flat(), id) && s'.Flat() == Withdraw(s.Flat(), id) && Coherent(s') && Populated(s')
  {
    DepartKeepsCoherence(s, id, i, s');
    DepartKeepsPopulated(s, id, i, s');
  }

  /** A replacement may enter once its predecessor is gone. */
  lemma ReplacementMayEnter(st: Flat, id: OrderId, o: OrderData)
    requires Inv(st) && Rests(st, id) && Enterable(st, o) && o.side == OrderWith(st, id).side && o.id == id
    ensures Fresh(Withdraw(st, id), o) && Enterable(Withdraw(st, id), o)
  {
    WithdrawKeepsInv(st, id);
    AvailableAfterWithdraw(st, id, o);
  }

  // ----- looking before trading -----

  /** The cached totals of the levels an order accepts decide whether the sweep would fill it. */
  lemma TotalsDecide(s: LevelBook, o: OrderData, n: nat)
    requires Coherent(s) && Fresh(s.Flat(), o) && o.remaining > 0
    requires var vs := s.Of(o.side.Opposite());
             && n <= |vs|
             && (forall j :: 0 <= j < n ==> Crosses(o.orderType, o.side, o.price, vs[j].price))
             && (Totals(vs[..n]) >= o.remaining || n == |vs| ||
                 !Crosses(o.orderType, o.side, o.price, vs[n].price))
    ensures Totals(s.Of(o.side.Opposite())[..n]) >= o.remaining <==> WouldFill(s.Flat(), o)
  {
    var side := o.side.Opposite();
    var vs := s.Of(side);
    SweepExecutes(s.Flat(), o);
    if Totals(vs[..n]) >= o.remaining {
      ReachAtLeastTotals(side, vs, n, o);
    } else {
      ReachIsTotals(side, vs, n, o);
    }
  }

  // ----- ids and events -----

  /** Handing out the next id leaves everything else coherent, and nothing on the book carries it. */
  lemma TakeId(s: LevelBook)
    requires Coherent(s)
    ensures Coherent(s.(nextId := s.nextId + 1))
    ensures s.(nextId := s.nextId + 1).Flat() == s.Flat().(nextId := s.nextId + 1)
    ensures !Rests(s.Flat(), s.nextId)
  {
    NextIdKeepsInv(s.Flat());
  }

  /** Events are nobody's invariant. */
  lemma Say(s: LevelBook, e: Event)
    requires Coherent(s)
    ensures Coherent(s.(events := s.events + [e]))
    ensures s.(events := s.events + [e]).Flat() == s.Flat().Emit([e])
  {
  }

  // ----- inspection -----

  /** The cached total of a price's level, or zero without one, is the depth of the queue there. */
  lemma DepthSeen(s: LevelBook, side: Side, price: Price, k: nat)
    requires Coherent(s) && k <= |s.Of(side)|
    requires forall j :: 0 <= j < k ==> Better(side, s.Of(side)[j].price, price)
    requires k < |s.Of(side)| ==> !Better(side, s.Of(side)[k].price, price)
    ensures Depth(s.Flat().Of(side), price) ==
            if k < |s.Of(side)| && s.Of(side)[k].price == price then s.Of(side)[k].total else 0
  {
    var vs := s.Of(side);
    if k < |vs| && vs[k].price == price {
      DepthOfLevel(side, vs, k);
    } else {
      forall i | 0 <= i < |vs|
        ensures vs[i].price != price
      {
        assert k < i ==> Better(side, vs[k].price, vs[i].price);
      }
      DepthOfNoLevel(vs, price);
    }
  }
}
