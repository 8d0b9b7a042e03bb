/** The state invariant of the flat book, kept by every accepted message and hence by every run. */
module BookInvariant {
  import opened BookTypes
  import opened FlatBook

  // ----- sums over queues -----

  lemma {:induction false} SumConcat(a: seq<OrderData>, b: seq<OrderData>, sel: Selector)
    ensures Sum(a + b, sel) == Sum(a, sel) + Sum(b, sel)
  {
    if a == [] {
      assert a + b == b;
    } else {
      assert (a + b)[1..] == a[1..] + b;
      SumConcat(a[1..], b, sel);
    }
  }

  lemma SumReduce(q: seq<OrderData>, n: Quantity, sel: Selector)
    requires q != []
    ensures Sum(Reduce(q, n), sel) == Sum(q, sel) - (if Selects(sel, q[0]) then n else 0)
  {
    var m := q[0].(remaining := q[0].remaining - n);
    assert ([m] + q[1..])[1..] == q[1..];
    assert Selects(sel, m) == Selects(sel, q[0]);
  }

  lemma SumInsert(q: seq<OrderData>, o: OrderData, sel: Selector)
    ensures Sum(Insert(q, o), sel) == Sum(q, sel) + Weight(sel, o)
  {
    var k := Rank(o.side, q, o.price);
    assert q == q[..k] + q[k..];
    SumConcat(q[..k], q[k..], sel);
    SumConcat(q[..k], [o], sel);
    SumConcat(q[..k] + [o], q[k..], sel);
  }

  lemma SumDrop(q: seq<OrderData>, k: nat, sel: Selector)
    requires k < |q|
    ensures Sum(q[..k] + q[k + 1..], sel) == Sum(q, sel) - Weight(sel, q[k])
  {
    assert q == q[..k] + [q[k]] + q[k + 1..];
    SumConcat(q[..k] + [q[k]], q[k + 1..], sel);
    SumConcat(q[..k], [q[k]], sel);
    SumConcat(q[..k], q[k + 1..], sel);
  }

  lemma {:induction false} SumNone(q: seq<OrderData>, sel: Selector)
    requires forall i :: 0 <= i < |q| ==> !Selects(sel, q[i])
    ensures Sum(q, sel) == 0
  {
    if q != [] {
      SumNone(q[1..], sel);
    }
  }

  lemma {:induction false} SumBounds(q: seq<OrderData>, sel: Selector)
    requires forall i :: 0 <= i < |q| ==> q[i].remaining > 0
    ensures 0 <= Sum(q, sel) <= Sum(q, Everything)
  {
    if q != [] {
      SumBounds(q[1..], sel);
    }
  }

  // ----- queues -----

  lemma ReduceOk(side: Side, q: seq<OrderData>, n: Quantity, nextId: OrderId)
    requires q != [] && QueueOk(side, q, nextId)
    requires 0 < n <= q[0].remaining
    ensures QueueOk(side, Reduce(q, n), nextId)
    ensures forall i :: 0 <= i < |Reduce(q, n)| ==>
      exists j :: 0 <= j < |q| && q[j].id == Reduce(q, n)[i].id
  {
    var q' := Reduce(q, n);
    var d := |q| - |q'|;
    assert forall i :: 0 <= i < |q'| ==> q'[i].id == q[i + d].id && q'[i].price == q[i + d].price;
  }

  /** Where each order stands once a newcomer has taken its place. */
  lemma InsertAt(q: seq<OrderData>, o: OrderData)
    ensures |Insert(q, o)| == |q| + 1
    ensures var k := Rank(o.side, q, o.price);
            forall i :: 0 <= i <= |q| ==>
              Insert(q, o)[i] == if i < k then q[i] else if i == k then o else q[i - 1]
  {
  }

  lemma InsertSorted(q: seq<OrderData>, o: OrderData, i: nat, j: nat)
    requires forall i, j :: 0 <= i < j < |q| ==> !Better(o.side, q[j].price, q[i].price)
    requires i < j <= |q|
    ensures |Insert(q, o)| == |q| + 1
    ensures !Better(o.side, Insert(q, o)[j].price, Insert(q, o)[i].price)
  {
    var k := Rank(o.side, q, o.price);
    InsertAt(q, o);
    if i == k {
      assert k == j - 1 || !Better(o.side, q[j - 1].price, q[k].price);
    }
  }

  lemma InsertOk(q: seq<OrderData>, o: OrderData, nextId: OrderId)
    requires QueueOk(o.side, q, nextId) && RestingOk(o.side, o, nextId)
    requires !Holds(q, o.id)
    ensures QueueOk(o.side, Insert(q, o), nextId)
  {
    var q' := Insert(q, o);
    InsertAt(q, o);
    forall i, j | 0 <= i < j < |q'|
      ensures !Better(o.side, q'[j].price, q'[i].price)
    {
      InsertSorted(q, o, i, j);
    }
  }

  lemma DropOk(side: Side, q: seq<OrderData>, k: nat, nextId: OrderId)
    requires QueueOk(side, q, nextId) && k < |q|
    ensures QueueOk(side, q[..k] + q[k + 1..], nextId)
    ensures !Holds(q[..k] + q[k + 1..], q[k].id)
  {
    var q' := q[..k] + q[k + 1..];
    assert forall i :: 0 <= i < |q'| ==> q'[i] == if i < k then q[i] else q[i + 1];
  }

  /** Handing out an id keeps the invariant, and nothing on the book carries it. */
  lemma NextIdKeepsInv(st: Flat)
    requires Inv(st)
    ensures Inv(st.(nextId := st.nextId + 1))
    ensures !Rests(st, st.nextId)
  {
    assert forall o, side :: RestingOk(side, o, st.nextId) ==> RestingOk(side, o, st.nextId + 1);
  }

  // ----- matching -----

  /** What a sweep leaves alone, and that the taker only ever shrinks. */
  ghost predicate Swept(st: Flat, o: OrderData, st': Flat, o': OrderData) {
    && st'.Of(o.side) == st.Of(o.side)
    && st'.nextId == st.nextId
    && o' == o.(remaining := o'.remaining)
    && 0 <= o'.remaining <= o.remaining
    && Inv(st') && Fresh(st', o')
  }

  lemma TradeOnceKeepsInv(st: Flat, o: OrderData)
    requires Inv(st) && Fresh(st, o) && o.remaining > 0 && CanTrade(st, o)
    ensures Swept(st, o, TradeOnce(st, o).0, TradeOnce(st, o).1)
  {
    var (st', o') := TradeOnce(st, o);
    var side := o.side.Opposite();
    var q := st.Of(side);
    var q' := st'.Of(side);
    assert q' == Reduce(q, Min(o.remaining, q[0].remaining));
    ReduceOk(side, q, Min(o.remaining, q[0].remaining), st.nextId);
    assert Fresh(st', o') by {
      forall i | 0 <= i < |q'|
        ensures q'[i].id != o.id
      {
        var j :| 0 <= j < |q| && q[j].id == q'[i].id;
      }
    }
    assert Uncrossed(st') by {
      if q' != [] {
        assert q'[0].price == q[|q| - |q'|].price;
      }
    }
    DisjointShrinks(st.Of(o.side), q, q');
  }

  lemma DisjointShrinks(p: seq<OrderData>, q: seq<OrderData>, q': seq<OrderData>)
    requires Disjoint(p, q) || Disjoint(q, p)
    requires forall i :: 0 <= i < |q'| ==> exists j :: 0 <= j < |q| && q[j].id == q'[i].id
    ensures Disjoint(p, q') && Disjoint(q', p)
  {
    forall i, j | 0 <= i < |p| && 0 <= j < |q'|
      ensures p[i].id != q'[j].id
    {
      var k :| 0 <= k < |q| && q[k].id == q'[j].id;
    }
  }

  lemma {:induction false} MatchKeepsInv(st: Flat, o: OrderData)
    requires Inv(st) && Fresh(st, o) && o.remaining >= 0
    ensures Swept(st, o, Match(st, o).0, Match(st, o).1)
    ensures !CanTrade(Match(st, o).0, Match(st, o).1)
    decreases |OppositeQueue(st, o)|, o.remaining != 0
  {
    if CanTrade(st, o) {
      TradeOnceKeepsInv(st, o);
      var (st', o') := TradeOnce(st, o);
      MatchKeepsInv(st', o');
    }
  }

  /** Nothing behind a maker the taker refuses is acceptable to it. */
  lemma NoneAcceptable(st: Flat, o: OrderData)
    requires Inv(st)
    requires OppositeQueue(st, o) == [] || !Crosses(o.orderType, o.side, o.price, OppositeQueue(st, o)[0].price)
    ensures Available(st, o) == 0
  {
    SumNone(OppositeQueue(st, o), Reach(o));
  }

  /** A sweep executes exactly the smaller of what is wanted and what is within reach. */
  lemma {:induction false} SweepExecutes(st: Flat, o: OrderData)
    requires Inv(st) && Fresh(st, o) && o.remaining >= 0
    ensures Match(st, o).1.remaining == o.remaining - Min(o.remaining, Available(st, o))
    ensures Available(Match(st, o).0, o) == Available(st, o) - Min(o.remaining, Available(st, o))
    decreases |OppositeQueue(st, o)|, o.remaining != 0
  {
    var q := OppositeQueue(st, o);
    SumBounds(q, Reach(o));
    if CanTrade(st, o) {
      TradeOnceKeepsInv(st, o);
      var (st', o') := TradeOnce(st, o);
      SumReduce(q, Min(o.remaining, q[0].remaining), Reach(o));
      SumBounds(OppositeQueue(st', o'), Reach(o));
      SweepExecutes(st', o');
    } else if o.remaining != 0 {
      NoneAcceptable(st, o);
    }
  }

  // ----- operations -----

  lemma RestKeepsInv(st: Flat, o: OrderData)
    requires Inv(st) && Fresh(st, o) && RestingOk(o.side, o, st.nextId)
    requires !CanTrade(st, o)
    ensures Inv(Rest(st, o)) && Rest(st, o).nextId == st.nextId
  {
    var q, opp := st.Of(o.side), OppositeQueue(st, o);
    InsertOk(q, o, st.nextId);
    InsertKeepsDisjoint(q, o, opp);
    RestUncrossed(st, o);
  }

  lemma InsertKeepsDisjoint(q: seq<OrderData>, o: OrderData, p: seq<OrderData>)
    requires (Disjoint(q, p) || Disjoint(p, q)) && !Holds(p, o.id)
    ensures Disjoint(Insert(q, o), p) && Disjoint(p, Insert(q, o))
  {
    var q' := Insert(q, o);
    var k := Rank(o.side, q, o.price);
    InsertAt(q, o);
    forall i, j | 0 <= i < |q'| && 0 <= j < |p|
      ensures q'[i].id != p[j].id
    {
      assert q'[i] == if i < k then q[i] else if i == k then o else q[i - 1];
    }
  }

  lemma RestUncrossed(st: Flat, o: OrderData)
    requires Uncrossed(st) && o.remaining > 0 && o.orderType.Limit? && !CanTrade(st, o)
    ensures Uncrossed(Rest(st, o))
  {
    var q := st.Of(o.side);
    InsertAt(q, o);
    assert Insert(q, o)[0] == if Rank(o.side, q, o.price) == 0 then o else q[0];
  }

  /** Entering a limit order that is not killed: its sweep, then its rest if it is good till cancelled. */
  lemma EnterLimit(st: Flat, o: OrderData, goal: (Flat, OrderData))
    requires o.orderType.Limit? && goal == Match(st, o) && (o.tif.FillOrKill? ==> goal.1.remaining == 0)
    ensures Enter(st, o) ==
            (if o.tif.GoodTillCancel? && goal.1.remaining != 0 then Rest(goal.0, goal.1) else goal.0,
             ResultOf(Limit, o.remaining - goal.1.remaining, goal.1.remaining))
  {
  }

  /** Entering a market order is its sweep. */
  lemma EnterMarket(st: Flat, o: OrderData, goal: (Flat, OrderData))
    requires o.orderType.Market? && goal == Match(st, o)
    ensures Enter(st, o) == (goal.0, ResultOf(Market, o.remaining - goal.1.remaining, goal.1.remaining))
  {
  }

  lemma EnterKeepsInv(st: Flat, o: OrderData)
    requires Inv(st) && Fresh(st, o) && Enterable(st, o)
    ensures Inv(Enter(st, o).0) && Enter(st, o).0.nextId == st.nextId
  {
    MatchKeepsInv(st, o);
    SweepExecutes(st, o);
    var (st', o') := Match(st, o);
    if o.orderType.Limit? && o.tif.GoodTillCancel? && o'.remaining != 0 {
      RestKeepsInv(st', o');
    }
  }

  lemma WithdrawKeepsInv(st: Flat, id: OrderId)
    requires Inv(st) && Rests(st, id)
    ensures Inv(Withdraw(st, id)) && !Rests(Withdraw(st, id), id)
    ensures Withdraw(st, id).nextId == st.nextId && id < st.nextId
  {
    var side := if Holds(st.bids, id) then Buy else Sell;
    var q, p := st.Of(side), st.Of(side.Opposite());
    var k := Find(q, id);
    var q' := q[..k] + q[k + 1..];
    DropOk(side, q, k, st.nextId);
    DropKeepsDisjoint(p, q, k);
    var st' := Withdraw(st, id);
    assert st'.Of(side) == q' && st'.Of(side.Opposite()) == p;
    assert !Holds(p, id);
    assert Uncrossed(st') by {
      assert q' != [] ==> q'[0] == if k == 0 then q[1] else q[0];
    }
  }

  lemma DropKeepsDisjoint(p: seq<OrderData>, q: seq<OrderData>, k: nat)
    requires (Disjoint(p, q) || Disjoint(q, p)) && k < |q|
    ensures Disjoint(p, q[..k] + q[k + 1..]) && Disjoint(q[..k] + q[k + 1..], p)
  {
    var q' := q[..k] + q[k + 1..];
    forall i, j | 0 <= i < |p| && 0 <= j < |q'|
      ensures p[i].id != q'[j].id
    {
      assert q'[j] == q[if j < k then j else j + 1];
    }
  }

  /** Processing a new order: enter it under the next id, then tell its sender. */
  lemma ProcessAddIs(st: Flat, msg: Message, entered: (Flat, AddOrderResult))
    requires msg.AddOrder? && entered == Enter(st.(nextId := st.nextId + 1), OrderOf(msg, st.nextId))
    ensures Process(st, msg) == entered.0.Emit([Routed(msg.conn, AddEvent(msg, st.nextId, entered.1))])
  {
  }

  lemma AddKeepsInv(st: Flat, msg: Message)
    requires msg.AddOrder? && Inv(st) && Accepts(st, msg)
    ensures Inv(Process(st, msg)) && st.nextId < Process(st, msg).nextId
  {
    var st0, o := st.(nextId := st.nextId + 1), OrderOf(msg, st.nextId);
    NewOrderMayEnter(st, msg);
    EnterKeepsInv(st0, o);
    ProcessAddIs(st, msg, Enter(st0, o));
  }

  /** A new order is fit to enter under the next id. */
  lemma NewOrderMayEnter(st: Flat, msg: Message)
    requires msg.AddOrder? && Inv(st) && Accepts(st, msg)
    ensures var st0, o := st.(nextId := st.nextId + 1), OrderOf(msg, st.nextId);
            Inv(st0) && Fresh(st0, o) && Enterable(st0, o)
  {
    NextIdKeepsInv(st);
  }

  lemma ModifyKeepsInv(st: Flat, msg: Message)
    requires msg.ModifyOrder? && Inv(st) && Accepts(st, msg) && Rests(st, msg.id)
    ensures Inv(Process(st, msg)) && st.nextId == Process(st, msg).nextId
  {
    WithdrawKeepsInv(st, msg.id);
    var o := Replacement(OrderWith(st, msg.id), msg.newPrice, msg.newQuantity);
    AvailableAfterWithdraw(st, msg.id, o);
    EnterKeepsInv(Withdraw(st, msg.id), o);
  }

  /** Every accepted message keeps the invariant; in particular the book stays uncrossed. */
  lemma ProcessKeepsInv(st: Flat, msg: Message)
    requires Inv(st) && Accepts(st, msg)
    ensures Inv(Process(st, msg)) && st.nextId <= Process(st, msg).nextId
  {
    match msg
    case AddOrder(_, _, _, _, _, _, _, _) => AddKeepsInv(st, msg);
    case CancelOrder(id, _, _) =>
      if Rests(st, id) {
        WithdrawKeepsInv(st, id);
      }
    case ModifyOrder(id, price, quantity, _, _) =>
      if Rests(st, id) {
        ModifyKeepsInv(st, msg);
      }
  }

  /**
   The order a message lets into the book, field by field, and the book as it then stands: a new order under the next
   id, or the one that rests under the id to modify, taken out and given the new price and quantity.
   */
  ghost predicate LetsIn(st: Flat, msg: Message, st0: Flat, o: OrderData) {
    match msg
    case AddOrder(orderType, tif, clientId, price, quantity, side, conn, seqNo) =>
      && st0 == st.(nextId := st.nextId + 1)
      && o == OrderData(orderType, tif, st.nextId, price, quantity, quantity, side, seqNo, conn, clientId)
    case CancelOrder(_, _, _) => false
    case ModifyOrder(id, price, quantity, _, _) =>
      && Rests(st, id) && st0 == Withdraw(st, id)
      && o == OrderWith(st, id).(price := price, initial := quantity, remaining := quantity)
  }

  /** Withdrawing an order leaves what its replacement can reach untouched. */
  lemma AvailableAfterWithdraw(st: Flat, id: OrderId, o: OrderData)
    requires Inv(st) && Rests(st, id) && o.side == OrderWith(st, id).side
    ensures Available(Withdraw(st, id), o) == Available(st, o)
    ensures OppositeQueue(Withdraw(st, id), o) == OppositeQueue(st, o)
  {
  }

  /** What a message lets in is fit to enter. */
  lemma LetInIsReady(st: Flat, msg: Message, met: Flat, o: OrderData)
    requires Inv(st) && Accepts(st, msg) && LetsIn(st, msg, met, o)
    ensures Inv(met) && Fresh(met, o) && Enterable(met, o) && met.trades == st.trades
    ensures OppositeQueue(met, o) == OppositeQueue(st, o)
  {
    if msg.AddOrder? {
      NewOrderMayEnter(st, msg);
    } else {
      WithdrawKeepsInv(st, msg.id);
      AvailableAfterWithdraw(st, msg.id, o);
    }
  }

  /** Letting an order in is entering it; what is then said to the sender touches nothing but the events. */
  lemma LetInEnters(st: Flat, msg: Message, met: Flat, o: OrderData)
    requires LetsIn(st, msg, met, o)
    ensures var st', end := Process(st, msg), Enter(met, o).0;
            && st'.bids == end.bids && st'.asks == end.asks && st'.trades == end.trades
            && st'.nextId == end.nextId && end.events <= st'.events && |st'.events| == |end.events| + 1
  {
  }

  /** A run and one message more. */
  lemma {:induction false} RunAndOne(st: Flat, msgs: seq<Message>, msg: Message)
    ensures Run(st, msgs + [msg]) == Process(Run(st, msgs), msg)
    ensures AcceptsAll(st, msgs + [msg]) <==> AcceptsAll(st, msgs) && Accepts(Run(st, msgs), msg)
    decreases |msgs|
  {
    if msgs == [] {
      assert (msgs + [msg])[1..] == [];
      assert AcceptsAll(Process(st, msg), []);
    } else {
      assert (msgs + [msg])[1..] == msgs[1..] + [msg];
      RunAndOne(Process(st, msgs[0]), msgs[1..], msg);
    }
  }

  lemma RunTwo(st: Flat, a: Message, b: Message)
    ensures Run(st, [a, b]) == Process(Process(st, a), b)
    ensures AcceptsAll(st, [a, b]) <==> Accepts(st, a) && Accepts(Process(st, a), b)
  {
    assert [a, b][1..] == [b];
    var st1 := Process(st, a);
    assert [b][1..] == [];
    assert Run(st1, [b]) == Run(Process(st1, b), []);
    assert AcceptsAll(Process(st1, b), []);
    assert AcceptsAll(st1, [b]) == Accepts(st1, b);
  }

  /** The first good-till-cancel order of all simply rests. */
  lemma FirstOrderRests(msg: Message)
    requires msg.AddOrder? && msg.orderType.Limit? && msg.tif.GoodTillCancel? && msg.quantity > 0 && msg.price > 0
    ensures Accepts(EMPTY, msg)
    ensures var st := Process(EMPTY, msg);
            && st.Of(msg.side) == [OrderOf(msg, 1)] && st.Of(msg.side.Opposite()) == []
            && st.trades == [] && st.nextId == 2
  {
    var o := OrderOf(msg, 1);
    var st0 := EMPTY.(nextId := 2);
    assert !CanTrade(st0, o) && Match(st0, o) == (st0, o);
    assert Insert([], o) == [o];
  }

  lemma {:induction false} RunKeepsInv(st: Flat, msgs: seq<Message>)
    requires Inv(st) && AcceptsAll(st, msgs)
    ensures Inv(Run(st, msgs))
    decreases |msgs|
  {
    if msgs != [] {
      ProcessKeepsInv(st, msgs[0]);
      RunKeepsInv(Process(st, msgs[0]), msgs[1..]);
    }
  }

  /** After every run from the empty book: bids fall, asks rise, and every bid is below every ask. */
  lemma NeverCrossed(msgs: seq<Message>)
    requires AcceptsAll(EMPTY, msgs)
    ensures Inv(Run(EMPTY, msgs))
    ensures var bids := Run(EMPTY, msgs).bids;
            forall i, j :: 0 <= i < j < |bids| ==> bids[i].price >= bids[j].price
    ensures var asks := Run(EMPTY, msgs).asks;
            forall i, j :: 0 <= i < j < |asks| ==> asks[i].price <= asks[j].price
    ensures forall b, a :: b in Run(EMPTY, msgs).bids && a in Run(EMPTY, msgs).asks ==> b.price < a.price
  {
    RunKeepsInv(EMPTY, msgs);
    BidsBelowAsks(Run(EMPTY, msgs));
  }

  lemma BidsBelowAsks(st: Flat)
    requires Inv(st)
    ensures forall b, a :: b in st.bids && a in st.asks ==> b.price < a.price
  {
    forall b, a | b in st.bids && a in st.asks
      ensures b.price < a.price
    {
      var i :| 0 <= i < |st.bids| && st.bids[i] == b;
      var j :| 0 <= j < |st.asks| && st.asks[j] == a;
      assert i == 0 || !Better(Buy, st.bids[i].price, st.bids[0].price);
      assert j == 0 || !Better(Sell, st.asks[j].price, st.asks[0].price);
    }
  }
}
