/**
 Where orders stand and what operations undo: newcomers queue last at their price, cancelling a fresh
 order restores the book, and a modification is a cancellation followed by a new order.
 */
module QueueLaws {
  import opened BookTypes
  import opened FlatBook
  import opened BookInvariant
  import opened PriorityLaws

  // ----- legal trades -----

  function Taker(t: Trade): TradeInfo {
    if t.aggressor.Buy? then t.buyer else t.seller
  }

  function Maker(t: Trade): TradeInfo {
    if t.aggressor.Buy? then t.seller else t.buyer
  }

  /** Two different orders, at the maker's price, for all that the smaller of the two had. */
  predicate LegalTrade(t: Trade) {
    && t.buyer.id != t.seller.id
    && t.price == Maker(t).price > 0
    && t.quantity == Min(t.buyer.quantity, t.seller.quantity) > 0
  }

  /** A trade initiated by `o`: a limit buy pays its price at most, a limit sell gets its price at least. */
  predicate TakenBy(t: Trade, o: OrderData) {
    && t.aggressor == o.side && Taker(t).id == o.id && Taker(t).price == o.price
    && 0 < t.quantity <= Taker(t).quantity <= o.remaining
    && (o.orderType.Limit? && o.side.Buy? ==> t.price <= o.price)
    && (o.orderType.Limit? && o.side.Sell? ==> t.price >= o.price)
  }

  /** The trade is with `m`, at its price, as much resting as the trade says. */
  predicate MadeBy(t: Trade, m: OrderData) {
    Maker(t) == TradeInfo(m.id, m.price, m.remaining)
  }

  /** A legal trade of `o` with an order that rested on the other side of `met`, the book that `o` met. */
  ghost predicate Struck(met: Flat, o: OrderData, t: Trade) {
    && LegalTrade(t) && TakenBy(t, o)
    && exists m :: m in OppositeQueue(met, o) && MadeBy(t, m)
  }

  /** The tape `after` extends the tape `before` by trades of `o` with orders resting on `met`. */
  ghost predicate ExtendedBy(before: seq<Trade>, met: Flat, o: OrderData, after: seq<Trade>) {
    && before <= after
    && forall i :: |before| <= i < |after| ==> Struck(met, o, after[i])
  }

  /** The tape `after` extends the tape `before` by legal trades, all taken by `o`. */
  ghost predicate Extended(before: seq<Trade>, o: OrderData, after: seq<Trade>) {
    && before <= after
    && forall i :: |before| <= i < |after| ==> LegalTrade(after[i]) && TakenBy(after[i], o)
  }

  lemma FirstTradeIsLegal(st: Flat, o: OrderData)
    requires Inv(st) && Fresh(st, o) && o.remaining > 0 && CanTrade(st, o)
    ensures Extended(st.trades, o, TradeOnce(st, o).0.trades)
  {
    var m := OppositeQueue(st, o)[0];
    assert m.id != o.id && m.remaining > 0 && m.price > 0;
    assert LegalTrade(TradeOf(o, m)) && TakenBy(TradeOf(o, m), o);
  }

  /** An extension by what is left of an order extends an extension by the order. */
  lemma ExtendedOnward(a: seq<Trade>, o: OrderData, b: seq<Trade>, left: Quantity, c: seq<Trade>)
    requires Extended(a, o, b) && Extended(b, o.(remaining := left), c) && left <= o.remaining
    ensures Extended(a, o, c)
  {
    forall i | |a| <= i < |c|
      ensures LegalTrade(c[i]) && TakenBy(c[i], o)
    {
      if i < |b| {
        assert c[i] == b[i];
      } else {
        assert TakenBy(c[i], o.(remaining := left));
      }
    }
  }

  lemma {:induction false} MatchTradesLegally(st: Flat, o: OrderData)
    requires Inv(st) && Fresh(st, o) && o.remaining >= 0
    ensures Extended(st.trades, o, Match(st, o).0.trades)
    decreases |OppositeQueue(st, o)|, o.remaining != 0
  {
    if CanTrade(st, o) {
      var (st1, o1) := TradeOnce(st, o);
      assert Swept(st, o, st1, o1) by {
        TradeOnceKeepsInv(st, o);
      }
      FirstTradeIsLegal(st, o);
      MatchTradesLegally(st1, o1);
      ExtendedOnward(st.trades, o, st1.trades, o1.remaining, Match(st1, o1).0.trades);
    }
  }

  /** Every trade of a sweep is with an order that rested before the sweep, for all it then had. */
  lemma MatchTradesWithResting(st: Flat, o: OrderData, i: nat)
    requires Inv(st) && Fresh(st, o) && o.remaining >= 0 && |st.trades| <= i < |Match(st, o).0.trades|
    ensures exists m :: m in OppositeQueue(st, o) && MadeBy(Match(st, o).0.trades[i], m)
  {
    var q, n, j := OppositeQueue(st, o), Executable(st, o), i - |st.trades|;
    assert n >= 0 by {
      SumBounds(q, Reach(o));
    }
    MatchConsumes(st, o);
    TapeAt(o, q, n);
    assert Match(st, o).0.trades[i] == Tape(o, q, n)[j];
    assert q[j] in q && MadeBy(Match(st, o).0.trades[i], q[j]);
  }

  lemma MatchStrikes(st: Flat, o: OrderData)
    requires Inv(st) && Fresh(st, o) && o.remaining >= 0
    ensures ExtendedBy(st.trades, st, o, Match(st, o).0.trades)
  {
    MatchTradesLegally(st, o);
    forall i | |st.trades| <= i < |Match(st, o).0.trades|
      ensures Struck(st, o, Match(st, o).0.trades[i])
    {
      MatchTradesWithResting(st, o, i);
    }
  }

  lemma EnterStrikes(st: Flat, o: OrderData)
    requires Inv(st) && Fresh(st, o) && Enterable(st, o)
    ensures ExtendedBy(st.trades, st, o, Enter(st, o).0.trades)
  {
    MatchStrikes(st, o);
  }

  /** The trades of a message are those of the order it lets in with the book it is let into. */
  lemma LetInStrikes(st: Flat, msg: Message, met: Flat, o: OrderData)
    requires Inv(st) && Accepts(st, msg) && LetsIn(st, msg, met, o)
    ensures ExtendedBy(st.trades, met, o, Process(st, msg).trades)
  {
    LetInIsReady(st, msg, met, o);
    LetInEnters(st, msg, met, o);
    EnterStrikes(met, o);
  }

  /** What a message lets in, if anything. */
  lemma LetInOrNot(st: Flat, msg: Message) returns (met: Flat, o: OrderData)
    requires Process(st, msg).trades != st.trades
    ensures LetsIn(st, msg, met, o)
  {
    if msg.AddOrder? {
      met, o := st.(nextId := st.nextId + 1), OrderOf(msg, st.nextId);
    } else {
      assert msg.ModifyOrder? && Rests(st, msg.id);
      met, o := Withdraw(st, msg.id), Replacement(OrderWith(st, msg.id), msg.newPrice, msg.newQuantity);
    }
  }

  /**
   The tape only grows, and every trade a message adds is legal, between the order it lets in and one that rested
   in the book it was let into, with all that it had: a limit buyer never pays more than its limit in force, a limit
   seller never receives less.
   */
  lemma ProcessTradesLegally(st: Flat, msg: Message)
    requires Inv(st) && Accepts(st, msg)
    ensures st.trades <= Process(st, msg).trades
    ensures forall i :: |st.trades| <= i < |Process(st, msg).trades| ==>
      exists met, o :: LetsIn(st, msg, met, o) && Struck(met, o, Process(st, msg).trades[i])
  {
    if Process(st, msg).trades != st.trades {
      var met, o := LetInOrNot(st, msg);
      LetInStrikes(st, msg, met, o);
    }
  }

  /**
   A message of the run let in the order that took the trade, at a price within its limit as it then stood; its
   maker rested in the book that order met.
   */
  ghost predicate StruckInRun(st: Flat, msgs: seq<Message>, t: Trade) {
    exists k, met, o :: StruckAt(st, msgs, k, met, o, t)
  }

  ghost predicate StruckAt(st: Flat, msgs: seq<Message>, k: int, met: Flat, o: OrderData, t: Trade) {
    0 <= k < |msgs| && LetsIn(Run(st, msgs[..k]), msgs[k], met, o) && Struck(met, o, t)
  }

  lemma StruckLater(st: Flat, msgs: seq<Message>, t: Trade)
    requires msgs != [] && StruckInRun(Process(st, msgs[0]), msgs[1..], t)
    ensures StruckInRun(st, msgs, t)
  {
    var k, met, o :| StruckAt(Process(st, msgs[0]), msgs[1..], k, met, o, t);
    assert msgs[..k + 1][0] == msgs[0] && msgs[..k + 1][1..] == msgs[1..][..k];
    assert StruckAt(st, msgs, k + 1, met, o, t);
  }

  lemma StruckFirst(st: Flat, msgs: seq<Message>, i: nat)
    requires msgs != [] && Inv(st) && Accepts(st, msgs[0]) && |st.trades| <= i < |Process(st, msgs[0]).trades|
    ensures StruckInRun(st, msgs, Process(st, msgs[0]).trades[i])
  {
    ProcessTradesLegally(st, msgs[0]);
    var t := Process(st, msgs[0]).trades[i];
    var met, o :| LetsIn(st, msgs[0], met, o) && Struck(met, o, t);
    assert msgs[..0] == [];
    assert StruckAt(st, msgs, 0, met, o, t);
  }

  lemma {:induction false} RunTradesLegally(st: Flat, msgs: seq<Message>, i: nat)
    requires Inv(st) && AcceptsAll(st, msgs) && |st.trades| <= i < |Run(st, msgs).trades|
    ensures StruckInRun(st, msgs, Run(st, msgs).trades[i])
    decreases |msgs|
  {
    var st1 := Process(st, msgs[0]);
    assert Inv(st1) && st.trades <= st1.trades by {
      ProcessKeepsInv(st, msgs[0]);
      ProcessTradesLegally(st, msgs[0]);
    }
    if i < |st1.trades| {
      StruckFirst(st, msgs, i);
      TapeOnlyGrows(st1, msgs[1..]);
    } else {
      RunTradesLegally(st1, msgs[1..], i);
      StruckLater(st, msgs, Run(st, msgs).trades[i]);
    }
  }

  lemma {:induction false} TapeOnlyGrows(st: Flat, msgs: seq<Message>)
    requires Inv(st) && AcceptsAll(st, msgs)
    ensures st.trades <= Run(st, msgs).trades
    decreases |msgs|
  {
    if msgs != [] {
      assert st.trades <= Process(st, msgs[0]).trades by {
        ProcessTradesLegally(st, msgs[0]);
      }
      ProcessKeepsInv(st, msgs[0]);
      TapeOnlyGrows(Process(st, msgs[0]), msgs[1..]);
    }
  }

  /**
   Every trade of every run is legal: between an order that a message of the run sent, within that order's limit as
   it stood when it was sent, and an order that rested in the book it met, at its price and for what it had.
   */
  lemma AllTradesLegal(msgs: seq<Message>, i: nat)
    requires AcceptsAll(EMPTY, msgs) && i < |Run(EMPTY, msgs).trades|
    ensures StruckInRun(EMPTY, msgs, Run(EMPTY, msgs).trades[i])
  {
    RunTradesLegally(EMPTY, msgs, i);
  }

  // ----- places in the queue -----

  /** A bid at `p` has the priority of one at `limit` if it is as high, an ask if it is as low. */
  predicate NotWorse(side: Side, p: Price, limit: Price) {
    if side.Buy? then p >= limit else p <= limit
  }

  /**
   `q'` is `q` with `o` in its place: behind every order whose price is as good or better, before every
   other, nobody else moved.
   */
  ghost predicate Placed(q: seq<OrderData>, o: OrderData, q': seq<OrderData>) {
    var k := Find(q', o.id);
    && k < |q'| && q'[k] == o
    && (forall i :: 0 <= i < k ==> NotWorse(o.side, q'[i].price, o.price))
    && (forall i :: k < i < |q'| ==> !NotWorse(o.side, q'[i].price, o.price))
    && q'[..k] + q'[k + 1..] == q
  }

  lemma FindInserted(q: seq<OrderData>, o: OrderData)
    requires !Holds(q, o.id)
    ensures Find(Insert(q, o), o.id) == Rank(o.side, q, o.price)
  {
    var q' := Insert(q, o);
    var k := Rank(o.side, q, o.price);
    InsertAt(q, o);
    assert forall i :: 0 <= i < k ==> q'[i].id != o.id;
    assert q'[k].id == o.id;
  }

  lemma BehindTheRank(q: seq<OrderData>, o: OrderData, i: nat)
    requires forall i, j :: 0 <= i < j < |q| ==> !Better(o.side, q[j].price, q[i].price)
    requires Rank(o.side, q, o.price) <= i < |q|
    ensures Better(o.side, o.price, q[i].price)
  {
    var k := Rank(o.side, q, o.price);
    assert i == k || !Better(o.side, q[i].price, q[k].price);
  }

  lemma InsertPlaces(q: seq<OrderData>, o: OrderData)
    requires forall i, j :: 0 <= i < j < |q| ==> !Better(o.side, q[j].price, q[i].price)
    requires !Holds(q, o.id)
    ensures Placed(q, o, Insert(q, o))
  {
    var k := Rank(o.side, q, o.price);
    FindInserted(q, o);
    forall i | k <= i < |q|
      ensures !NotWorse(o.side, q[i].price, o.price)
    {
      BehindTheRank(q, o, i);
    }
    assert forall i :: 0 <= i < k ==> NotWorse(o.side, q[i].price, o.price);
    PlacedBetween(q, o, k, Insert(q, o));
  }

  lemma PlacedBetween(q: seq<OrderData>, o: OrderData, k: nat, q': seq<OrderData>)
    requires k <= |q| && q' == q[..k] + [o] + q[k..] && Find(q', o.id) == k
    requires forall i :: 0 <= i < |q| ==> (NotWorse(o.side, q[i].price, o.price) <==> i < k)
    ensures Placed(q, o, q')
  {
    assert q'[..k] == q[..k] && q'[k + 1..] == q[k..];
    assert q[..k] + q[k..] == q;
    forall i | 0 <= i < |q'| && i != k
      ensures NotWorse(o.side, q'[i].price, o.price) <==> i < k
    {
      assert q'[i] == q[if i < k then i else i - 1];
    }
  }

  /** Entering a good-till-cancel limit order that executes `n`, in closed form. */
  ghost predicate EnteredFor(st: Flat, o: OrderData, n: Quantity, st': Flat, r: AddOrderResult) {
    var opp := o.side.Opposite();
    && st'.Of(opp) == Consume(st.Of(opp), n)
    && st'.trades == st.trades + Tape(o, st.Of(opp), n)
    && st'.Of(o.side) == (if n < o.remaining then Insert(st.Of(o.side), o.(remaining := o.remaining - n))
                          else st.Of(o.side))
    && st'.nextId == st.nextId
    && r == ResultOf(o.orderType, n, o.remaining - n)
  }

  ghost predicate Entered(st: Flat, o: OrderData, st': Flat, r: AddOrderResult) {
    EnteredFor(st, o, Executable(st, o), st', r)
  }

  lemma EnterInClosedForm(st: Flat, o: OrderData)
    requires Inv(st) && Fresh(st, o) && Enterable(st, o)
    requires o.orderType.Limit? && o.tif.GoodTillCancel?
    ensures Entered(st, o, Enter(st, o).0, Enter(st, o).1)
  {
    var (end, o') := Match(st, o);
    var n := Executable(st, o);
    assert end.Of(o.side) == st.Of(o.side) && end.nextId == st.nextId && o' == o.(remaining := o.remaining - n) by {
      MatchKeepsInv(st, o);
      SweepExecutes(st, o);
    }
    MatchConsumes(st, o);
    EnterLimit(st, o, (end, o'));
    EnteredBySweep(st, o, n, end, o', Enter(st, o));
  }

  lemma EnteredBySweep(st: Flat, o: OrderData, n: Quantity, end: Flat, o': OrderData, entered: (Flat, AddOrderResult))
    requires o.orderType.Limit? && n <= o.remaining && o' == o.(remaining := o.remaining - n)
    requires end.Of(o.side) == st.Of(o.side) && end.nextId == st.nextId
    requires OppositeQueue(end, o) == Consume(OppositeQueue(st, o), n)
    requires end.trades == st.trades + Tape(o, OppositeQueue(st, o), n)
    requires entered == (if o'.remaining != 0 then Rest(end, o') else end, ResultOf(Limit, n, o'.remaining))
    ensures EnteredFor(st, o, n, entered.0, entered.1)
  {
  }

  /** A remainder that rests joins its side of the book last at its price, and nobody else there moves. */
  lemma RemainderQueuesLast(st: Flat, o: OrderData)
    requires Inv(st) && Fresh(st, o) && Enterable(st, o)
    requires o.orderType.Limit? && o.tif.GoodTillCancel? && Available(st, o) < o.remaining
    ensures Placed(st.Of(o.side), o.(remaining := o.remaining - Available(st, o)), Enter(st, o).0.Of(o.side))
  {
    EnterInClosedForm(st, o);
    EnteredIsPlaced(st, o, Enter(st, o).0, Enter(st, o).1);
  }

  lemma EnteredIsPlaced(st: Flat, o: OrderData, st': Flat, r: AddOrderResult)
    requires Available(st, o) < o.remaining && Entered(st, o, st', r)
    requires var q := st.Of(o.side);
             !Holds(q, o.id) && forall i, j :: 0 <= i < j < |q| ==> !Better(o.side, q[j].price, q[i].price)
    ensures Placed(st.Of(o.side), o.(remaining := o.remaining - Available(st, o)), st'.Of(o.side))
  {
    var left := o.(remaining := o.remaining - Available(st, o));
    assert st'.Of(o.side) == Insert(st.Of(o.side), left);
    InsertPlaces(st.Of(o.side), left);
  }

  /** Cancelling an order that met nobody restores both sides and the tape. */
  lemma AddThenCancelRestores(st: Flat, msg: Message, conn: int, seqNo: nat)
    requires Inv(st) && msg.AddOrder? && msg.orderType.Limit? && msg.tif.GoodTillCancel? && Accepts(st, msg)
    requires Available(st, OrderOf(msg, st.nextId)) == 0
    ensures var st' := Process(Process(st, msg), CancelOrder(st.nextId, conn, seqNo));
            && st'.bids == st.bids && st'.asks == st.asks && st'.trades == st.trades
            && st'.nextId == st.nextId + 1
  {
    var st0 := st.(nextId := st.nextId + 1);
    var o := OrderOf(msg, st.nextId);
    NewOrderMayEnter(st, msg);
    var entered := Enter(st0, o);
    assert Inserted(st, o, entered.0) by {
      EnterInClosedForm(st0, o);
      EnteredUnmet(st0, o, entered.0, entered.1);
    }
    assert Inserted(st, o, Process(st, msg)) by {
      ProcessAddIs(st, msg, entered);
    }
    assert !Rests(st, o.id) && Placed(st.Of(o.side), o, Insert(st.Of(o.side), o)) by {
      InsertPlaces(st.Of(o.side), o);
    }
    CancelUndoesInsert(st, o, Process(st, msg), conn, seqNo);
  }

  /** `st'` is `st` with `o` in its queue, its id taken; events aside. */
  ghost predicate Inserted(st: Flat, o: OrderData, st': Flat) {
    && st'.Of(o.side) == Insert(st.Of(o.side), o) && st'.Of(o.side.Opposite()) == st.Of(o.side.Opposite())
    && st'.trades == st.trades && st'.nextId == st.nextId + 1
  }

  lemma EnteredUnmet(st0: Flat, o: OrderData, st': Flat, r: AddOrderResult)
    requires Entered(st0, o, st', r) && Available(st0, o) == 0 && o.remaining > 0
    ensures st'.Of(o.side) == Insert(st0.Of(o.side), o) && st'.Of(o.side.Opposite()) == st0.Of(o.side.Opposite())
    ensures st'.trades == st0.trades && st'.nextId == st0.nextId
  {
  }

  lemma CancelUndoesInsert(st: Flat, o: OrderData, st1: Flat, conn: int, seqNo: nat)
    requires !Rests(st, o.id) && Inserted(st, o, st1) && Placed(st.Of(o.side), o, st1.Of(o.side))
    ensures var st' := Process(st1, CancelOrder(o.id, conn, seqNo));
            && st'.bids == st.bids && st'.asks == st.asks && st'.trades == st.trades
            && st'.nextId == st.nextId + 1
  {
    WithdrawInserted(st, o, st1);
    assert Process(st1, CancelOrder(o.id, conn, seqNo)) ==
           Withdraw(st1, o.id).Emit([Routed(conn, OrderCanceled(o.id))]);
  }

  lemma WithdrawInserted(st: Flat, o: OrderData, st1: Flat)
    requires !Rests(st, o.id) && Inserted(st, o, st1) && Placed(st.Of(o.side), o, st1.Of(o.side))
    ensures Rests(st1, o.id)
    ensures var st' := Withdraw(st1, o.id);
            && st'.Of(o.side) == st.Of(o.side) && st'.Of(o.side.Opposite()) == st.Of(o.side.Opposite())
            && st'.trades == st.trades && st'.nextId == st.nextId + 1
  {
    assert Holds(st1.Of(o.side), o.id) && !Holds(st1.Of(o.side.Opposite()), o.id);
    assert o.side == if Holds(st1.bids, o.id) then Buy else Sell;
  }

  // ----- modification -----

  function Rename(q: seq<OrderData>, from: OrderId, to: OrderId): seq<OrderData> {
    if q == [] then []
    else [if q[0].id == from then q[0].(id := to) else q[0]] + Rename(q[1..], from, to)
  }

  lemma {:induction false} RenameNothing(q: seq<OrderData>, from: OrderId, to: OrderId)
    requires forall i :: 0 <= i < |q| ==> q[i].id != from
    ensures Rename(q, from, to) == q
  {
    if q != [] {
      RenameNothing(q[1..], from, to);
    }
  }

  lemma {:induction false} RenameConcat(a: seq<OrderData>, b: seq<OrderData>, from: OrderId, to: OrderId)
    ensures Rename(a + b, from, to) == Rename(a, from, to) + Rename(b, from, to)
  {
    if a == [] {
      assert a + b == b;
    } else {
      assert (a + b)[1..] == a[1..] + b;
      RenameConcat(a[1..], b, from, to);
    }
  }

  lemma RenameOne(o: OrderData, to: OrderId)
    ensures Rename([o], o.id, to) == [o.(id := to)]
  {
    assert Rename([], o.id, to) == [];
  }

  lemma RenameInserted(q: seq<OrderData>, o: OrderData, to: OrderId)
    requires !Holds(q, o.id)
    ensures Rename(Insert(q, o), o.id, to) == Insert(q, o.(id := to))
  {
    var k := Rank(o.side, q, o.price);
    var a, b := q[..k], q[k..];
    calc {
      Rename(Insert(q, o), o.id, to);
      { RenameConcat(a + [o], b, o.id, to); }
      Rename(a + [o], o.id, to) + Rename(b, o.id, to);
      { RenameConcat(a, [o], o.id, to); }
      Rename(a, o.id, to) + Rename([o], o.id, to) + Rename(b, o.id, to);
      { RenameNothing(a, o.id, to); RenameNothing(b, o.id, to); RenameOne(o, to); }
      a + [o.(id := to)] + b;
    }
  }

  /** A trade taken under another id. */
  function Retaken(t: Trade, id: OrderId): Trade {
    if t.aggressor.Buy? then t.(buyer := t.buyer.(id := id)) else t.(seller := t.seller.(id := id))
  }

  function RetakenAll(ts: seq<Trade>, id: OrderId): seq<Trade> {
    if ts == [] then [] else [Retaken(ts[0], id)] + RetakenAll(ts[1..], id)
  }

  lemma {:induction false} TapeUnderTwoIds(o: OrderData, q: seq<OrderData>, n: Quantity, id: OrderId)
    ensures Tape(o.(id := id), q, n) == RetakenAll(Tape(o, q, n), id)
    decreases |q|
  {
    if q != [] && n > 0 {
      TapeUnderTwoIds(o.(remaining := o.remaining - q[0].remaining), q[1..], n - q[0].remaining, id);
      assert Tape(o, q, n)[1..] == Tape(o.(remaining := o.remaining - q[0].remaining), q[1..], n - q[0].remaining);
    }
  }

  /** The message that sends `was` in again as a new order. */
  function AsNew(was: OrderData, price: Price, quantity: Quantity): Message {
    AddOrder(Limit, GoodTillCancel, was.clientId, price, quantity, was.side, was.conn, was.seqNo)
  }

  /** Both tapes only grow, and what the second gains is what the first gains, taken under `id`. */
  ghost predicate TradesDifferByTaker(before: seq<Trade>, after: seq<Trade>, before': seq<Trade>, after': seq<Trade>,
                                      id: OrderId) {
    before <= after && after' == before' + RetakenAll(after[|before|..], id)
  }

  /** Entering the same order under two ids differs by the id alone. */
  lemma EnterUnderTwoIds(st: Flat, o: OrderData, st': Flat, o': OrderData)
    requires Inv(st) && Fresh(st, o) && Enterable(st, o)
    requires Inv(st') && Fresh(st', o') && Enterable(st', o')
    requires st'.bids == st.bids && st'.asks == st.asks && o' == o.(id := o'.id)
    requires o.orderType.Limit? && o.tif.GoodTillCancel?
    ensures OppositeQueue(Enter(st', o').0, o) == OppositeQueue(Enter(st, o).0, o)
    ensures Enter(st', o').0.Of(o.side) == Rename(Enter(st, o).0.Of(o.side), o.id, o'.id)
    ensures Enter(st', o').1 == Enter(st, o).1
    ensures TradesDifferByTaker(st.trades, Enter(st, o).0.trades, st'.trades, Enter(st', o').0.trades, o'.id)
  {
    EnterInClosedForm(st, o);
    EnterInClosedForm(st', o');
    SameReach(st, o, st', o');
    TwoIdsDifferByName(st, o, Enter(st, o).0, Enter(st, o).1, st', o', Enter(st', o').0, Enter(st', o').1,
                       Executable(st, o));
  }

  lemma TwoIdsDifferByName(st: Flat, o: OrderData, end: Flat, r: AddOrderResult,
                           st': Flat, o': OrderData, end': Flat, r': AddOrderResult, n: Quantity)
    requires st'.bids == st.bids && st'.asks == st.asks && o' == o.(id := o'.id) && Fresh(st, o)
    requires EnteredFor(st, o, n, end, r) && EnteredFor(st', o', n, end', r')
    ensures OppositeQueue(end', o) == OppositeQueue(end, o)
    ensures end'.Of(o.side) == Rename(end.Of(o.side), o.id, o'.id)
    ensures r' == r
    ensures TradesDifferByTaker(st.trades, end.trades, st'.trades, end'.trades, o'.id)
  {
    var q, p := st.Of(o.side), OppositeQueue(st, o);
    assert st'.Of(o.side) == q && OppositeQueue(st', o) == p;
    assert TradesDifferByTaker(st.trades, end.trades, st'.trades, end'.trades, o'.id) by {
      TwoTapes(st.trades, o, p, n, st'.trades, o'.id);
    }
    assert end'.Of(o.side) == Rename(end.Of(o.side), o.id, o'.id) by {
      TwoQueues(q, o, n, o'.id);
    }
  }

  lemma SameReach(st: Flat, o: OrderData, st': Flat, o': OrderData)
    requires st'.bids == st.bids && st'.asks == st.asks && o' == o.(id := o'.id)
    ensures Executable(st', o') == Executable(st, o)
  {
  }

  lemma TwoTapes(before: seq<Trade>, o: OrderData, q: seq<OrderData>, n: Quantity, before': seq<Trade>, id: OrderId)
    ensures TradesDifferByTaker(before, before + Tape(o, q, n), before', before' + Tape(o.(id := id), q, n), id)
  {
    TapeUnderTwoIds(o, q, n, id);
    assert (before + Tape(o, q, n))[|before|..] == Tape(o, q, n);
  }

  lemma TwoQueues(q: seq<OrderData>, o: OrderData, n: Quantity, id: OrderId)
    requires !Holds(q, o.id)
    ensures Rename(q, o.id, id) == q
    ensures Rename(Insert(q, o.(remaining := o.remaining - n)), o.id, id) ==
            Insert(q, o.(id := id, remaining := o.remaining - n))
  {
    RenameNothing(q, o.id, id);
    RenameInserted(q, o.(remaining := o.remaining - n), id);
  }

  /**
   A modification is a cancellation followed by a good-till-cancel limit order with the same owner and
   client id, except that the order keeps its id: on both sides of the book and on the tape.
   */
  lemma ModifyIsCancelThenAdd(st: Flat, msg: Message)
    requires Inv(st) && msg.ModifyOrder? && Accepts(st, msg) && Rests(st, msg.id)
    ensures var was := OrderWith(st, msg.id);
            var modified := Process(st, msg);
            var cancelled := Process(st, CancelOrder(msg.id, msg.conn, msg.seqNo));
            var readded := Process(cancelled, AsNew(was, msg.newPrice, msg.newQuantity));
            && readded.Of(was.side.Opposite()) == modified.Of(was.side.Opposite())
            && readded.Of(was.side) == Rename(modified.Of(was.side), msg.id, st.nextId)
            && TradesDifferByTaker(st.trades, modified.trades, st.trades, readded.trades, st.nextId)
  {
    var was := OrderWith(st, msg.id);
    var o := Replacement(was, msg.newPrice, msg.newQuantity);
    var cancelled := Process(st, CancelOrder(msg.id, msg.conn, msg.seqNo));
    var st1 := Withdraw(st, msg.id);
    assert Inv(st1) && st1.nextId == st.nextId && Fresh(st1, o) && Enterable(st1, o) by {
      WithdrawKeepsInv(st, msg.id);
      AvailableAfterWithdraw(st, msg.id, o);
    }
    WithdrawnEitherWay(st, msg, st1, o, cancelled);
    ReaddedUnderNextId(st1, o, cancelled, AsNew(was, msg.newPrice, msg.newQuantity));
  }

  /** A cancellation withdraws, a modification withdraws and enters. */
  lemma WithdrawnEitherWay(st: Flat, msg: Message, st1: Flat, o: OrderData, cancelled: Flat)
    requires msg.ModifyOrder? && Rests(st, msg.id) && st1 == Withdraw(st, msg.id)
    requires o == Replacement(OrderWith(st, msg.id), msg.newPrice, msg.newQuantity)
    requires cancelled == Process(st, CancelOrder(msg.id, msg.conn, msg.seqNo))
    ensures st1 == cancelled.(events := st1.events)
    ensures var end := Enter(st1, o).0;
            && Process(st, msg).bids == end.bids && Process(st, msg).asks == end.asks
            && Process(st, msg).trades == end.trades
  {
  }

  /** Entering `o` itself, and sending it in again as a new order, differ by the id. */
  lemma ReaddedUnderNextId(st1: Flat, o: OrderData, cancelled: Flat, again: Message)
    requires Inv(st1) && Fresh(st1, o) && Enterable(st1, o) && o.orderType.Limit? && o.tif.GoodTillCancel?
    requires st1 == cancelled.(events := st1.events)
    requires again.AddOrder? && OrderOf(again, cancelled.nextId) == o.(id := cancelled.nextId)
    ensures OppositeQueue(Process(cancelled, again), o) == OppositeQueue(Enter(st1, o).0, o)
    ensures Process(cancelled, again).Of(o.side) == Rename(Enter(st1, o).0.Of(o.side), o.id, cancelled.nextId)
    ensures TradesDifferByTaker(st1.trades, Enter(st1, o).0.trades, cancelled.trades, Process(cancelled, again).trades,
                                cancelled.nextId)
  {
    var o' := OrderOf(again, cancelled.nextId);
    var st' := cancelled.(nextId := cancelled.nextId + 1);
    assert Inv(st') && Fresh(st', o') && Enterable(st', o') by {
      assert Inv(cancelled);
      NextIdKeepsInv(cancelled);
    }
    EnterUnderTwoIds(st1, o, st', o');
    ProcessAddIs(cancelled, again, Enter(st', o'));
  }
}
