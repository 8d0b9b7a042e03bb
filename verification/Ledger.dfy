/**
 Conservation of quantity. For every order id and every run, what was submitted under the id equals
 what the tape shows traded, plus what still rests, plus what was released: cancelled, replaced,
 expired or rejected.
 */
module Ledger {
  import opened BookTypes
  import opened FlatBook
  import opened BookInvariant

  predicate Involves(t: Trade, id: OrderId) {
    t.buyer.id == id || t.seller.id == id
  }

  function Traded(trades: seq<Trade>, id: OrderId): Quantity {
    if trades == [] then 0
    else
      var n := |trades| - 1;
      Traded(trades[..n], id) + (if Involves(trades[n], id) then trades[n].quantity else 0)
  }

  function Volume(trades: seq<Trade>): Quantity {
    if trades == [] then 0
    else
      var n := |trades| - 1;
      Volume(trades[..n]) + trades[n].quantity
  }

  lemma TradedAppend(ts: seq<Trade>, t: Trade, id: OrderId)
    ensures Traded(ts + [t], id) == Traded(ts, id) + (if Involves(t, id) then t.quantity else 0)
    ensures Volume(ts + [t]) == Volume(ts) + t.quantity
  {
    assert (ts + [t])[..|ts|] == ts;
  }

  /** Quantity resting under an id, on either side. */
  function Held(st: Flat, id: OrderId): Quantity {
    Sum(st.bids, WithId(id)) + Sum(st.asks, WithId(id))
  }

  function HeldInAll(st: Flat): Quantity {
    Sum(st.bids, Everything) + Sum(st.asks, Everything)
  }

  function Own(o: OrderData, id: OrderId): Quantity {
    if o.id == id then o.remaining else 0
  }

  /** What entered the engine under `id` with this message. */
  function Submitted(st: Flat, msg: Message, id: OrderId): Quantity {
    match msg
    case AddOrder(_, _, _, _, quantity, _, _, _) => if id == st.nextId then quantity else 0
    case CancelOrder(_, _, _) => 0
    case ModifyOrder(target, _, quantity, _, _) => if target == id && Rests(st, id) then quantity else 0
  }

  /** What an entering order gives up when it neither trades nor rests. */
  function Expired(st: Flat, o: OrderData): Quantity {
    var reach := Available(st, o);
    if o.orderType.Limit? && o.tif.GoodTillCancel? then 0
    else if o.orderType.Limit? && o.tif.FillOrKill? then (if reach < o.remaining then o.remaining else 0)
    else o.remaining - Min(o.remaining, reach)
  }

  /** What left the engine untraded under `id`: computed from the state before, without matching. */
  function Released(st: Flat, msg: Message, id: OrderId): Quantity {
    match msg
    case AddOrder(_, _, _, _, _, _, _, _) => if id == st.nextId then Expired(st, OrderOf(msg, id)) else 0
    case CancelOrder(target, _, _) => if target == id then Held(st, id) else 0
    case ModifyOrder(target, _, _, _, _) => if target == id then Held(st, id) else 0
  }

  function SubmittedIn(st: Flat, msgs: seq<Message>, id: OrderId): Quantity
    decreases |msgs|
  {
    if msgs == [] then 0
    else Submitted(st, msgs[0], id) + SubmittedIn(Process(st, msgs[0]), msgs[1..], id)
  }

  function ReleasedIn(st: Flat, msgs: seq<Message>, id: OrderId): Quantity
    decreases |msgs|
  {
    if msgs == [] then 0
    else Released(st, msgs[0], id) + ReleasedIn(Process(st, msgs[0]), msgs[1..], id)
  }

  // ----- one fill, one sweep -----

  lemma TradeOnceConserves(st: Flat, o: OrderData, id: OrderId)
    requires Inv(st) && Fresh(st, o) && o.remaining > 0 && CanTrade(st, o)
    ensures var (st', o') := TradeOnce(st, o);
            && Traded(st'.trades, id) + Held(st', id) + Own(o', id) ==
               Traded(st.trades, id) + Held(st, id) + Own(o, id)
            && 2 * Volume(st'.trades) + HeldInAll(st') + o'.remaining ==
               2 * Volume(st.trades) + HeldInAll(st) + o.remaining
  {
    var q := OppositeQueue(st, o);
    var n := Min(o.remaining, q[0].remaining);
    TradedAppend(st.trades, TradeOf(o, q[0]), id);
    SumReduce(q, n, WithId(id));
    SumReduce(q, n, Everything);
    assert q[0].id != o.id;
  }

  /** Between two moments of a sweep no quantity appears or disappears, of one id or of all. */
  ghost predicate Kept(st: Flat, o: OrderData, st': Flat, o': OrderData, id: OrderId) {
    && Traded(st'.trades, id) + Held(st', id) + Own(o', id) == Traded(st.trades, id) + Held(st, id) + Own(o, id)
    && 2 * Volume(st'.trades) + HeldInAll(st') + o'.remaining == 2 * Volume(st.trades) + HeldInAll(st) + o.remaining
  }

  lemma KeptOnward(st: Flat, o: OrderData, st1: Flat, o1: OrderData, st2: Flat, o2: OrderData, id: OrderId)
    requires Kept(st, o, st1, o1, id) && Kept(st1, o1, st2, o2, id)
    ensures Kept(st, o, st2, o2, id)
  {
  }

  lemma {:induction false} SweepKeeps(st: Flat, o: OrderData, id: OrderId)
    requires Inv(st) && Fresh(st, o) && o.remaining >= 0
    ensures Kept(st, o, Match(st, o).0, Match(st, o).1, id)
    decreases |OppositeQueue(st, o)|, o.remaining != 0
  {
    if CanTrade(st, o) {
      var (st1, o1) := TradeOnce(st, o);
      assert Swept(st, o, st1, o1) by {
        TradeOnceKeepsInv(st, o);
      }
      assert Kept(st, o, st1, o1, id) by {
        TradeOnceConserves(st, o, id);
      }
      SweepKeeps(st1, o1, id);
      KeptOnward(st, o, st1, o1, Match(st1, o1).0, Match(st1, o1).1, id);
    }
  }

  lemma MatchConserves(st: Flat, o: OrderData, id: OrderId)
    requires Inv(st) && Fresh(st, o) && o.remaining >= 0
    ensures var (st', o') := Match(st, o);
            && Traded(st'.trades, id) + Held(st', id) + Own(o', id) ==
               Traded(st.trades, id) + Held(st, id) + Own(o, id)
            && 2 * Volume(st'.trades) + HeldInAll(st') + o'.remaining ==
               2 * Volume(st.trades) + HeldInAll(st) + o.remaining
  {
    SweepKeeps(st, o, id);
  }

  lemma {:induction false} MatchVolume(st: Flat, o: OrderData)
    requires Inv(st) && Fresh(st, o) && o.remaining >= 0
    ensures Volume(Match(st, o).0.trades) == Volume(st.trades) + o.remaining - Match(st, o).1.remaining
    decreases |OppositeQueue(st, o)|, o.remaining != 0
  {
    if CanTrade(st, o) {
      TradeOnceKeepsInv(st, o);
      TradedAppend(st.trades, TradeOf(o, OppositeQueue(st, o)[0]), 0);
      var (st', o') := TradeOnce(st, o);
      MatchVolume(st', o');
    }
  }

  // ----- operations -----

  lemma HeldNone(st: Flat, id: OrderId)
    requires !Rests(st, id)
    ensures Held(st, id) == 0
  {
    SumNone(st.bids, WithId(id));
    SumNone(st.asks, WithId(id));
  }

  lemma WithdrawConserves(st: Flat, target: OrderId, id: OrderId)
    requires Inv(st) && Rests(st, target)
    ensures Held(Withdraw(st, target), id) == if target == id then 0 else Held(st, id)
    ensures HeldInAll(Withdraw(st, target)) <= HeldInAll(st)
  {
    if target == id {
      assert Inv(Withdraw(st, target)) && !Rests(Withdraw(st, target), id) by {
        WithdrawKeepsInv(st, target);
      }
      HeldNone(Withdraw(st, target), id);
    } else {
      WithdrawTakes(st, target, WithId(id));
    }
    WithdrawTakes(st, target, Everything);
  }

  /** A withdrawal takes the weight of its order out of every sum, and nothing else. */
  lemma WithdrawTakes(st: Flat, target: OrderId, sel: Selector)
    requires Rests(st, target)
    ensures var st' := Withdraw(st, target);
            Sum(st'.bids, sel) + Sum(st'.asks, sel) ==
            Sum(st.bids, sel) + Sum(st.asks, sel) - Weight(sel, OrderWith(st, target))
  {
    var q := if Holds(st.bids, target) then st.bids else st.asks;
    SumDrop(q, Find(q, target), sel);
  }

  lemma EnterConserves(st: Flat, o: OrderData, id: OrderId)
    requires Inv(st) && Fresh(st, o) && Enterable(st, o)
    ensures var st' := Enter(st, o).0;
            && Traded(st'.trades, id) + Held(st', id) + (if o.id == id then Expired(st, o) else 0) ==
               Traded(st.trades, id) + Held(st, id) + Own(o, id)
            && 2 * Volume(st'.trades) + HeldInAll(st') <=
               2 * Volume(st.trades) + HeldInAll(st) + o.remaining
  {
    MatchKeepsInv(st, o);
    SweepExecutes(st, o);
    MatchConserves(st, o, id);
    var (st', o') := Match(st, o);
    SumInsert(st'.Of(o.side), o', WithId(id));
    SumInsert(st'.Of(o.side), o', Everything);
  }

  lemma AddConserves(st: Flat, msg: Message, id: OrderId)
    requires msg.AddOrder? && Inv(st) && Accepts(st, msg)
    ensures var st' := Process(st, msg);
            && Traded(st'.trades, id) + Held(st', id) + Released(st, msg, id) ==
               Traded(st.trades, id) + Held(st, id) + Submitted(st, msg, id)
            && 2 * Volume(st'.trades) + HeldInAll(st') <=
               2 * Volume(st.trades) + HeldInAll(st) + msg.quantity
  {
    var st1 := st.(nextId := st.nextId + 1);
    NextIdKeepsInv(st);
    EnterConserves(st1, OrderOf(msg, st.nextId), id);
  }

  lemma ModifyConserves(st: Flat, msg: Message, id: OrderId)
    requires msg.ModifyOrder? && Inv(st) && Accepts(st, msg) && Rests(st, msg.id)
    ensures var st' := Process(st, msg);
            && Traded(st'.trades, id) + Held(st', id) + Released(st, msg, id) ==
               Traded(st.trades, id) + Held(st, id) + Submitted(st, msg, id)
            && 2 * Volume(st'.trades) + HeldInAll(st') <=
               2 * Volume(st.trades) + HeldInAll(st) + msg.newQuantity
  {
    var o := Replacement(OrderWith(st, msg.id), msg.newPrice, msg.newQuantity);
    WithdrawKeepsInv(st, msg.id);
    WithdrawConserves(st, msg.id, id);
    AvailableAfterWithdraw(st, msg.id, o);
    EnterConserves(Withdraw(st, msg.id), o, id);
  }

  lemma CancelConserves(st: Flat, msg: Message, id: OrderId)
    requires msg.CancelOrder? && Inv(st)
    ensures var st' := Process(st, msg);
            && Traded(st'.trades, id) + Held(st', id) + Released(st, msg, id) ==
               Traded(st.trades, id) + Held(st, id)
            && 2 * Volume(st'.trades) + HeldInAll(st') <= 2 * Volume(st.trades) + HeldInAll(st)
  {
    if Rests(st, msg.id) {
      WithdrawConserves(st, msg.id, id);
    } else {
      HeldNone(st, msg.id);
    }
  }

  /** One message: old balance plus submissions equals new balance plus releases. */
  lemma ProcessConserves(st: Flat, msg: Message, id: OrderId)
    requires Inv(st) && Accepts(st, msg)
    ensures var st' := Process(st, msg);
            && Traded(st'.trades, id) + Held(st', id) + Released(st, msg, id) ==
               Traded(st.trades, id) + Held(st, id) + Submitted(st, msg, id)
            && 2 * Volume(st'.trades) + HeldInAll(st') <=
               2 * Volume(st.trades) + HeldInAll(st) + Offered(st, msg)
  {
    match msg
    case AddOrder(_, _, _, _, _, _, _, _) => AddConserves(st, msg, id);
    case CancelOrder(_, _, _) => CancelConserves(st, msg, id);
    case ModifyOrder(target, _, _, _, _) =>
      if Rests(st, target) {
        ModifyConserves(st, msg, id);
      } else {
        HeldNone(st, target);
      }
  }

  // ----- runs -----

  lemma {:induction false} RunConserves(st: Flat, msgs: seq<Message>, id: OrderId)
    requires Inv(st) && AcceptsAll(st, msgs)
    ensures var st' := Run(st, msgs);
            Traded(st'.trades, id) + Held(st', id) + ReleasedIn(st, msgs, id) ==
            Traded(st.trades, id) + Held(st, id) + SubmittedIn(st, msgs, id)
    decreases |msgs|
  {
    if msgs != [] {
      ProcessConserves(st, msgs[0], id);
      ProcessKeepsInv(st, msgs[0]);
      RunConserves(Process(st, msgs[0]), msgs[1..], id);
    }
  }

  /** The ledger balances for every id after every run from the empty book. */
  lemma Conservation(msgs: seq<Message>, id: OrderId)
    requires AcceptsAll(EMPTY, msgs)
    ensures var st := Run(EMPTY, msgs);
            SubmittedIn(EMPTY, msgs, id) == Traded(st.trades, id) + Held(st, id) + ReleasedIn(EMPTY, msgs, id)
  {
    RunConserves(EMPTY, msgs, id);
  }

  // ----- machine integers -----

  const MAX_INT64: int := 0x7FFF_FFFF_FFFF_FFFF

  /** Quantity offered to the engine by a message, whatever its id. */
  function Offered(st: Flat, msg: Message): Quantity {
    match msg
    case AddOrder(_, _, _, _, quantity, _, _, _) => quantity
    case CancelOrder(_, _, _) => 0
    case ModifyOrder(target, _, quantity, _, _) => if Rests(st, target) then quantity else 0
  }

  function OfferedIn(st: Flat, msgs: seq<Message>): Quantity
    decreases |msgs|
  {
    if msgs == [] then 0 else Offered(st, msgs[0]) + OfferedIn(Process(st, msgs[0]), msgs[1..])
  }

  lemma {:induction false} RunBounds(st: Flat, msgs: seq<Message>)
    requires Inv(st) && AcceptsAll(st, msgs)
    ensures var st' := Run(st, msgs);
            2 * Volume(st'.trades) + HeldInAll(st') <=
            2 * Volume(st.trades) + HeldInAll(st) + OfferedIn(st, msgs)
    decreases |msgs|
  {
    if msgs != [] {
      ProcessConserves(st, msgs[0], 0);
      ProcessKeepsInv(st, msgs[0]);
      RunBounds(Process(st, msgs[0]), msgs[1..]);
    }
  }

  lemma {:induction false} RunVolumeGrows(st: Flat, msgs: seq<Message>)
    requires Inv(st) && AcceptsAll(st, msgs)
    ensures Volume(Run(st, msgs).trades) >= Volume(st.trades)
    decreases |msgs|
  {
    if msgs != [] {
      ProcessVolumeGrows(st, msgs[0]);
      ProcessKeepsInv(st, msgs[0]);
      RunVolumeGrows(Process(st, msgs[0]), msgs[1..]);
    }
  }

  lemma ProcessVolumeGrows(st: Flat, msg: Message)
    requires Inv(st) && Accepts(st, msg)
    ensures Volume(Process(st, msg).trades) >= Volume(st.trades)
  {
    match msg
    case AddOrder(_, _, _, _, _, _, _, _) =>
      var st0, o := st.(nextId := st.nextId + 1), OrderOf(msg, st.nextId);
      NewOrderMayEnter(st, msg);
      EnterVolumeGrows(st0, o);
      ProcessAddIs(st, msg, Enter(st0, o));
    case CancelOrder(_, _, _) =>
    case ModifyOrder(target, price, quantity, _, _) =>
      if Rests(st, target) {
        assert Inv(Withdraw(st, target)) && !Rests(Withdraw(st, target), target) &&
               Withdraw(st, target).nextId == st.nextId && target < st.nextId by {
          WithdrawKeepsInv(st, target);
        }
        EnterVolumeGrows(Withdraw(st, target), Replacement(OrderWith(st, target), price, quantity));
      }
  }

  lemma EnterVolumeGrows(st: Flat, o: OrderData)
    requires Inv(st) && Fresh(st, o) && o.remaining >= 0
    ensures Volume(Enter(st, o).0.trades) >= Volume(st.trades)
  {
    MatchKeepsInv(st, o);
    MatchVolume(st, o);
  }

  /**
   When everything ever offered fits in 63 bits, so does every side's total, every level's depth,
   every remainder and the volume of the tape: 64-bit signed sums in the engine cannot wrap.
   */
  lemma NoOverflow(msgs: seq<Message>, side: Side, sel: Selector)
    requires AcceptsAll(EMPTY, msgs) && OfferedIn(EMPTY, msgs) <= MAX_INT64
    ensures var st := Run(EMPTY, msgs);
            && 0 <= Sum(st.Of(side), sel) <= MAX_INT64
            && 0 <= Volume(st.trades) <= MAX_INT64
            && forall o :: o in st.Of(side) ==> o.remaining <= MAX_INT64
  {
    RunKeepsInv(EMPTY, msgs);
    RunBounds(EMPTY, msgs);
    RunVolumeGrows(EMPTY, msgs);
    var st := Run(EMPTY, msgs);
    SumBounds(st.bids, sel);
    SumBounds(st.asks, sel);
    forall o | o in st.Of(side)
      ensures o.remaining <= MAX_INT64
    {
      PartOfSum(st.Of(side), o);
    }
  }

  lemma {:induction false} PartOfSum(q: seq<OrderData>, o: OrderData)
    requires o in q && forall i :: 0 <= i < |q| ==> q[i].remaining > 0
    ensures o.remaining <= Sum(q, Everything)
  {
    SumBounds(q[1..], Everything);
    if o != q[0] {
      PartOfSum(q[1..], o);
    }
  }

  // ----- inside a sweep -----

  /** The book and the taker after the first `k` fills of a sweep. */
  function Fills(st: Flat, o: OrderData, k: nat): (Flat, OrderData)
    decreases k
  {
    if k == 0 || !CanTrade(st, o) then (st, o)
    else
      var (st1, o1) := TradeOnce(st, o);
      Fills(st1, o1, k - 1)
  }

  /** A sweep is its fills; there are at most as many as makers. */
  lemma {:induction false} FillsMakeTheSweep(st: Flat, o: OrderData, k: nat)
    requires k >= |OppositeQueue(st, o)|
    ensures Fills(st, o, k) == Match(st, o)
    decreases k
  {
    if CanTrade(st, o) {
      var (st1, o1) := TradeOnce(st, o);
      if o1.remaining == 0 {
        assert !CanTrade(st1, o1);
      } else {
        FillsMakeTheSweep(st1, o1, k - 1);
      }
    }
  }

  /** What has been executed between two moments of a sweep has left the book. */
  ghost predicate FilledDown(st: Flat, o: OrderData, st': Flat, o': OrderData) {
    Inv(st') && 0 <= o'.remaining <= o.remaining && HeldInAll(st') + o.remaining - o'.remaining == HeldInAll(st)
  }

  lemma FilledOnce(st: Flat, o: OrderData, st1: Flat, o1: OrderData)
    requires Inv(st) && Fresh(st, o) && CanTrade(st, o) && o.remaining > 0 && (st1, o1) == TradeOnce(st, o)
    ensures FilledDown(st, o, st1, o1) && Fresh(st1, o1)
  {
    assert Swept(st, o, st1, o1) by {
      TradeOnceKeepsInv(st, o);
    }
    SumReduce(OppositeQueue(st, o), o.remaining - o1.remaining, Everything);
  }

  lemma FilledOnward(st: Flat, o: OrderData, st1: Flat, o1: OrderData, st2: Flat, o2: OrderData)
    requires Inv(st) && Fresh(st, o) && CanTrade(st, o) && o.remaining > 0 && (st1, o1) == TradeOnce(st, o)
    requires FilledDown(st1, o1, st2, o2)
    ensures FilledDown(st, o, st2, o2)
  {
    assert FilledDown(st, o, st1, o1) by {
      FilledOnce(st, o, st1, o1);
    }
  }

  lemma {:induction false} FillsConserve(st: Flat, o: OrderData, k: nat)
    requires Inv(st) && Fresh(st, o) && o.remaining >= 0
    ensures FilledDown(st, o, Fills(st, o, k).0, Fills(st, o, k).1)
    decreases k
  {
    if k > 0 && CanTrade(st, o) {
      var (st1, o1) := TradeOnce(st, o);
      assert Swept(st, o, st1, o1) by {
        TradeOnceKeepsInv(st, o);
      }
      FillsConserve(st1, o1, k - 1);
      FilledOnward(st, o, st1, o1, Fills(st1, o1, k - 1).0, Fills(st1, o1, k - 1).1);
    }
  }

  lemma LetInWithinBounds(st: Flat, msg: Message, st0: Flat, o: OrderData)
    requires Inv(st) && Accepts(st, msg) && LetsIn(st, msg, st0, o)
    ensures Inv(st0) && Fresh(st0, o) && o.remaining > 0
    ensures HeldInAll(st0) <= HeldInAll(st) && o.remaining == Offered(st, msg)
  {
    if msg.AddOrder? {
      NewOrderMayEnter(st, msg);
    } else {
      WithdrawConserves(st, msg.id, msg.id);
      WithdrawKeepsInv(st, msg.id);
    }
  }

  lemma {:induction false} OfferedUpTo(st: Flat, msgs: seq<Message>, i: nat)
    requires Inv(st) && AcceptsAll(st, msgs) && i < |msgs|
    ensures AcceptsAll(st, msgs[..i]) && Accepts(Run(st, msgs[..i]), msgs[i])
    ensures OfferedIn(st, msgs[..i]) + Offered(Run(st, msgs[..i]), msgs[i]) <= OfferedIn(st, msgs)
    decreases |msgs|
  {
    assert Inv(Process(st, msgs[0])) by {
      ProcessKeepsInv(st, msgs[0]);
    }
    if i == 0 {
      assert msgs[..0] == [];
      OfferedIsPositive(Process(st, msgs[0]), msgs[1..]);
    } else {
      assert msgs[..i][0] == msgs[0] && msgs[..i][1..] == msgs[1..][..i - 1];
      OfferedUpTo(Process(st, msgs[0]), msgs[1..], i - 1);
    }
  }

  lemma {:induction false} OfferedIsPositive(st: Flat, msgs: seq<Message>)
    requires Inv(st) && AcceptsAll(st, msgs)
    ensures OfferedIn(st, msgs) >= 0
    decreases |msgs|
  {
    if msgs != [] {
      ProcessKeepsInv(st, msgs[0]);
      OfferedIsPositive(Process(st, msgs[0]), msgs[1..]);
    }
  }

  /**
   Under the same bound, at every fill of every sweep of every run: the quantity executed so far, every
   level's total and every side's total fit in 63 bits. The fills bounded are those the sweep is made of.
   */
  lemma NoOverflowInsideSweeps(msgs: seq<Message>, i: nat, st0: Flat, o: OrderData, k: nat, side: Side, sel: Selector)
    requires AcceptsAll(EMPTY, msgs) && OfferedIn(EMPTY, msgs) <= MAX_INT64 && i < |msgs|
    requires LetsIn(Run(EMPTY, msgs[..i]), msgs[i], st0, o)
    ensures var (st', o') := Fills(st0, o, k);
            && 0 <= o.remaining - o'.remaining <= MAX_INT64
            && 0 <= Sum(st'.Of(side), sel) <= MAX_INT64
            && (k >= |OppositeQueue(st0, o)| ==> (st', o') == Match(st0, o))
  {
    if k >= |OppositeQueue(st0, o)| {
      FillsMakeTheSweep(st0, o, k);
    }
    var st := Run(EMPTY, msgs[..i]);
    OfferedUpTo(EMPTY, msgs, i);
    assert Inv(st) && 0 <= HeldInAll(st) && HeldInAll(st) + Offered(st, msgs[i]) <= MAX_INT64 by {
      RunHoldsAtMostOffered(msgs[..i]);
    }
    LetInFillsWithinBounds(st, msgs[i], st0, o, k, side, sel);
  }

  lemma LetInFillsWithinBounds(st: Flat, msg: Message, st0: Flat, o: OrderData, k: nat, side: Side, sel: Selector)
    requires Inv(st) && Accepts(st, msg) && LetsIn(st, msg, st0, o)
    ensures var (st', o') := Fills(st0, o, k);
            && 0 <= o.remaining - o'.remaining <= Offered(st, msg)
            && 0 <= Sum(st'.Of(side), sel) <= HeldInAll(st)
  {
    LetInWithinBounds(st, msg, st0, o);
    FillsWithinBounds(st0, o, k, side, sel);
  }

  lemma RunHoldsAtMostOffered(msgs: seq<Message>)
    requires AcceptsAll(EMPTY, msgs)
    ensures Inv(Run(EMPTY, msgs)) && 0 <= HeldInAll(Run(EMPTY, msgs)) <= OfferedIn(EMPTY, msgs)
  {
    RunKeepsInv(EMPTY, msgs);
    RunBounds(EMPTY, msgs);
    RunVolumeGrows(EMPTY, msgs);
    SumBounds(Run(EMPTY, msgs).bids, Everything);
    SumBounds(Run(EMPTY, msgs).asks, Everything);
  }

  lemma FillsWithinBounds(st: Flat, o: OrderData, k: nat, side: Side, sel: Selector)
    requires Inv(st) && Fresh(st, o) && o.remaining >= 0
    ensures var (st', o') := Fills(st, o, k);
            && 0 <= o.remaining - o'.remaining <= o.remaining
            && 0 <= Sum(st'.Of(side), sel) <= HeldInAll(st)
  {
    FillsConserve(st, o, k);
    var st' := Fills(st, o, k).0;
    SumBounds(st'.Of(side), sel);
    SumBounds(st'.Of(side), Everything);
    SumBounds(st'.Of(side.Opposite()), Everything);
  }
}
