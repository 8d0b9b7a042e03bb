/**
 Time priority over whole runs: on either side of the book, orders at one price stand in the order in which messages
 last entered them. A modification enters its order anew, so it loses its place.
 */
module TimePriority {
  import opened BookTypes
  import opened FlatBook
  import opened BookInvariant

  /** The message enters an order under `id`: a new one, or the replacement of one that rests. */
  predicate Enters(st: Flat, msg: Message, id: OrderId) {
    match msg
    case AddOrder(_, _, _, _, _, _, _, _) => id == st.nextId
    case CancelOrder(_, _, _) => false
    case ModifyOrder(modified, _, _, _, _) => id == modified && Rests(st, id)
  }

  /** Which message of a run last entered an order under `id`. */
  function LastEntered(msgs: seq<Message>, id: OrderId): (k: int)
    ensures k < |msgs|
  {
    if msgs == [] then -1
    else
      var n := |msgs| - 1;
      if Enters(Run(EMPTY, msgs[..n]), msgs[n], id) then n else LastEntered(msgs[..n], id)
  }

  lemma LastEnteredNext(msgs: seq<Message>, msg: Message, id: OrderId)
    ensures LastEntered(msgs + [msg], id) ==
            if Enters(Run(EMPTY, msgs), msg, id) then |msgs| else LastEntered(msgs, id)
  {
    assert (msgs + [msg])[..|msgs|] == msgs;
  }

  /** Orders of a queue at one price stand in the order in which they were last entered. */
  ghost predicate QueueInTime(q: seq<OrderData>, msgs: seq<Message>) {
    forall i, j :: 0 <= i < j < |q| && q[i].price == q[j].price ==>
      LastEntered(msgs, q[i].id) < LastEntered(msgs, q[j].id)
  }

  ghost predicate InTime(st: Flat, msgs: seq<Message>) {
    QueueInTime(st.bids, msgs) && QueueInTime(st.asks, msgs)
  }

  // ----- operations -----

  lemma ReduceInTime(q: seq<OrderData>, n: Quantity, msgs: seq<Message>)
    requires q != [] && QueueInTime(q, msgs)
    ensures QueueInTime(Reduce(q, n), msgs)
  {
    var q' := Reduce(q, n);
    var d := |q| - |q'|;
    assert forall i :: 0 <= i < |q'| ==> q'[i].id == q[i + d].id && q'[i].price == q[i + d].price;
    TailInTime(q, d, q', msgs);
  }

  lemma TailInTime(q: seq<OrderData>, d: nat, q': seq<OrderData>, msgs: seq<Message>)
    requires QueueInTime(q, msgs) && d + |q'| == |q|
    requires forall i :: 0 <= i < |q'| ==> q'[i].id == q[i + d].id && q'[i].price == q[i + d].price
    ensures QueueInTime(q', msgs)
  {
  }

  lemma {:induction false} MatchInTime(st: Flat, o: OrderData, msgs: seq<Message>)
    requires InTime(st, msgs)
    ensures InTime(Match(st, o).0, msgs)
    decreases |OppositeQueue(st, o)|, o.remaining != 0
  {
    if CanTrade(st, o) {
      var (st1, o1) := TradeOnce(st, o);
      var q := OppositeQueue(st, o);
      ReduceInTime(q, Min(o.remaining, q[0].remaining), msgs);
      MatchInTime(st1, o1, msgs);
    }
  }

  lemma WithdrawInTime(st: Flat, id: OrderId, msgs: seq<Message>)
    requires Rests(st, id) && InTime(st, msgs)
    ensures InTime(Withdraw(st, id), msgs)
  {
    var side := if Holds(st.bids, id) then Buy else Sell;
    WithdrawSides(st, id, side);
    DropInTime(st.Of(side), Find(st.Of(side), id), msgs);
    SidesInTime(Withdraw(st, id), side, msgs);
  }

  lemma WithdrawSides(st: Flat, id: OrderId, side: Side)
    requires Rests(st, id) && side == if Holds(st.bids, id) then Buy else Sell
    ensures var q := st.Of(side);
            var k := Find(q, id);
            k < |q| && Withdraw(st, id).Of(side) == q[..k] + q[k + 1..]
    ensures Withdraw(st, id).Of(side.Opposite()) == st.Of(side.Opposite())
  {
    var q := st.Of(side);
    var k := Find(q, id);
    var q' := q[..k] + q[k + 1..];
    var price := OrderWith(st, id).price;
    assert Withdraw(st, id) == st.With(side, q').Emit([BookUpdate(side, price, Depth(q', price))]);
  }

  lemma SidesInTime(st: Flat, side: Side, msgs: seq<Message>)
    requires QueueInTime(st.Of(side), msgs) && QueueInTime(st.Of(side.Opposite()), msgs)
    ensures InTime(st, msgs)
  {
  }

  lemma DropInTime(q: seq<OrderData>, k: nat, msgs: seq<Message>)
    requires k < |q| && QueueInTime(q, msgs)
    ensures QueueInTime(q[..k] + q[k + 1..], msgs)
  {
    var q' := q[..k] + q[k + 1..];
    assert forall i :: 0 <= i < |q'| ==> q'[i] == q[if i < k then i else i + 1];
  }

  /** One message later, only the order entered counts as later. */
  ghost predicate Later(before: seq<Message>, id: OrderId, msgs: seq<Message>) {
    && LastEntered(msgs, id) == |before|
    && forall other :: other != id ==> LastEntered(msgs, other) == LastEntered(before, other)
  }

  lemma OthersInTime(q: seq<OrderData>, id: OrderId, before: seq<Message>, msgs: seq<Message>)
    requires QueueInTime(q, before) && Later(before, id, msgs) && !Holds(q, id)
    ensures QueueInTime(q, msgs)
    ensures forall i :: 0 <= i < |q| ==> LastEntered(msgs, q[i].id) < LastEntered(msgs, id)
  {
    assert forall i :: 0 <= i < |q| ==> q[i].id != id;
  }

  /** Joining behind everyone at one's price, as the last to be entered. */
  lemma InsertInTime(q: seq<OrderData>, o: OrderData, msgs: seq<Message>)
    requires forall i, j :: 0 <= i < j < |q| ==> !Better(o.side, q[j].price, q[i].price)
    requires QueueInTime(q, msgs)
    requires forall i :: 0 <= i < |q| ==> LastEntered(msgs, q[i].id) < LastEntered(msgs, o.id)
    ensures QueueInTime(Insert(q, o), msgs)
  {
    var k := Rank(o.side, q, o.price);
    forall m | k <= m < |q|
      ensures q[m].price != o.price
    {
      assert m == k || !Better(o.side, q[m].price, q[k].price);
    }
    LastAtItsPrice(q, o, k, Insert(q, o), msgs);
  }

  lemma LastAtItsPrice(q: seq<OrderData>, o: OrderData, k: nat, q': seq<OrderData>, msgs: seq<Message>)
    requires k <= |q| && q' == q[..k] + [o] + q[k..] && QueueInTime(q, msgs)
    requires forall m :: k <= m < |q| ==> q[m].price != o.price
    requires forall i :: 0 <= i < |q| ==> LastEntered(msgs, q[i].id) < LastEntered(msgs, o.id)
    ensures QueueInTime(q', msgs)
  {
    forall j | k < j < |q'|
      ensures q'[j].price != o.price
    {
      assert q'[j] == q[j - 1];
    }
    forall i, j | 0 <= i < j < |q'| && i != k && q'[i].price == q'[j].price
      ensures LastEntered(msgs, q'[i].id) < LastEntered(msgs, q'[j].id)
    {
      var a := if i < k then i else i - 1;
      assert q'[i] == q[a];
      if j != k {
        var b := if j < k then j else j - 1;
        assert q'[j] == q[b];
      }
    }
  }

  lemma EnterInTime(st: Flat, o: OrderData, before: seq<Message>, msgs: seq<Message>)
    requires Inv(st) && Fresh(st, o) && o.remaining >= 0 && InTime(st, before) && Later(before, o.id, msgs)
    ensures InTime(Enter(st, o).0, msgs)
  {
    var (st', o') := Match(st, o);
    assert Inv(st') && Fresh(st', o') && o'.id == o.id by {
      MatchKeepsInv(st, o);
    }
    MatchInTime(st, o, before);
    assert Settled(st', o', msgs) by {
      SweptInTime(st', o', before, msgs);
    }
    assert InTime(st, msgs) by {
      OthersInTime(st.bids, o.id, before, msgs);
      OthersInTime(st.asks, o.id, before, msgs);
    }
    RestOrNot(st, o, st', o', msgs);
  }

  /** In time whether the order rests or not. */
  ghost predicate Settled(st: Flat, o: OrderData, msgs: seq<Message>) {
    InTime(st, msgs) && InTime(Rest(st, o), msgs)
  }

  lemma SweptInTime(st: Flat, o: OrderData, before: seq<Message>, msgs: seq<Message>)
    requires Inv(st) && Fresh(st, o) && InTime(st, before) && Later(before, o.id, msgs)
    ensures Settled(st, o, msgs)
  {
    OthersInTime(st.bids, o.id, before, msgs);
    OthersInTime(st.asks, o.id, before, msgs);
    InsertInTime(st.Of(o.side), o, msgs);
  }

  lemma RestOrNot(st: Flat, o: OrderData, st': Flat, o': OrderData, msgs: seq<Message>)
    requires (st', o') == Match(st, o) && InTime(st, msgs) && Settled(st', o', msgs)
    ensures InTime(Enter(st, o).0, msgs)
  {
    var end := Enter(st, o).0;
    assert end == st || end == st' || end == Rest(st', o');
  }

  // ----- messages -----

  /** A message that lets in an order. */
  lemma LetInInTime(st: Flat, msg: Message, met: Flat, o: OrderData, before: seq<Message>)
    requires Inv(st) && Accepts(st, msg) && st == Run(EMPTY, before) && InTime(st, before)
    requires LetsIn(st, msg, met, o)
    ensures InTime(Process(st, msg), before + [msg])
  {
    var msgs := before + [msg];
    assert Inv(met) && Fresh(met, o) && o.remaining >= 0 && InTime(met, before) by {
      if msg.AddOrder? {
        NewOrderMayEnter(st, msg);
      } else {
        WithdrawKeepsInv(st, msg.id);
        WithdrawInTime(st, msg.id, before);
      }
    }
    assert Later(before, o.id, msgs) by {
      EntersLater(st, msg, met, o, before);
    }
    EnterInTime(met, o, before, msgs);
    LetInEnters(st, msg, met, o);
  }

  lemma EntersLater(st: Flat, msg: Message, met: Flat, o: OrderData, before: seq<Message>)
    requires st == Run(EMPTY, before) && LetsIn(st, msg, met, o)
    ensures Later(before, o.id, before + [msg])
  {
    forall id
      ensures LastEntered(before + [msg], id) == if id == o.id then |before| else LastEntered(before, id)
    {
      LastEnteredNext(before, msg, id);
    }
  }

  /** A message that lets in nothing. */
  lemma NobodyEntersInTime(st: Flat, msg: Message, before: seq<Message>)
    requires st == Run(EMPTY, before) && InTime(st, before)
    requires msg.CancelOrder? || (msg.ModifyOrder? && !Rests(st, msg.id))
    ensures InTime(Process(st, msg), before + [msg])
  {
    forall id
      ensures LastEntered(before + [msg], id) == LastEntered(before, id)
    {
      LastEnteredNext(before, msg, id);
    }
    if msg.CancelOrder? && Rests(st, msg.id) {
      WithdrawInTime(st, msg.id, before);
      assert InTime(Withdraw(st, msg.id), before + [msg]);
    }
  }

  lemma ProcessInTime(st: Flat, msg: Message, before: seq<Message>)
    requires Inv(st) && Accepts(st, msg) && st == Run(EMPTY, before) && InTime(st, before)
    ensures InTime(Process(st, msg), before + [msg])
  {
    if msg.AddOrder? {
      LetInInTime(st, msg, st.(nextId := st.nextId + 1), OrderOf(msg, st.nextId), before);
    } else if msg.ModifyOrder? && Rests(st, msg.id) {
      LetInInTime(st, msg, Withdraw(st, msg.id), Replacement(OrderWith(st, msg.id), msg.newPrice, msg.newQuantity),
                  before);
    } else {
      NobodyEntersInTime(st, msg, before);
    }
  }

  // ----- runs -----

  lemma {:induction false} RunInTime(msgs: seq<Message>)
    requires AcceptsAll(EMPTY, msgs)
    ensures Inv(Run(EMPTY, msgs)) && InTime(Run(EMPTY, msgs), msgs)
    decreases |msgs|
  {
    RunKeepsInv(EMPTY, msgs);
    if msgs != [] {
      var n := |msgs| - 1;
      var before := msgs[..n];
      assert msgs == before + [msgs[n]];
      RunAndOne(EMPTY, before, msgs[n]);
      RunInTime(before);
      ProcessInTime(Run(EMPTY, before), msgs[n], before);
    }
  }

  /**
   In every run: of two orders on one side of the book, the one at the better price stands first; at one price, the
   one whose last entry is older.
   */
  lemma OlderStandsFirst(msgs: seq<Message>, side: Side, i: nat, j: nat)
    requires AcceptsAll(EMPTY, msgs)
    requires i < |Run(EMPTY, msgs).Of(side)| && j < |Run(EMPTY, msgs).Of(side)| && i != j
    ensures var q := Run(EMPTY, msgs).Of(side);
            i < j <==>
              || (if side.Buy? then q[i].price > q[j].price else q[i].price < q[j].price)
              || (q[i].price == q[j].price && LastEntered(msgs, q[i].id) < LastEntered(msgs, q[j].id))
  {
    RunInTime(msgs);
    var q := Run(EMPTY, msgs).Of(side);
    assert QueueInTime(q, msgs) && QueueOk(side, q, Run(EMPTY, msgs).nextId);
  }
}
