/**
 Price-time priority and the algebra of sweeps: which makers are hit, in which order, for how much,
 and how sweeps compose.
 */
module PriorityLaws {
  import opened BookTypes
  import opened FlatBook
  import opened BookInvariant

  /** Quantity standing before position `i` of a queue. */
  function Ahead(q: seq<OrderData>, i: nat): Quantity
    requires i <= |q|
  {
    Sum(q[..i], Everything)
  }

  lemma AheadStep(q: seq<OrderData>, i: nat)
    requires i < |q|
    ensures Ahead(q, i + 1) == q[0].remaining + Ahead(q[1..], i)
  {
    assert q[..i + 1][1..] == q[1..][..i];
  }

  // ----- sweeps as functions of the queue alone -----

  /** Take `n` from the front of a queue. */
  function Consume(q: seq<OrderData>, n: Quantity): seq<OrderData> {
    if q == [] || n <= 0 then q
    else if n < q[0].remaining then [q[0].(remaining := q[0].remaining - n)] + q[1..]
    else Consume(q[1..], n - q[0].remaining)
  }

  /** The tape of taking `n` from the front of a queue. */
  function Tape(o: OrderData, q: seq<OrderData>, n: Quantity): seq<Trade>
    decreases |q|
  {
    if q == [] || n <= 0 then []
    else [TradeOf(o, q[0])] + Tape(o.(remaining := o.remaining - q[0].remaining), q[1..], n - q[0].remaining)
  }

  function Executable(st: Flat, o: OrderData): Quantity {
    Min(o.remaining, Available(st, o))
  }

  lemma ExecutableStep(st: Flat, o: OrderData)
    requires Inv(st) && Fresh(st, o) && o.remaining > 0 && CanTrade(st, o)
    ensures var (st1, o1) := TradeOnce(st, o);
            var n := Min(o.remaining, OppositeQueue(st, o)[0].remaining);
            Executable(st1, o1) == Executable(st, o) - n >= 0
  {
    var q := OppositeQueue(st, o);
    SumReduce(q, Min(o.remaining, q[0].remaining), Reach(o));
    SumBounds(q[1..], Reach(o));
  }

  /** One fill, on the queue alone: `taken` from the first maker, the rest of `n` still to come. */
  lemma ConsumeFirst(o: OrderData, q: seq<OrderData>, n: Quantity, taken: Quantity,
                     o1: OrderData, q1: seq<OrderData>, n1: Quantity)
    requires q != [] && q[0].remaining > 0 && o.remaining > 0
    requires taken == Min(o.remaining, q[0].remaining) && taken <= n <= o.remaining
    requires q1 == Reduce(q, taken) && n1 == n - taken && o1 == o.(remaining := o.remaining - taken)
    ensures Consume(q, n) == Consume(q1, n1)
    ensures Tape(o, q, n) == [TradeOf(o, q[0])] + Tape(o1, q1, n1)
  {
    if taken == q[0].remaining {
      assert q1 == q[1..];
    } else {
      assert n1 == 0 && n < q[0].remaining;
      assert Tape(o1, q[1..], n - q[0].remaining) == [];
    }
  }

  /** One fill of the sweep, as a step of the queue alone. */
  lemma FirstFill(st: Flat, o: OrderData, st1: Flat, o1: OrderData, n: Quantity, n1: Quantity)
    requires Inv(st) && Fresh(st, o) && o.remaining > 0 && CanTrade(st, o) && (st1, o1) == TradeOnce(st, o)
    requires n == Executable(st, o) && n1 == Executable(st1, o1)
    ensures var q, q1 := OppositeQueue(st, o), OppositeQueue(st1, o1);
            && Consume(q, n) == Consume(q1, n1)
            && Tape(o, q, n) == [TradeOf(o, q[0])] + Tape(o1, q1, n1)
  {
    var q, q1 := OppositeQueue(st, o), OppositeQueue(st1, o1);
    var taken := Min(o.remaining, q[0].remaining);
    assert n1 == n - taken >= 0 && n <= o.remaining by {
      ExecutableStep(st, o);
    }
    ConsumeFirst(o, q, n, taken, o1, q1, n1);
  }

  lemma NothingToConsume(st: Flat, o: OrderData)
    requires Inv(st) && o.remaining >= 0 && !CanTrade(st, o)
    ensures Executable(st, o) == 0
  {
    SumBounds(OppositeQueue(st, o), Reach(o));
    if o.remaining != 0 {
      NoneAcceptable(st, o);
    }
  }

  /** `end` is where a sweep leaves the book if it takes as much as it can from the front of the other side. */
  ghost predicate Consumed(st: Flat, o: OrderData, end: Flat) {
    var q, n := OppositeQueue(st, o), Executable(st, o);
    OppositeQueue(end, o) == Consume(q, n) && end.trades == st.trades + Tape(o, q, n)
  }

  lemma ConsumedOnward(st: Flat, o: OrderData, st1: Flat, o1: OrderData, end: Flat)
    requires Inv(st) && Fresh(st, o) && o.remaining > 0 && CanTrade(st, o) && (st1, o1) == TradeOnce(st, o)
    requires Consumed(st1, o1, end)
    ensures Consumed(st, o, end)
  {
    FirstFill(st, o, st1, o1, Executable(st, o), Executable(st1, o1));
  }

  lemma {:induction false} SweepConsumes(st: Flat, o: OrderData)
    requires Inv(st) && Fresh(st, o) && o.remaining >= 0
    ensures Consumed(st, o, Match(st, o).0)
    decreases |OppositeQueue(st, o)|, o.remaining != 0
  {
    if CanTrade(st, o) {
      var (st1, o1) := TradeOnce(st, o);
      assert Swept(st, o, st1, o1) by {
        TradeOnceKeepsInv(st, o);
      }
      SweepConsumes(st1, o1);
      ConsumedOnward(st, o, st1, o1, Match(st1, o1).0);
    } else {
      NothingToConsume(st, o);
    }
  }

  /** A sweep is: take what is executable from the front of the other side. */
  lemma MatchConsumes(st: Flat, o: OrderData)
    requires Inv(st) && Fresh(st, o) && o.remaining >= 0
    ensures OppositeQueue(Match(st, o).0, o) == Consume(OppositeQueue(st, o), Executable(st, o))
    ensures Match(st, o).0.trades == st.trades + Tape(o, OppositeQueue(st, o), Executable(st, o))
  {
    SweepConsumes(st, o);
  }

  // ----- price-time priority in closed form -----

  /** The i-th trade is with the i-th maker, the taker standing as it does once everyone ahead was served. */
  lemma {:induction false} TapeAt(o: OrderData, q: seq<OrderData>, n: Quantity)
    requires forall i :: 0 <= i < |q| ==> q[i].remaining > 0
    requires n >= 0
    ensures |Tape(o, q, n)| <= |q|
    ensures forall i :: 0 <= i < |q| ==> (i < |Tape(o, q, n)| <==> Ahead(q, i) < n)
    ensures forall i :: 0 <= i < |Tape(o, q, n)| ==>
      Tape(o, q, n)[i] == TradeOf(o.(remaining := o.remaining - Ahead(q, i)), q[i])
    decreases |q|
  {
    forall i | 0 <= i < |q|
      ensures Ahead(q, i) >= 0
      ensures i > 0 ==> Ahead(q, i) == q[0].remaining + Ahead(q[1..], i - 1) >= q[0].remaining
    {
      SumBounds(q[..i], Everything);
      if i > 0 {
        AheadStep(q, i - 1);
        SumBounds(q[1..][..i - 1], Everything);
      }
    }
    if q != [] && n > 0 {
      var o1 := o.(remaining := o.remaining - q[0].remaining);
      if n >= q[0].remaining {
        TapeAt(o1, q[1..], n - q[0].remaining);
      }
    }
  }

  /** Who survives: everyone behind the makers hit, and the last maker hit if it was not exhausted. */
  lemma {:induction false} ConsumeAt(o: OrderData, q: seq<OrderData>, n: Quantity)
    requires forall i :: 0 <= i < |q| ==> q[i].remaining > 0
    requires 0 <= n <= Sum(q, Everything)
    ensures Leaves(q, n, |Tape(o, q, n)|)
    decreases |q|
  {
    if q != [] && n > 0 {
      var o1 := o.(remaining := o.remaining - q[0].remaining);
      var tail := Tape(o1, q[1..], n - q[0].remaining);
      assert |Tape(o, q, n)| == 1 + |tail|;
      if n >= q[0].remaining {
        ConsumeAt(o1, q[1..], n - q[0].remaining);
        LeavesStep(q, n, |tail|);
      } else {
        assert tail == [];
        AheadStep(q, 0);
      }
    }
  }

  /** Taking `n` from a queue ends with its first `k` orders: they have at least `n`, the last keeps what is over. */
  predicate Leaves(q: seq<OrderData>, n: Quantity, k: nat) {
    && k <= |q| && Ahead(q, k) >= n && (k == 0 ==> n == 0)
    && Consume(q, n) == (if Ahead(q, k) == n then q[k..]
                         else [q[k - 1].(remaining := Ahead(q, k) - n)] + q[k..])
  }

  lemma LeavesStep(q: seq<OrderData>, n: Quantity, k: nat)
    requires q != [] && n >= q[0].remaining > 0 && Leaves(q[1..], n - q[0].remaining, k)
    ensures Leaves(q, n, k + 1)
  {
    AheadStep(q, k);
    assert q[1..][k..] == q[k + 1..];
  }

  /**
   `tape` and `left` come of serving the queue `q` strictly in order with a taker wanting `n`. The
   makers hit are exactly those with less than `n` ahead of them. Trade by trade they are served in
   queue order, at prices that never improve for the taker; all but the last give everything they
   have; everyone behind keeps place and quantity.
  */
  ghost predicate InPriority(o: OrderData, q: seq<OrderData>, n: Quantity, tape: seq<Trade>, left: seq<OrderData>) {
    var k := |tape|;
    && k <= |q|
    && (forall i :: 0 <= i < |q| ==> (i < k <==> Ahead(q, i) < n))
    && (forall i :: 0 <= i < k ==> tape[i] == TradeOf(o.(remaining := o.remaining - Ahead(q, i)), q[i]))
    && (forall i :: 0 <= i < k - 1 ==> tape[i].quantity == q[i].remaining)
    && (forall i, j :: 0 <= i < j < k ==>
          if o.side.Buy? then tape[i].price <= tape[j].price else tape[i].price >= tape[j].price)
    && n <= Ahead(q, k)
    && left == if k == 0 || Ahead(q, k) == n then q[k..]
               else [q[k - 1].(remaining := Ahead(q, k) - n)] + q[k..]
  }

  lemma ServedInPriority(o: OrderData, q: seq<OrderData>, n: Quantity, nextId: OrderId)
    requires QueueOk(o.side.Opposite(), q, nextId)
    requires 0 <= n <= o.remaining && n <= Sum(q, Everything)
    ensures InPriority(o, q, n, Tape(o, q, n), Consume(q, n))
  {
    TapeAt(o, q, n);
    ConsumeAt(o, q, n);
    ServedInTurn(o, q, n, Tape(o, q, n));
  }

  /** All makers hit but the last give everything, at prices in the queue's order. */
  lemma ServedInTurn(o: OrderData, q: seq<OrderData>, n: Quantity, tape: seq<Trade>)
    requires |tape| <= |q| && n <= o.remaining
    requires forall i, j :: 0 <= i < j < |q| ==> !Better(o.side.Opposite(), q[j].price, q[i].price)
    requires forall i :: 0 <= i < |q| ==> (i < |tape| <==> Ahead(q, i) < n)
    requires forall i :: 0 <= i < |tape| ==> tape[i] == TradeOf(o.(remaining := o.remaining - Ahead(q, i)), q[i])
    ensures forall i :: 0 <= i < |tape| - 1 ==> tape[i].quantity == q[i].remaining
    ensures forall i, j :: 0 <= i < j < |tape| ==> !Better(o.side.Opposite(), tape[j].price, tape[i].price)
  {
    forall i | 0 <= i < |tape| - 1
      ensures tape[i].quantity == q[i].remaining
    {
      AheadNext(q, i);
    }
  }

  /** Price-time priority: every sweep of every reachable book serves the other side strictly in order. */
  lemma PriceTimePriority(st: Flat, o: OrderData)
    requires Inv(st) && Fresh(st, o) && o.remaining >= 0
    ensures st.trades <= Match(st, o).0.trades
    ensures InPriority(o, OppositeQueue(st, o), Executable(st, o),
                       Match(st, o).0.trades[|st.trades|..], OppositeQueue(Match(st, o).0, o))
  {
    var q := OppositeQueue(st, o);
    SumBounds(q, Reach(o));
    MatchConsumes(st, o);
    ServedInPriority(o, q, Executable(st, o), st.nextId);
    assert Match(st, o).0.trades[|st.trades|..] == Tape(o, q, Executable(st, o));
  }

  lemma AheadNext(q: seq<OrderData>, i: nat)
    requires i < |q|
    ensures Ahead(q, i + 1) == Ahead(q, i) + q[i].remaining
  {
    assert q[..i + 1] == q[..i] + [q[i]];
    SumConcat(q[..i], [q[i]], Everything);
  }
}
