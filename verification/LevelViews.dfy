/**
 A side of the book as price levels, seen as values: how levels with cached totals represent one
 priority-ordered queue.
 */
module LevelViews {
  import opened BookTypes
  import opened FlatBook
  import opened BookInvariant

  datatype LevelView = LevelView(price: Price, total: Quantity, orders: seq<OrderData>)

  function Flatten(vs: seq<LevelView>): seq<OrderData> {
    if vs == [] then [] else vs[0].orders + Flatten(vs[1..])
  }

  /** The cached total is the sum of the remainders, and every order is at the level's price. */
  ghost predicate LevelOk(v: LevelView) {
    && v.total == Sum(v.orders, Everything)
    && (forall i :: 0 <= i < |v.orders| ==> v.orders[i].price == v.price)
  }

  /** Levels from best to worst, each once. */
  ghost predicate LevelsOk(side: Side, vs: seq<LevelView>) {
    && (forall i, j :: 0 <= i < j < |vs| ==> Better(side, vs[i].price, vs[j].price))
    && (forall i :: 0 <= i < |vs| ==> LevelOk(vs[i]))
  }

  lemma {:induction false} FlattenConcat(a: seq<LevelView>, b: seq<LevelView>)
    ensures Flatten(a + b) == Flatten(a) + Flatten(b)
  {
    if a == [] {
      assert a + b == b;
    } else {
      assert (a + b)[1..] == a[1..] + b;
      FlattenConcat(a[1..], b);
    }
  }

  lemma FlattenOne(v: LevelView)
    ensures Flatten([v]) == v.orders
  {
    assert Flatten([v][1..]) == [];
  }

  lemma FlattenSplit(a: seq<LevelView>, v: LevelView, b: seq<LevelView>)
    ensures Flatten(a + [v] + b) == Flatten(a) + v.orders + Flatten(b)
  {
    FlattenConcat(a + [v], b);
    FlattenConcat(a, [v]);
    FlattenOne(v);
  }

  /** An order of the queue is an order of some level. */
  lemma {:induction false} FlattenHas(vs: seq<LevelView>, k: nat) returns (i: nat, j: nat)
    requires k < |Flatten(vs)|
    ensures i < |vs| && j < |vs[i].orders| && vs[i].orders[j] == Flatten(vs)[k]
    decreases |vs|
  {
    if k < |vs[0].orders| {
      i, j := 0, k;
    } else {
      i, j := FlattenHas(vs[1..], k - |vs[0].orders|);
      i := i + 1;
    }
  }

  lemma FlattenPrices(vs: seq<LevelView>, p: Price)
    requires forall i :: 0 <= i < |vs| ==> LevelOk(vs[i]) && vs[i].price != p
    ensures forall k :: 0 <= k < |Flatten(vs)| ==> Flatten(vs)[k].price != p
  {
    forall k | 0 <= k < |Flatten(vs)|
      ensures Flatten(vs)[k].price != p
    {
      var i, j := FlattenHas(vs, k);
    }
  }

  lemma {:induction false} SumAtOwnPrice(q: seq<OrderData>, p: Price)
    requires forall i :: 0 <= i < |q| ==> q[i].price == p
    ensures Sum(q, AtPrice(p)) == Sum(q, Everything)
  {
    if q != [] {
      SumAtOwnPrice(q[1..], p);
    }
  }

  /** The depth at a level's price is the level's cached total. */
  lemma DepthOfLevel(side: Side, vs: seq<LevelView>, i: nat)
    requires LevelsOk(side, vs) && i < |vs|
    ensures Depth(Flatten(vs), vs[i].price) == vs[i].total
  {
    var a, v, b := vs[..i], vs[i], vs[i + 1..];
    assert Flatten(vs) == Flatten(a) + v.orders + Flatten(b) by {
      assert vs == a + [v] + b;
      FlattenSplit(a, v, b);
    }
    SumInThree(Flatten(a), v.orders, Flatten(b), AtPrice(v.price));
    assert Sum(Flatten(a), AtPrice(v.price)) == 0 by {
      DepthOfNoLevel(a, v.price);
    }
    assert Sum(Flatten(b), AtPrice(v.price)) == 0 by {
      DepthOfNoLevel(b, v.price);
    }
    SumAtOwnPrice(v.orders, v.price);
  }

  lemma SumInThree(a: seq<OrderData>, b: seq<OrderData>, c: seq<OrderData>, sel: Selector)
    ensures Sum(a + b + c, sel) == Sum(a, sel) + Sum(b, sel) + Sum(c, sel)
  {
    SumConcat(a + b, c, sel);
    SumConcat(a, b, sel);
  }

  lemma DepthOfNoLevel(vs: seq<LevelView>, p: Price)
    requires forall i :: 0 <= i < |vs| ==> LevelOk(vs[i]) && vs[i].price != p
    ensures Depth(Flatten(vs), p) == 0
  {
    FlattenPrices(vs, p);
    SumNone(Flatten(vs), AtPrice(p));
  }

  lemma UpdateLevel(side: Side, vs: seq<LevelView>, i: nat, v: LevelView)
    requires LevelsOk(side, vs) && i < |vs| && v.price == vs[i].price && LevelOk(v)
    ensures LevelsOk(side, vs[i := v])
    ensures vs[i := v] == vs[..i] + [v] + vs[i + 1..]
    ensures Flatten(vs) == Flatten(vs[..i]) + vs[i].orders + Flatten(vs[i + 1..])
    ensures Flatten(vs[i := v]) == Flatten(vs[..i]) + v.orders + Flatten(vs[i + 1..])
  {
    SwapLevel(side, vs, i, v);
    SwapInQueue(vs, i, v);
  }

  lemma SwapLevel(side: Side, vs: seq<LevelView>, i: nat, v: LevelView)
    requires LevelsOk(side, vs) && i < |vs| && v.price == vs[i].price && LevelOk(v)
    ensures LevelsOk(side, vs[i := v])
  {
  }

  lemma SwapInQueue(vs: seq<LevelView>, i: nat, v: LevelView)
    requires i < |vs|
    ensures vs[i := v] == vs[..i] + [v] + vs[i + 1..]
    ensures Flatten(vs) == Flatten(vs[..i]) + vs[i].orders + Flatten(vs[i + 1..])
    ensures Flatten(vs[i := v]) == Flatten(vs[..i]) + v.orders + Flatten(vs[i + 1..])
  {
    assert vs[i := v] == vs[..i] + [v] + vs[i + 1..];
    assert Flatten(vs) == Flatten(vs[..i]) + vs[i].orders + Flatten(vs[i + 1..]) by {
      assert vs == vs[..i] + [vs[i]] + vs[i + 1..];
      FlattenSplit(vs[..i], vs[i], vs[i + 1..]);
    }
    FlattenSplit(vs[..i], v, vs[i + 1..]);
  }

  // ----- joining -----

  /** The only position that splits a queue into orders that keep priority and orders that lose it. */
  lemma InsertBetween(a: seq<OrderData>, b: seq<OrderData>, o: OrderData)
    requires forall i :: 0 <= i < |a| ==> !Better(o.side, o.price, a[i].price)
    requires b != [] ==> Better(o.side, o.price, b[0].price)
    ensures Insert(a + b, o) == a + [o] + b
  {
    var k := Rank(o.side, a + b, o.price);
    assert forall i :: 0 <= i < |a| ==> (a + b)[i] == a[i];
    assert b != [] ==> (a + b)[|a|] == b[0];
    assert (a + b)[..|a|] == a && (a + b)[|a|..] == b;
  }

  lemma BeforeAndAfter(side: Side, a: seq<LevelView>, b: seq<LevelView>, p: Price)
    requires forall i :: 0 <= i < |a| ==> LevelOk(a[i]) && !Better(side, p, a[i].price)
    requires forall i :: 0 <= i < |b| ==> LevelOk(b[i]) && Better(side, p, b[i].price)
    ensures forall k :: 0 <= k < |Flatten(a)| ==> !Better(side, p, Flatten(a)[k].price)
    ensures forall k :: 0 <= k < |Flatten(b)| ==> Better(side, p, Flatten(b)[k].price)
  {
    forall k | 0 <= k < |Flatten(a)|
      ensures !Better(side, p, Flatten(a)[k].price)
    {
      var i, j := FlattenHas(a, k);
    }
    forall k | 0 <= k < |Flatten(b)|
      ensures Better(side, p, Flatten(b)[k].price)
    {
      var i, j := FlattenHas(b, k);
    }
  }

  /** Appending to the level of one's price is joining the queue. */
  lemma JoinLevel(vs: seq<LevelView>, i: nat, o: OrderData)
    requires LevelsOk(o.side, vs) && i < |vs| && vs[i].price == o.price
    ensures var v := LevelView(o.price, vs[i].total + o.remaining, vs[i].orders + [o]);
            && Flatten(vs[i := v]) == Insert(Flatten(vs), o)
            && LevelsOk(o.side, vs[i := v])
  {
    var v := LevelView(o.price, vs[i].total + o.remaining, vs[i].orders + [o]);
    JoinedLevelOk(vs[i], o);
    UpdateLevel(o.side, vs, i, v);
    var x, b := Flatten(vs[..i]), Flatten(vs[i + 1..]);
    assert Insert(x + vs[i].orders + b, o) == x + vs[i].orders + [o] + b by {
      Neighbours(o.side, vs, i);
      InsertBetween(x + vs[i].orders, b, o);
    }
    JoinBrackets(x, vs[i].orders, o, b);
  }

  lemma JoinBrackets(x: seq<OrderData>, q: seq<OrderData>, o: OrderData, b: seq<OrderData>)
    ensures x + q + [o] + b == x + (q + [o]) + b
  {
    assert x + q + [o] == x + (q + [o]);
  }

  lemma Neighbours(side: Side, vs: seq<LevelView>, i: nat)
    requires LevelsOk(side, vs) && i < |vs|
    ensures var a := Flatten(vs[..i]) + vs[i].orders;
            forall k :: 0 <= k < |a| ==> !Better(side, vs[i].price, a[k].price)
    ensures var b := Flatten(vs[i + 1..]);
            forall k :: 0 <= k < |b| ==> Better(side, vs[i].price, b[k].price)
  {
    BeforeAndAfter(side, vs[..i], vs[i + 1..], vs[i].price);
  }

  lemma JoinedLevelOk(v: LevelView, o: OrderData)
    requires LevelOk(v) && o.price == v.price
    ensures LevelOk(LevelView(o.price, v.total + o.remaining, v.orders + [o]))
  {
    SumConcat(v.orders, [o], Everything);
    assert Sum([o][1..], Everything) == 0;
  }

  /** Where the level of a price is, or would go: after every better level. */
  ghost predicate Position(side: Side, vs: seq<LevelView>, price: Price, i: nat) {
    && i <= |vs|
    && (forall j :: 0 <= j < i ==> Better(side, vs[j].price, price))
    && (forall j :: i <= j < |vs| ==> Better(side, price, vs[j].price))
  }

  lemma OpenedLevelsOk(side: Side, vs: seq<LevelView>, i: nat, v: LevelView)
    requires LevelsOk(side, vs) && Position(side, vs, v.price, i) && LevelOk(v)
    ensures LevelsOk(side, vs[..i] + [v] + vs[i..])
  {
    var vs' := vs[..i] + [v] + vs[i..];
    assert forall j :: 0 <= j < |vs'| ==> vs'[j] == if j < i then vs[j] else if j == i then v else vs[j - 1];
  }

  lemma NewLevelOk(o: OrderData)
    ensures LevelOk(LevelView(o.price, o.remaining, [o]))
  {
    assert Sum([o][1..], Everything) == 0;
  }

  /** Opening a level in its place for an order is joining the queue. */
  lemma OpenLevel(vs: seq<LevelView>, i: nat, o: OrderData)
    requires LevelsOk(o.side, vs) && Position(o.side, vs, o.price, i)
    ensures var v := LevelView(o.price, o.remaining, [o]);
            && Flatten(vs[..i] + [v] + vs[i..]) == Insert(Flatten(vs), o)
            && LevelsOk(o.side, vs[..i] + [v] + vs[i..])
  {
    var v := LevelView(o.price, o.remaining, [o]);
    NewLevelOk(o);
    OpenedLevelsOk(o.side, vs, i, v);
    OpenedFlatten(vs, i, v, o);
  }

  lemma OpenedFlatten(vs: seq<LevelView>, i: nat, v: LevelView, o: OrderData)
    requires LevelsOk(o.side, vs) && Position(o.side, vs, o.price, i) && v.orders == [o]
    ensures Flatten(vs[..i] + [v] + vs[i..]) == Insert(Flatten(vs), o)
  {
    var a, b := vs[..i], vs[i..];
    assert Flatten(vs) == Flatten(a) + Flatten(b) by {
      assert vs == a + b;
      FlattenConcat(a, b);
    }
    FlattenSplit(a, v, b);
    BeforeAndAfter(o.side, a, b, o.price);
    InsertBetween(Flatten(a), Flatten(b), o);
  }

  // ----- leaving -----

  function Without(q: seq<OrderData>, k: nat): seq<OrderData>
    requires k < |q|
  {
    q[..k] + q[k + 1..]
  }

  /** A level one of its orders has left. */
  function LevelWithout(v: LevelView, j: nat): LevelView
    requires j < |v.orders|
  {
    LevelView(v.price, v.total - v.orders[j].remaining, Without(v.orders, j))
  }

  /** Removing an order from its level removes it from the queue. */
  lemma LeaveLevel(side: Side, vs: seq<LevelView>, i: nat, j: nat)
    requires LevelsOk(side, vs) && i < |vs| && j < |vs[i].orders|
    requires forall m, n :: 0 <= m < n < |Flatten(vs)| ==> Flatten(vs)[m].id != Flatten(vs)[n].id
    ensures var o := vs[i].orders[j];
            var v := LevelWithout(vs[i], j);
            var q := Flatten(vs);
            var k := Find(q, o.id);
            && k < |q| && q[k] == o
            && Flatten(vs[i := v]) == Without(q, k)
            && LevelsOk(side, vs[i := v])
  {
    var o := vs[i].orders[j];
    var v := LevelWithout(vs[i], j);
    LeftLevelOk(vs[i], j);
    UpdateLevel(side, vs, i, v);
    FindBetween(Flatten(vs[..i]), vs[i].orders, Flatten(vs[i + 1..]), j);
  }

  lemma LeftLevelOk(v: LevelView, j: nat)
    requires LevelOk(v) && j < |v.orders|
    ensures LevelOk(LevelWithout(v, j))
  {
    SumDrop(v.orders, j, Everything);
    assert forall k :: 0 <= k < |v.orders| - 1 ==> Without(v.orders, j)[k] == v.orders[if k < j then k else k + 1];
  }

  lemma FindBetween(a: seq<OrderData>, q: seq<OrderData>, b: seq<OrderData>, j: nat)
    requires j < |q|
    requires forall m, n :: 0 <= m < n < |a + q + b| ==> (a + q + b)[m].id != (a + q + b)[n].id
    ensures Find(a + q + b, q[j].id) == |a| + j
    ensures (a + q + b)[|a| + j] == q[j]
    ensures Without(a + q + b, |a| + j) == a + Without(q, j) + b
  {
    var all, k := a + q + b, |a| + j;
    assert all[k] == q[j];
    FindDistinct(all, k);
    WithoutBetween(a, q, b, j);
  }

  lemma FindDistinct(q: seq<OrderData>, k: nat)
    requires k < |q| && forall m, n :: 0 <= m < n < |q| ==> q[m].id != q[n].id
    ensures Find(q, q[k].id) == k
  {
    assert forall m :: 0 <= m < k ==> q[m].id != q[k].id;
  }

  lemma WithoutBetween(a: seq<OrderData>, q: seq<OrderData>, b: seq<OrderData>, j: nat)
    requires j < |q|
    ensures Without(a + q + b, |a| + j) == a + Without(q, j) + b
  {
    var all, k := a + q + b, |a| + j;
    assert all[..k] == a + q[..j];
    assert all[k + 1..] == q[j + 1..] + b;
  }

  lemma DropLevel(side: Side, vs: seq<LevelView>, i: nat)
    requires LevelsOk(side, vs) && i < |vs|
    ensures LevelsOk(side, vs[..i] + vs[i + 1..])
  {
    var vs' := vs[..i] + vs[i + 1..];
    assert forall k :: 0 <= k < |vs'| ==> vs'[k] == vs[if k < i then k else k + 1];
  }

  /** An empty level contributes nothing. */
  lemma CloseLevel(side: Side, vs: seq<LevelView>, i: nat)
    requires LevelsOk(side, vs) && i < |vs| && vs[i].orders == []
    ensures Flatten(vs[..i] + vs[i + 1..]) == Flatten(vs)
    ensures LevelsOk(side, vs[..i] + vs[i + 1..])
  {
    DropLevel(side, vs, i);
    assert Flatten(vs[..i] + vs[i + 1..]) == Flatten(vs) by {
      FlattenAroundEmpty(vs[..i], vs[i], vs[i + 1..]);
      assert vs == vs[..i] + [vs[i]] + vs[i + 1..];
    }
  }

  lemma FlattenAroundEmpty(a: seq<LevelView>, v: LevelView, b: seq<LevelView>)
    requires v.orders == []
    ensures Flatten(a + [v] + b) == Flatten(a + b)
  {
    FlattenSplit(a, v, b);
    FlattenConcat(a, b);
    assert Flatten(a) + v.orders == Flatten(a);
  }

  /** Filling the first order of the first level is filling the first of the queue. */
  lemma ReduceLevel(side: Side, vs: seq<LevelView>, n: Quantity)
    requires LevelsOk(side, vs) && vs != [] && vs[0].orders != []
    ensures var v := LevelView(vs[0].price, vs[0].total - n, Reduce(vs[0].orders, n));
            && Flatten(vs) != [] && Flatten(vs)[0] == vs[0].orders[0]
            && Flatten(vs[0 := v]) == Reduce(Flatten(vs), n)
            && LevelsOk(side, vs[0 := v])
  {
    var v := LevelView(vs[0].price, vs[0].total - n, Reduce(vs[0].orders, n));
    ReducedLevelOk(vs[0], n);
    UpdateLevel(side, vs, 0, v);
    assert Flatten(vs[..0]) == [];
    ReduceConcat(vs[0].orders, Flatten(vs[1..]), n);
  }

  lemma ReducedLevelOk(v: LevelView, n: Quantity)
    requires LevelOk(v) && v.orders != []
    ensures LevelOk(LevelView(v.price, v.total - n, Reduce(v.orders, n)))
  {
    SumReduce(v.orders, n, Everything);
  }

  lemma ReduceConcat(a: seq<OrderData>, b: seq<OrderData>, n: Quantity)
    requires a != []
    ensures Reduce(a + b, n) == Reduce(a, n) + b
  {
    var m := a[0].(remaining := a[0].remaining - n);
    SplitFirst(a, b, m);
    assert Reduce(a + b, n) == if a[0].remaining == n then a[1..] + b else [m] + (a[1..] + b);
    assert Reduce(a, n) == if a[0].remaining == n then a[1..] else [m] + a[1..];
  }

  lemma SplitFirst(a: seq<OrderData>, b: seq<OrderData>, m: OrderData)
    requires a != []
    ensures a + b != [] && (a + b)[0] == a[0] && (a + b)[1..] == a[1..] + b
    ensures [m] + (a[1..] + b) == [m] + a[1..] + b
  {
  }

  /** One fill, recognised from what it does to the first level, the tape and the events. */
  lemma TradeOnceInLevels(st: Flat, o: OrderData, vs: seq<LevelView>, n: Quantity, st': Flat, o': OrderData)
    requires LevelsOk(o.side.Opposite(), vs) && vs != [] && vs[0].orders != []
    requires OppositeQueue(st, o) == Flatten(vs)
    requires n == Min(o.remaining, vs[0].orders[0].remaining)
    requires var v := LevelView(vs[0].price, vs[0].total - n, Reduce(vs[0].orders, n));
             && OppositeQueue(st', o) == Flatten(vs[0 := v])
             && st'.events == st.events + [TradeEvent(TradeOf(o, vs[0].orders[0])),
                                           BookUpdate(o.side.Opposite(), v.price, v.total),
                                           MakerEvent(vs[0].orders[0], vs[0].orders[0].remaining - n)]
    requires st'.Of(o.side) == st.Of(o.side) && st'.nextId == st.nextId
    requires st'.trades == st.trades + [TradeOf(o, vs[0].orders[0])]
    requires o' == o.(remaining := o.remaining - n)
    ensures OppositeQueue(st, o) != [] && OppositeQueue(st, o)[0] == vs[0].orders[0]
    ensures (st', o') == TradeOnce(st, o)
  {
    var side := o.side.Opposite();
    var v := LevelView(vs[0].price, vs[0].total - n, Reduce(vs[0].orders, n));
    ReduceLevel(side, vs, n);
    DepthOfLevel(side, vs[0 := v], 0);
  }

  // ----- reach, from cached totals -----

  function Totals(vs: seq<LevelView>): Quantity {
    if vs == [] then 0 else vs[0].total + Totals(vs[1..])
  }

  lemma {:induction false} TotalsAppend(vs: seq<LevelView>, v: LevelView)
    ensures Totals(vs + [v]) == Totals(vs) + v.total
  {
    if vs == [] {
      assert (vs + [v])[1..] == [];
    } else {
      assert (vs + [v])[1..] == vs[1..] + [v];
      TotalsAppend(vs[1..], v);
    }
  }

  lemma {:induction false} SumAllSelected(q: seq<OrderData>, sel: Selector)
    requires forall i :: 0 <= i < |q| ==> Selects(sel, q[i])
    ensures Sum(q, sel) == Sum(q, Everything)
  {
    if q != [] {
      SumAllSelected(q[1..], sel);
    }
  }

  lemma {:induction false} TotalsAreSums(side: Side, vs: seq<LevelView>)
    requires LevelsOk(side, vs)
    ensures Totals(vs) == Sum(Flatten(vs), Everything)
  {
    if vs != [] {
      TotalsAreSums(side, vs[1..]);
      SumConcat(vs[0].orders, Flatten(vs[1..]), Everything);
    }
  }

  /** The totals of the first `n` levels, all accepted, against the reach of the order. */
  lemma ReachSplits(side: Side, vs: seq<LevelView>, n: nat, o: OrderData)
    requires LevelsOk(side, vs) && n <= |vs|
    requires forall i :: 0 <= i < n ==> Crosses(o.orderType, o.side, o.price, vs[i].price)
    ensures Sum(Flatten(vs), Reach(o)) == Totals(vs[..n]) + Sum(Flatten(vs[n..]), Reach(o))
    ensures forall k :: 0 <= k < |Flatten(vs[n..])| ==> Flatten(vs[n..])[k] in Flatten(vs)
  {
    assert vs == vs[..n] + vs[n..];
    FlattenConcat(vs[..n], vs[n..]);
    var a := Flatten(vs[..n]);
    SumConcat(a, Flatten(vs[n..]), Reach(o));
    forall k | 0 <= k < |a|
      ensures Selects(Reach(o), a[k])
    {
      var i, j := FlattenHas(vs[..n], k);
    }
    SumAllSelected(a, Reach(o));
    TotalsAreSums(side, vs[..n]);
  }

  /** If an order accepts the first `n` levels and refuses the next, the cached totals of the `n` are its reach. */
  lemma ReachIsTotals(side: Side, vs: seq<LevelView>, n: nat, o: OrderData)
    requires LevelsOk(side, vs) && n <= |vs| && side == o.side.Opposite()
    requires forall i :: 0 <= i < n ==> Crosses(o.orderType, o.side, o.price, vs[i].price)
    requires n < |vs| ==> !Crosses(o.orderType, o.side, o.price, vs[n].price)
    ensures Sum(Flatten(vs), Reach(o)) == Totals(vs[..n])
  {
    ReachSplits(side, vs, n, o);
    var b := Flatten(vs[n..]);
    forall k | 0 <= k < |b|
      ensures !Selects(Reach(o), b[k])
    {
      var i, j := FlattenHas(vs[n..], k);
    }
    SumNone(b, Reach(o));
  }

  /** The totals of a prefix never exceed the reach when it is accepted as far as it goes. */
  lemma ReachAtLeastTotals(side: Side, vs: seq<LevelView>, n: nat, o: OrderData)
    requires LevelsOk(side, vs) && n <= |vs|
    requires forall i :: 0 <= i < n ==> Crosses(o.orderType, o.side, o.price, vs[i].price)
    requires forall x :: x in Flatten(vs) ==> x.remaining > 0
    ensures Totals(vs[..n]) <= Sum(Flatten(vs), Reach(o))
  {
    ReachSplits(side, vs, n, o);
    SumBounds(Flatten(vs[n..]), Reach(o));
  }
}
