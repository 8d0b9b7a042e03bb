/**
 A flat book has one representation: queues determine levels, cached totals and index. So whatever restores the
 queues restores everything the engine keeps beside them.
 */
module Canonical {
  import opened BookTypes
  import opened FlatBook
  import opened LevelViews
  import opened LevelBooks
  import opened QueueLaws

  /** Behind the first level the price is another. */
  lemma BehindFirstLevel(side: Side, vs: seq<LevelView>)
    requires LevelsOk(side, vs) && NoneEmpty(vs) && vs != []
    ensures var q, a := Flatten(vs), vs[0].orders;
            && a != [] && a <= q && q[0].price == vs[0].price
            && (|q| > |a| ==> q[|a|].price != vs[0].price)
  {
    if |vs| > 1 {
      assert vs[1..][0] == vs[1] && NoneEmpty(vs[1..]);
      assert Flatten(vs)[|vs[0].orders|] == vs[1].orders[0];
      assert LevelOk(vs[1]) && Better(side, vs[0].price, vs[1].price);
    }
    assert LevelOk(vs[0]);
  }

  /** Neither of two first levels of one queue can end before the other. */
  lemma FirstLevelEnds(side: Side, vs: seq<LevelView>, ws: seq<LevelView>)
    requires LevelsOk(side, vs) && LevelsOk(side, ws) && NoneEmpty(vs) && NoneEmpty(ws)
    requires vs != [] && ws != [] && Flatten(vs) == Flatten(ws)
    ensures vs[0].price == ws[0].price && |vs[0].orders| >= |ws[0].orders|
  {
    var q, a, b := Flatten(vs), vs[0].orders, ws[0].orders;
    BehindFirstLevel(side, vs);
    BehindFirstLevel(side, ws);
    assert LevelOk(ws[0]) && forall i :: 0 <= i < |b| ==> q[i] == b[i];
  }

  lemma {:induction false} OneSetOfLevels(side: Side, vs: seq<LevelView>, ws: seq<LevelView>)
    requires LevelsOk(side, vs) && LevelsOk(side, ws) && NoneEmpty(vs) && NoneEmpty(ws)
    requires Flatten(vs) == Flatten(ws)
    ensures vs == ws
    decreases |vs|
  {
    if vs != [] && ws != [] {
      FirstLevelEnds(side, vs, ws);
      FirstLevelEnds(side, ws, vs);
      SameStart(vs[0].orders, Flatten(vs[1..]), ws[0].orders, Flatten(ws[1..]));
      assert LevelOk(vs[0]) && LevelOk(ws[0]) && vs[0] == ws[0];
      OneSetOfLevels(side, vs[1..], ws[1..]);
      assert vs == [vs[0]] + vs[1..] && ws == [ws[0]] + ws[1..];
    }
  }

  lemma SameStart(a: seq<OrderData>, x: seq<OrderData>, b: seq<OrderData>, y: seq<OrderData>)
    requires a + x == b + y && |a| == |b|
    ensures a == b && x == y
  {
    assert a == (a + x)[..|a|] && b == (b + y)[..|b|];
    assert x == (a + x)[|a|..] && y == (b + y)[|b|..];
  }

  lemma OneIndex(a: map<OrderId, OrderLocation>, b: map<OrderId, OrderLocation>, st: Flat)
    requires IndexOk(a, st) && IndexOk(b, st)
    ensures a == b
  {
    forall id | id in a || id in b
      ensures id in a && id in b && a[id] == b[id]
    {
      assert Rests(st, id);
      var q := if Holds(st.bids, id) then st.bids else st.asks;
      assert q[Find(q, id)].id == id;
    }
    assert a.Keys == b.Keys;
  }

  /** Two states of the engine with the same queues have the same levels, totals and index. */
  lemma OneRepresentation(s: LevelBook, s': LevelBook)
    requires Coherent(s) && Populated(s) && Coherent(s') && Populated(s')
    requires s.Flat().bids == s'.Flat().bids && s.Flat().asks == s'.Flat().asks
    ensures s.bids == s'.bids && s.asks == s'.asks && s.lookUp == s'.lookUp
  {
    OneSetOfLevels(Buy, s.bids, s'.bids);
    OneSetOfLevels(Sell, s.asks, s'.asks);
    assert IndexOk(s'.lookUp, s.Flat());
    OneIndex(s.lookUp, s'.lookUp, s.Flat());
  }

  /** Adding an order that meets nobody and cancelling it restores levels, totals, index and tape. */
  lemma AddThenCancelRestoresEverything(s: LevelBook, s': LevelBook, msg: Message, conn: int, seqNo: nat)
    requires Coherent(s) && Populated(s) && Coherent(s') && Populated(s')
    requires msg.AddOrder? && msg.orderType.Limit? && msg.tif.GoodTillCancel? && Accepts(s.Flat(), msg)
    requires Available(s.Flat(), OrderOf(msg, s.nextId)) == 0
    requires s'.Flat() == Process(Process(s.Flat(), msg), CancelOrder(s.nextId, conn, seqNo))
    ensures s'.bids == s.bids && s'.asks == s.asks && s'.lookUp == s.lookUp && s'.trades == s.trades
    ensures s'.nextId == s.nextId + 1
  {
    AddThenCancelRestores(s.Flat(), msg, conn, seqNo);
    OneRepresentation(s, s');
  }
}
