/**
 The queue between the parser and the engine, as the parser uses it: a bounded ring whose refusals nobody looks
 at. A log of offers and takes, in any interleaving of the two threads, decides what the engine gets.
 */
module MessageQueues {
  import opened BookTypes
  import opened Wire

  /** A message as the engine's queue is offered it. */
  datatype Stamped = Stamped(message: WireMessage, conn: int, seqNo: nat)

  const RING_BUFFER_SIZE: nat := 128
  /** One slot of the ring stays free. */
  const ROOM: nat := 127

  datatype QueueEvent = Offer(item: Stamped) | Remove

  datatype Queue = Queue(
    pending: seq<Stamped>,
    offered: seq<Stamped>,
    accepted: seq<Stamped>,
    taken: seq<Stamped>)

  function Play(q: Queue, e: QueueEvent): Queue {
    match e
    case Offer(item) =>
      var q1 := q.(offered := q.offered + [item]);
      if |q.pending| < ROOM then q1.(pending := q.pending + [item], accepted := q.accepted + [item]) else q1
    case Remove =>
      if q.pending == [] then q else q.(pending := q.pending[1..], taken := q.taken + [q.pending[0]])
  }

  function Played(log: seq<QueueEvent>): Queue {
    if log == [] then Queue([], [], [], [])
    else Play(Played(log[..|log| - 1]), log[|log| - 1])
  }

  lemma PlayedOn(log: seq<QueueEvent>, e: QueueEvent)
    ensures Played(log + [e]) == Play(Played(log), e)
  {
    assert (log + [e])[..|log|] == log;
  }

  /** How many items wait after the log, counted without looking at them. */
  function Waiting(log: seq<QueueEvent>): nat {
    if log == [] then 0
    else
      var w := Waiting(log[..|log| - 1]);
      if log[|log| - 1].Offer? then Min(w + 1, 127) else if w == 0 then 0 else w - 1
  }

  /** The offers made while fewer than 127 items waited. */
  function OffersWithRoom(log: seq<QueueEvent>): seq<Stamped> {
    if log == [] then []
    else
      var before, e := log[..|log| - 1], log[|log| - 1];
      OffersWithRoom(before) + if e.Offer? && Waiting(before) < 127 then [e.item] else []
  }

  function Offers(log: seq<QueueEvent>): seq<Stamped> {
    if log == [] then []
    else
      var e := log[|log| - 1];
      Offers(log[..|log| - 1]) + if e.Offer? then [e.item] else []
  }

  /** The engine gets, or will get, exactly the offers made with room, in their order. */
  lemma {:induction false} EngineGetsOffersWithRoom(log: seq<QueueEvent>)
    ensures var q := Played(log);
            && |q.pending| == Waiting(log) <= 127
            && q.offered == Offers(log)
            && q.taken + q.pending == q.accepted == OffersWithRoom(log)
  {
    if log != [] {
      EngineGetsOffersWithRoom(log[..|log| - 1]);
    }
  }

  /** `kept` is `all` with some of it missing, the rest in order. */
  predicate Thinned<T(==)>(kept: seq<T>, all: seq<T>)
    decreases |all|
  {
    if all == [] then kept == []
    else
      var n := |all| - 1;
      || Thinned(kept, all[..n])
      || (kept != [] && kept[|kept| - 1] == all[n] && Thinned(kept[..|kept| - 1], all[..n]))
  }

  /** What the engine gets is what was offered, with some of it missing. */
  lemma {:induction false} GotIsThinned(log: seq<QueueEvent>)
    ensures Thinned(OffersWithRoom(log), Offers(log))
  {
    if log != [] {
      var before, e := log[..|log| - 1], log[|log| - 1];
      GotIsThinned(before);
      if e.Offer? {
        ThinnedAndOne(OffersWithRoom(before), Offers(before), e.item);
      } else {
        assert OffersWithRoom(log) == OffersWithRoom(before) && Offers(log) == Offers(before);
      }
    }
  }

  lemma ThinnedAndOne<T>(kept: seq<T>, all: seq<T>, item: T)
    requires Thinned(kept, all)
    ensures Thinned(kept, all + [item]) && Thinned(kept + [item], all + [item])
    ensures Thinned(kept + [], all + [item])
  {
    assert (all + [item])[..|all|] == all && (kept + [item])[..|kept|] == kept;
    assert kept + [] == kept;
  }

  /** What is missing may be missing at the end. */
  lemma {:induction false} ThinnedOfMore<T>(kept: seq<T>, all: seq<T>, more: seq<T>)
    requires Thinned(kept, all) && all <= more
    ensures Thinned(kept, more)
    decreases |more|
  {
    if |all| < |more| {
      ThinnedOfMore(kept, all, more[..|more| - 1]);
    } else {
      assert all == more;
    }
  }

  predicate RoomAt(log: seq<QueueEvent>, k: nat)
    requires k < |log|
  {
    log[k].Offer? ==> Waiting(log[..k]) < 127
  }

  predicate AlwaysRoom(log: seq<QueueEvent>) {
    forall k :: 0 <= k < |log| ==> RoomAt(log, k)
  }

  lemma AlwaysRoomBefore(log: seq<QueueEvent>)
    requires log != []
    ensures AlwaysRoom(log) <==> AlwaysRoom(log[..|log| - 1]) && RoomAt(log, |log| - 1)
  {
    var before := log[..|log| - 1];
    assert forall k :: 0 <= k < |before| ==> before[..k] == log[..k];
    assert forall k :: 0 <= k < |before| ==> RoomAt(before, k) == RoomAt(log, k);
  }

  /** Nothing offered is lost if and only if there was room at every offer. */
  lemma {:induction false} NothingLostExactly(log: seq<QueueEvent>)
    ensures |OffersWithRoom(log)| <= |Offers(log)|
    ensures OffersWithRoom(log) == Offers(log) <==> AlwaysRoom(log)
  {
    if log != [] {
      var before, e := log[..|log| - 1], log[|log| - 1];
      NothingLostExactly(before);
      AlwaysRoomBefore(log);
      if RoomAt(log, |log| - 1) {
        if e.Offer? {
          SameEnd(OffersWithRoom(before), Offers(before), e.item);
        } else {
          assert OffersWithRoom(log) == OffersWithRoom(before) && Offers(log) == Offers(before);
        }
      } else {
        assert |OffersWithRoom(log)| == |OffersWithRoom(before)| < |Offers(log)|;
      }
    }
  }

  lemma SameEnd(a: seq<Stamped>, b: seq<Stamped>, item: Stamped)
    ensures a + [item] == b + [item] <==> a == b
  {
    if a + [item] == b + [item] {
      assert |a| == |b|;
      assert a == (a + [item])[..|a|] && b == (b + [item])[..|b|];
    }
  }

  function OffersOf(items: seq<Stamped>): seq<QueueEvent> {
    seq(|items|, i requires 0 <= i < |items| => Offer(items[i]))
  }

  /** A burst that the engine takes nothing from loses everything beyond the first 127. */
  lemma {:induction false} BurstLosesTheRest(items: seq<Stamped>)
    ensures Waiting(OffersOf(items)) == Min(|items|, 127)
    ensures OffersWithRoom(OffersOf(items)) == items[..Min(|items|, 127)]
    ensures Offers(OffersOf(items)) == items
  {
    if items != [] {
      var n := |items| - 1;
      BurstLosesTheRest(items[..n]);
      assert OffersOf(items)[..n] == OffersOf(items[..n]);
      assert items[..n] + [items[n]] == items;
      if n < 127 {
        assert items[..n][..n] == items[..n];
      } else {
        assert items[..n][..127] == items[..127];
      }
    }
  }
}
