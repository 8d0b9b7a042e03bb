/**
 The message queue as an object: the ring of 128 slots between the parser's thread and the engine's, and the
 counter that numbers messages. The engine takes messages whenever it likes, in particular between any two
 offers of the parser.
 */
module MessageSinks {
  import opened BitMask
  import opened Wire
  import opened RingBuffers
  import opened MessageQueues

  function Stamp(messages: seq<WireMessage>, conn: int, first: nat): (r: seq<Stamped>)
    ensures |r| == |messages|
  {
    if messages == [] then [] else [Stamped(messages[0], conn, first)] + Stamp(messages[1..], conn, first + 1)
  }

  lemma {:induction false} StampConcat(a: seq<WireMessage>, b: seq<WireMessage>, conn: int, first: nat)
    ensures Stamp(a + b, conn, first) == Stamp(a, conn, first) + Stamp(b, conn, first + |a|)
  {
    if a == [] {
      assert a + b == b;
    } else {
      assert (a + b)[1..] == a[1..] + b;
      StampConcat(a[1..], b, conn, first + 1);
    }
  }

  /** The messages in order, each with the connection and the next number. */
  lemma {:induction false} StampAt(messages: seq<WireMessage>, conn: int, first: nat)
    ensures forall i :: 0 <= i < |messages| ==>
      Stamp(messages, conn, first)[i] == Stamped(messages[i], conn, first + i)
  {
    if messages != [] {
      StampAt(messages[1..], conn, first + 1);
    }
  }

  /** From one log to a later one, only the engine acted. */
  ghost predicate OnlyTakes(before: seq<QueueEvent>, after: seq<QueueEvent>) {
    before <= after && forall i :: |before| <= i < |after| ==> after[i].Remove?
  }

  /** The oldest item pending was taken, or nothing happened. */
  ghost predicate Moved(taken: seq<Stamped>, pending: seq<Stamped>, got: bool,
                        taken': seq<Stamped>, pending': seq<Stamped>) {
    if got then pending != [] && taken' == taken + [pending[0]] && pending' == pending[1..]
    else taken' == taken && pending' == pending
  }

  class MessageSink {
    const ring: RingBuffer<Stamped>
    var nextSeq: nat
    /** What the engine's thread has taken, in order. */
    var taken: seq<Stamped>
    /** All that ever happened to the queue, and all that was ever offered to it. */
    ghost var log: seq<QueueEvent>
    ghost var offered: seq<Stamped>

    /**
     The ring holds what the log says is pending, and a permit for every item; the engine has what the log says was
     taken; sequence numbers are handed out without gaps, in the order of the offers.
     */
    ghost predicate Valid()
      reads this, ring, ring.buffer
    {
      && ring.Valid() && ring.capacity == 128
      && ring.Items() == Played(log).pending && taken == Played(log).taken && offered == Played(log).offered
      && ring.itemAvailable >= |ring.Items()| && Numbered()
    }

    ghost predicate Numbered()
      reads this
    {
      nextSeq == |offered| + 1 && forall i :: 0 <= i < |offered| ==> offered[i].seqNo == i + 1
    }

    constructor ()
      ensures Valid() && offered == [] && log == [] && nextSeq == 1
      ensures fresh(ring) && fresh(ring.buffer)
    {
      assert MaskOk(RING_BUFFER_SIZE) by {
        Pow2IsMaskOk(7);
        assert Pow2(4) == 16;
      }
      nextSeq, taken, log, offered := 1, [], [], [];
      ring := new RingBuffer(RING_BUFFER_SIZE, Stamped(WireCancelOrder(0), 0, 0));
    }

    /** The engine tries to take one message, waiting for a permit or not. */
    method Take(waits: bool, gaveUp: bool) returns (got: bool)
      requires Valid()
      modifies this`taken, this`log, ring`tail, ring`itemAvailable
      ensures Valid() && offered == old(offered)
      ensures OnlyTakes(old(log), log)
      ensures Moved(old(taken), old(ring.Items()), got, taken, ring.Items())
      ensures !(waits && gaveUp) ==> got == (old(ring.Items()) != [])
    {
      var blank := Stamped(WireCancelOrder(0), 0, 0);
      var item;
      if waits {
        got, item := ring.WaitPop(blank, gaveUp);
      } else {
        got, item := ring.Pop(blank);
      }
      if got {
        PlayedOn(log, Remove);
        taken := taken + [item];
        log := log + [Remove];
      }
    }

    /** The engine's thread runs for a while. */
    method EngineRuns()
      requires Valid()
      modifies this`taken, this`log, ring`tail, ring`itemAvailable
      ensures Valid() && offered == old(offered) && OnlyTakes(old(log), log)
    {
      var rounds: nat :| rounds >= 0;
      for i := 0 to rounds
        invariant Valid() && offered == old(offered) && OnlyTakes(old(log), log)
      {
        var waits: bool, gaveUp: bool := *, *;
        var got := Take(waits, gaveUp);
      }
    }

    /** Push without looking at the result: with 127 messages waiting, the message is gone. */
    method PushAnyway(item: Stamped)
      requires Valid() && item.seqNo == |offered| + 1
      modifies this`nextSeq, this`log, this`offered, ring`head, ring`itemAvailable, ring.buffer
      ensures Valid() && offered == old(offered) + [item] && log == old(log) + [Offer(item)]
    {
      PlayedOn(log, Offer(item));
      var ok := ring.Push(item);
      offered, log, nextSeq := offered + [item], log + [Offer(item)], nextSeq + 1;
    }

    /** Number a message, name its connection, offer it to the queue. */
    method StampAndPush(m: WireMessage, conn: int)
      requires Valid()
      modifies this, ring, ring.buffer
      ensures Valid() && offered == old(offered) + Stamp([m], conn, old(nextSeq))
      ensures old(log) <= log
    {
      EngineRuns();
      assert Stamp([m][1..], conn, nextSeq + 1) == [];
      PushAnyway(Stamped(m, conn, nextSeq));
    }
  }
}
