/** From a client's bytes to the book: the parser and the engine together. */
module Pipeline {
  import opened BookTypes
  import opened FlatBook
  import opened BookInvariant
  import opened Wire
  import opened Decoder
  import opened MessageQueues
  import opened MessageSinks
  import opened ConnectionProgress
  import opened ConnectionPace
  import opened Delivery
  import opened Clients
  import opened OrderBooks
  import opened MessageConsumer

  predicate AllSendable(msgs: seq<Message>) {
    forall i :: 0 <= i < |msgs| ==> Sendable(msgs[i])
  }

  function AllToWire(msgs: seq<Message>): (ws: seq<WireMessage>)
    requires AllSendable(msgs)
    ensures |ws| == |msgs|
  {
    if msgs == [] then [] else [ToWire(msgs[0])] + AllToWire(msgs[1..])
  }

  /** The messages as the receiving side will know them. */
  function Arrived(msgs: seq<Message>, conn: int, first: nat): seq<Message> {
    if msgs == [] then [] else [msgs[0].(conn := conn, seqNo := first)] + Arrived(msgs[1..], conn, first + 1)
  }

  /** Well-formed messages reach the engine as they were sent, stamped. */
  lemma {:induction false} SentIsArrived(msgs: seq<Message>, conn: int, first: nat)
    requires AllSendable(msgs)
    ensures AllWellFormed(Stamp(AllToWire(msgs), conn, first))
    ensures ForEngine(Stamp(AllToWire(msgs), conn, first)) == Arrived(msgs, conn, first)
    ensures |Arrived(msgs, conn, first)| == |msgs|
    ensures forall i :: 0 <= i < |msgs| ==>
      Arrived(msgs, conn, first)[i] == msgs[i].(conn := conn, seqNo := first + i)
  {
    if msgs != [] {
      var ws := AllToWire(msgs);
      var stamped := Stamp(ws, conn, first);
      SentIsArrived(msgs[1..], conn, first + 1);
      WireRoundTrip(msgs[0], ws[0], conn, first);
      assert ws[1..] == AllToWire(msgs[1..]);
      assert stamped == [Stamped(ws[0], conn, first)] + Stamp(ws[1..], conn, first + 1);
      assert stamped[1..] == Stamp(AllToWire(msgs[1..]), conn, first + 1);
    }
  }

  /** The bytes that mean a message make the engine process this message, whatever follows them. */
  lemma BytesReachTheEngine(msg: Message, bs: seq<Byte>, more: seq<Byte>, conn: int, seqNo: nat)
    requires Sendable(msg) && SentAs(msg, bs)
    ensures var d := Decode(AwaitingHeader, bs + more);
            && d.messages != [] && WellFormed(d.messages[0])
            && MessageOf(Stamped(d.messages[0], conn, seqNo)) == msg.(conn := conn, seqNo := seqNo)
  {
    var w := ToWire(msg);
    SentIsFrame(msg, bs);
    AnnouncedLengthIsIgnored(w, StructSize(TypeOf(w)), more);
    WireRoundTrip(msg, w, conn, seqNo);
  }

  // ----- messages the engine accepts, whichever of them are lost -----

  /** The engine throws for none of the messages, whichever of them do not reach it. */
  ghost predicate AcceptedHoweverThinned(msgs: seq<Message>) {
    forall kept: seq<Message> :: Thinned(kept, msgs) ==> AcceptsAll(EMPTY, kept)
  }

  /** Acceptable whatever the book: a positive quantity, and a positive price where a remainder may rest. */
  predicate NeverThrows(msg: Message) {
    match msg
    case AddOrder(orderType, tif, _, price, quantity, _, _, _) =>
      quantity > 0 && (orderType.Limit? && tif.GoodTillCancel? ==> price > 0)
    case CancelOrder(_, _, _) => true
    case ModifyOrder(_, price, quantity, _, _) => quantity > 0 && price > 0
  }

  lemma {:induction false} AllAccepted(kept: seq<Message>, msgs: seq<Message>)
    requires Thinned(kept, msgs) && forall i :: 0 <= i < |msgs| ==> NeverThrows(msgs[i])
    ensures AcceptsAll(EMPTY, kept)
    decreases |msgs|
  {
    if msgs != [] {
      var n := |msgs| - 1;
      if Thinned(kept, msgs[..n]) {
        AllAccepted(kept, msgs[..n]);
      } else {
        var before := kept[..|kept| - 1];
        AllAccepted(before, msgs[..n]);
        assert NeverThrows(msgs[n]) && kept == before + [msgs[n]];
        RunAndOne(EMPTY, before, msgs[n]);
      }
    }
  }

  /** Messages acceptable whatever the book are accepted whichever of them are lost. */
  lemma NeverThrowsIsEnough(msgs: seq<Message>)
    requires forall i :: 0 <= i < |msgs| ==> NeverThrows(msgs[i])
    ensures AcceptedHoweverThinned(msgs)
  {
    forall kept: seq<Message> | Thinned(kept, msgs)
      ensures AcceptsAll(EMPTY, kept)
    {
      AllAccepted(kept, msgs);
    }
  }

  lemma {:induction false} ThinnedForEngine(kept: seq<Stamped>, all: seq<Stamped>)
    requires Thinned(kept, all) && AllWellFormed(all)
    ensures AllWellFormed(kept) && Thinned(ForEngine(kept), ForEngine(all))
    decreases |all|
  {
    if all != [] {
      var n := |all| - 1;
      assert all == all[..n] + [all[n]];
      ForEngineAndOne(all[..n], all[n]);
      if Thinned(kept, all[..n]) {
        ThinnedForEngine(kept, all[..n]);
        ThinnedAndOne(ForEngine(kept), ForEngine(all[..n]), MessageOf(all[n]));
      } else {
        var k := |kept| - 1;
        ThinnedForEngine(kept[..k], all[..n]);
        KeptForEngine(kept[..k], kept[k], all[..n]);
        assert kept == kept[..k] + [kept[k]];
      }
    }
  }

  lemma KeptForEngine(kept: seq<Stamped>, item: Stamped, all: seq<Stamped>)
    requires AllWellFormed(kept) && AllWellFormed(all) && WellFormed(item.message)
    requires Thinned(ForEngine(kept), ForEngine(all))
    ensures AllWellFormed(kept + [item]) && AllWellFormed(all + [item])
    ensures Thinned(ForEngine(kept + [item]), ForEngine(all + [item]))
  {
    ForEngineAndOne(kept, item);
    ForEngineAndOne(all, item);
    ThinnedAndOne(ForEngine(kept), ForEngine(all), MessageOf(item));
  }

  // ----- from the wire to the book -----

  lemma {:induction false} StampPrefix(a: seq<WireMessage>, b: seq<WireMessage>, conn: int, first: nat)
    requires a <= b
    ensures Stamp(a, conn, first) <= Stamp(b, conn, first)
    ensures Stamp(a, conn, first) == Stamp(b, conn, first) <==> a == b
  {
    assert b == a + b[|a|..];
    StampConcat(a, b[|a|..], conn, first);
  }

  /**
   What the engine gets of `sent` when `delivered` of it was offered to the queue: what was offered with room, and
   all that was sent if and only if all was delivered and there always was room.
   */
  lemma WhatTheEngineGets(sent: seq<WireMessage>, delivered: seq<WireMessage>, conn: int, log: seq<QueueEvent>)
    requires delivered <= sent && Offers(log) == Stamp(delivered, conn, 1)
    ensures OffersWithRoom(log) == Stamp(sent, conn, 1) <==> delivered == sent && AlwaysRoom(log)
    ensures Thinned(OffersWithRoom(log), Stamp(sent, conn, 1))
  {
    NothingLostExactly(log);
    StampPrefix(delivered, sent, conn, 1);
    GotIsThinned(log);
    ThinnedOfMore(OffersWithRoom(log), Offers(log), Stamp(sent, conn, 1));
  }

  /** The queue when the parser has made its last offer, the engine having taken messages all the while. */
  method CarryOverTheWire(fd: int, arrivals: seq<seq<Byte>>, ghost sent: seq<WireMessage>)
    returns (sink: MessageSink, ghost n: nat)
    requires Connections.Concat(arrivals) == Stream(sent) && AllReady(Connections.Start([]), arrivals)
    ensures sink.Valid() && Finishes(arrivals, n)
    ensures fresh(sink) && fresh(sink.ring) && fresh(sink.ring.buffer)
    ensures var delivered := Connections.Run(Connections.Start([]), arrivals + Idle(n)).delivered;
            && sink.offered == Stamp(delivered, fd, 1)
            && delivered <= sent && (delivered == sent <==> KeepsPace(arrivals + Idle(n)))
  {
    sink := new MessageSink();
    n := ServeStream(fd, arrivals, sink, sent);
  }

  /** The log of a queue decides what the engine has, and will have, of what was sent. */
  lemma EngineGets(sink: MessageSink, sent: seq<WireMessage>, delivered: seq<WireMessage>, conn: int)
    requires sink.Valid() && sink.offered == Stamp(delivered, conn, 1) && delivered <= sent
    ensures sink.taken + sink.ring.Items() == OffersWithRoom(sink.log)
    ensures Thinned(sink.taken + sink.ring.Items(), Stamp(sent, conn, 1))
    ensures OffersWithRoom(sink.log) == Stamp(sent, conn, 1) <==> delivered == sent && AlwaysRoom(sink.log)
  {
    EngineGetsOffersWithRoom(sink.log);
    WhatTheEngineGets(sent, delivered, conn, sink.log);
  }

  /** The engine accepts what it has taken, and then what is pending. */
  ghost predicate Acceptable(taken: seq<Stamped>, pending: seq<Stamped>) {
    && AllWellFormed(taken) && AllWellFormed(pending)
    && AcceptsAll(EMPTY, ForEngine(taken)) && AcceptsAll(Run(EMPTY, ForEngine(taken)), ForEngine(pending))
  }

  lemma ThinnedIsAcceptable(taken: seq<Stamped>, pending: seq<Stamped>, all: seq<Stamped>)
    requires Thinned(taken + pending, all) && AllWellFormed(all) && AcceptedHoweverThinned(ForEngine(all))
    ensures Acceptable(taken, pending)
  {
    ThinnedForEngine(taken + pending, all);
    AcceptableInTwo(taken, pending);
  }

  lemma {:induction false} AcceptableInTwo(taken: seq<Stamped>, pending: seq<Stamped>)
    requires AllWellFormed(taken + pending) && AcceptsAll(EMPTY, ForEngine(taken + pending))
    ensures Acceptable(taken, pending)
    decreases |pending|
  {
    if pending == [] {
      assert taken + pending == taken;
    } else {
      var item, rest := pending[0], pending[1..];
      assert taken + pending == (taken + [item]) + rest;
      AcceptableInTwo(taken + [item], rest);
      OneBack(taken, item, rest);
    }
  }

  lemma OneBack(taken: seq<Stamped>, item: Stamped, rest: seq<Stamped>)
    requires Acceptable(taken + [item], rest)
    ensures Acceptable(taken, [item] + rest)
  {
    var now := taken + [item];
    assert now[|taken|] == item && forall i :: 0 <= i < |taken| ==> now[i] == taken[i];
    ForEngineAndOne(taken, item);
    RunAndOne(EMPTY, ForEngine(taken), MessageOf(item));
    assert ([item] + rest)[1..] == rest;
    assert ForEngine([item] + rest) == [MessageOf(item)] + ForEngine(rest);
  }

  /**
   A client's orders, serialised, cut into any pieces, received by the wakeups the reactor makes, parsed, offered to
   the ring of 128 slots and taken from it by the engine whenever it runs. The book is that of the specification's
   run over the messages that found room in the ring. The engine gets everything that was sent if and only if the
   receptions keep pace and there is room at every offer.
   */
  method TradeOverTheWire(fd: int, arrivals: seq<seq<Byte>>, blockMode: bool, ghost msgs: seq<Message>)
    returns (book: OrderBook, sink: MessageSink, ghost n: nat)
    requires AllSendable(msgs) && AcceptedHoweverThinned(Arrived(msgs, fd, 1))
    requires Connections.Concat(arrivals) == Stream(AllToWire(msgs)) && AllReady(Connections.Start([]), arrivals)
    ensures book.Valid() && sink.Valid() && Finishes(arrivals, n)
    ensures AllWellFormed(OffersWithRoom(sink.log)) && book.Abs() == Run(EMPTY, ForEngine(OffersWithRoom(sink.log)))
    ensures OffersWithRoom(sink.log) == Stamp(AllToWire(msgs), fd, 1) <==>
            KeepsPace(arrivals + Idle(n)) && AlwaysRoom(sink.log)
    ensures KeepsPace(arrivals + Idle(n)) && AlwaysRoom(sink.log) ==>
            book.Abs() == Run(EMPTY, Arrived(msgs, fd, 1))
  {
    ghost var sent := AllToWire(msgs);
    sink, n := CarryOverTheWire(fd, arrivals, sent);
    ghost var delivered := Connections.Run(Connections.Start([]), arrivals + Idle(n)).delivered;
    SentIsArrived(msgs, fd, 1);
    EngineGets(sink, sent, delivered, fd);
    book := TradeToTheEnd(sink, blockMode, Stamp(sent, fd, 1));
    EngineGets(sink, sent, delivered, fd);
    assert sink.taken + [] == sink.taken;
  }

  /** The engine has processed what it took so far, and goes on until the queue is empty. */
  method TradeToTheEnd(sink: MessageSink, blockMode: bool, ghost all: seq<Stamped>) returns (book: OrderBook)
    requires sink.Valid() && Thinned(sink.taken + sink.ring.Items(), all)
    requires AllWellFormed(all) && AcceptedHoweverThinned(ForEngine(all))
    modifies sink`taken, sink`log, sink.ring`tail, sink.ring`itemAvailable
    ensures book.Valid() && sink.Valid() && sink.ring.Items() == [] && sink.offered == old(sink.offered)
    ensures AllWellFormed(sink.taken) && book.Abs() == Run(EMPTY, ForEngine(sink.taken))
  {
    ThinnedIsAcceptable(sink.taken, sink.ring.Items(), all);
    book := Trade(sink.taken, sink.ring.Items());
    ConsumeMessages(book, sink, blockMode);
  }

  /** What the engine has taken by then, it has processed, in order. */
  method Trade(taken: seq<Stamped>, ghost pending: seq<Stamped>) returns (book: OrderBook)
    requires Acceptable(taken, pending)
    ensures book.Valid() && fresh(book) && fresh(book.Repr) && InStep(book.Abs(), taken, pending)
  {
    book := new OrderBook();
    book.ProcessAll(ForEngine(taken));
  }
}
