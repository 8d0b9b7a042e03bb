/** The engine's thread: it takes messages out of the queue, one at a time, and has the book process each. */
module MessageConsumer {
  import opened BookTypes
  import opened FlatBook
  import opened BookInvariant
  import opened Wire
  import opened MessageQueues
  import opened MessageSinks
  import opened OrderBooks

  predicate AllWellFormed(offered: seq<Stamped>) {
    forall i :: 0 <= i < |offered| ==> WellFormed(offered[i].message)
  }

  /** What the engine takes out of the queue. */
  function ForEngine(offered: seq<Stamped>): (msgs: seq<Message>)
    requires AllWellFormed(offered)
    ensures |msgs| == |offered|
    ensures forall i :: 0 <= i < |offered| ==>
      msgs[i] == FromWire(offered[i].message, offered[i].conn, offered[i].seqNo)
  {
    if offered == [] then []
    else [FromWire(offered[0].message, offered[0].conn, offered[0].seqNo)] + ForEngine(offered[1..])
  }

  // ----- one message after the other -----

  function MessageOf(item: Stamped): Message
    requires WellFormed(item.message)
  {
    FromWire(item.message, item.conn, item.seqNo)
  }

  lemma {:induction false} ForEngineAndOne(taken: seq<Stamped>, item: Stamped)
    requires AllWellFormed(taken) && WellFormed(item.message)
    ensures AllWellFormed(taken + [item])
    ensures ForEngine(taken + [item]) == ForEngine(taken) + [MessageOf(item)]
  {
    if taken != [] {
      ForEngineAndOne(taken[1..], item);
      assert (taken + [item])[1..] == taken[1..] + [item];
    } else {
      assert (taken + [item])[1..] == [];
    }
  }

  /** The book is where the messages taken lead, and from there the engine accepts what is pending. */
  ghost predicate InStep(book: Flat, taken: seq<Stamped>, pending: seq<Stamped>) {
    && AllWellFormed(taken) && AllWellFormed(pending)
    && book == Run(EMPTY, ForEngine(taken)) && AcceptsAll(book, ForEngine(pending))
  }

  lemma TakenNext(book: Flat, taken: seq<Stamped>, pending: seq<Stamped>)
    requires InStep(book, taken, pending) && pending != []
    ensures WellFormed(pending[0].message) && Accepts(book, MessageOf(pending[0]))
    ensures InStep(Process(book, MessageOf(pending[0])), taken + [pending[0]], pending[1..])
  {
    ForEngineAndOne(taken, pending[0]);
    RunAndOne(EMPTY, ForEngine(taken), MessageOf(pending[0]));
    assert ForEngine(pending)[1..] == ForEngine(pending[1..]);
  }

  // ----- the loop -----

  /** The queue: what was taken out of it, what is pending, and a log that had only takes since it was `log`. */
  ghost predicate QueueIs(sink: MessageSink, taken: seq<Stamped>, pending: seq<Stamped>, offered: seq<Stamped>,
                          log: seq<QueueEvent>)
    reads sink, sink.ring, sink.ring.buffer
  {
    && sink.Valid() && sink.taken == taken && sink.ring.Items() == pending && sink.offered == offered
    && OnlyTakes(log, sink.log)
  }

  /** The same, and the book in step with it. */
  ghost predicate Consuming(book: OrderBook, sink: MessageSink, taken: seq<Stamped>, pending: seq<Stamped>,
                            offered: seq<Stamped>, log: seq<QueueEvent>)
    reads book, book.Repr, sink, sink.ring, sink.ring.buffer
  {
    book.Valid() && InStep(book.Abs(), taken, pending) && QueueIs(sink, taken, pending, offered, log)
  }

  /** The oldest pending message was taken, and the book has not processed it yet. */
  ghost predicate Fetched(book: OrderBook, sink: MessageSink, taken: seq<Stamped>, pending: seq<Stamped>,
                          offered: seq<Stamped>, log: seq<QueueEvent>)
    reads book, book.Repr, sink, sink.ring, sink.ring.buffer
  {
    && book.Valid() && InStep(book.Abs(), taken, pending)
    && pending != [] && QueueIs(sink, taken + [pending[0]], pending[1..], offered, log)
  }

  method Fetch(book: OrderBook, sink: MessageSink, blockMode: bool, gaveUp: bool, ghost taken: seq<Stamped>,
               ghost pending: seq<Stamped>, ghost offered: seq<Stamped>, ghost log: seq<QueueEvent>)
    returns (got: bool, item: Stamped)
    requires Consuming(book, sink, taken, pending, offered, log)
    modifies sink`taken, sink`log, sink.ring`tail, sink.ring`itemAvailable
    ensures got ==> Fetched(book, sink, taken, pending, offered, log) && item == pending[0]
    ensures !got ==> Consuming(book, sink, taken, pending, offered, log)
    ensures !(blockMode && gaveUp) ==> got == (pending != [])
  {
    got := sink.Take(blockMode, gaveUp);
    item := if got then sink.taken[|sink.taken| - 1] else Stamped(WireCancelOrder(0), 0, 0);
  }

  method ProcessFetched(book: OrderBook, sink: MessageSink, item: Stamped, ghost taken: seq<Stamped>,
                        ghost pending: seq<Stamped>, ghost offered: seq<Stamped>, ghost log: seq<QueueEvent>)
    requires Fetched(book, sink, taken, pending, offered, log) && item == pending[0]
    modifies book, book.Repr
    ensures book.GrownByFresh() && Consuming(book, sink, taken + [item], pending[1..], offered, log)
  {
    TakenNext(book.Abs(), taken, pending);
    book.ProcessMessage(MessageOf(item));
  }

  /** One round of the engine's loop: try to take a message, and process what was taken. */
  method ConsumeOne(book: OrderBook, sink: MessageSink, blockMode: bool, gaveUp: bool, ghost taken: seq<Stamped>,
                    ghost pending: seq<Stamped>, ghost offered: seq<Stamped>, ghost log: seq<QueueEvent>)
    returns (got: bool, ghost taken': seq<Stamped>, ghost pending': seq<Stamped>)
    requires Consuming(book, sink, taken, pending, offered, log)
    modifies book, book.Repr, sink`taken, sink`log, sink.ring`tail, sink.ring`itemAvailable
    ensures book.GrownByFresh() && Consuming(book, sink, taken', pending', offered, log)
    ensures Moved(taken, pending, got, taken', pending')
    ensures !(blockMode && gaveUp) ==> got == (pending != [])
  {
    var item;
    got, item := Fetch(book, sink, blockMode, gaveUp, taken, pending, offered, log);
    taken', pending' := taken, pending;
    if got {
      taken', pending' := taken + [item], pending[1..];
      ProcessFetched(book, sink, item, taken, pending, offered, log);
    }
  }

  /** What is left to do after a round. */
  ghost predicate Onward(taken: seq<Stamped>, pending: seq<Stamped>, gaveUp: bool,
                         taken': seq<Stamped>, pending': seq<Stamped>) {
    && taken' + pending' == taken + pending && |pending'| <= |pending|
    && (!gaveUp && pending != [] ==> |pending'| < |pending|)
  }

  lemma MovedOnward(taken: seq<Stamped>, pending: seq<Stamped>, got: bool, gaveUp: bool,
                    taken': seq<Stamped>, pending': seq<Stamped>)
    requires Moved(taken, pending, got, taken', pending') && (!gaveUp ==> got == (pending != []))
    ensures Onward(taken, pending, gaveUp, taken', pending')
  {
  }

  method ConsumeOnward(book: OrderBook, sink: MessageSink, blockMode: bool, gaveUp: bool, ghost taken: seq<Stamped>,
                       ghost pending: seq<Stamped>, ghost offered: seq<Stamped>, ghost log: seq<QueueEvent>)
    returns (empty: bool, ghost taken': seq<Stamped>, ghost pending': seq<Stamped>)
    requires Consuming(book, sink, taken, pending, offered, log)
    modifies book, book.Repr, sink`taken, sink`log, sink.ring`tail, sink.ring`itemAvailable
    ensures Consuming(book, sink, taken', pending', offered, log) && book.GrownByFresh()
    ensures Onward(taken, pending, gaveUp, taken', pending') && (empty <==> pending' == [])
  {
    var got;
    got, taken', pending' := ConsumeOne(book, sink, blockMode, gaveUp, taken, pending, offered, log);
    MovedOnward(taken, pending, got, gaveUp, taken', pending');
    empty := sink.ring.Empty();
  }

  /**
   The engine's loop once the parser has made its last offer: for as long as the server runs, and then until the
   queue is empty, every message taken is processed before the next is taken. Waits may time out for no reason, but
   not for ever.
   */
  method ConsumeMessages(book: OrderBook, sink: MessageSink, blockMode: bool)
    requires book.Valid() && sink.Valid() && InStep(book.Abs(), sink.taken, sink.ring.Items())
    modifies book, book.Repr, sink`taken, sink`log, sink.ring`tail, sink.ring`itemAvailable
    ensures book.Valid() && sink.Valid() && sink.offered == old(sink.offered) && sink.ring.Items() == []
    ensures sink.taken == old(sink.taken) + old(sink.ring.Items())
    ensures InStep(book.Abs(), sink.taken, []) && OnlyTakes(old(sink.log), sink.log)
  {
    ghost var offered, log, taken, pending := sink.offered, sink.log, sink.taken, sink.ring.Items();
    ghost var all := taken + pending;
    var rounds: nat, patience: nat := *, *;
    var empty := sink.ring.Empty();
    while rounds > 0 || !empty
      invariant Consuming(book, sink, taken, pending, offered, log) && book.GrownByFresh()
      invariant taken + pending == all && (empty <==> pending == [])
      decreases rounds, patience, |pending|
    {
      var gaveUp: bool := *;
      gaveUp := gaveUp && patience > 0;
      empty, taken, pending := ConsumeOnward(book, sink, blockMode, gaveUp, taken, pending, offered, log);
      if rounds > 0 {
        rounds := rounds - 1;
      } else if gaveUp {
        patience := patience - 1;
      }
    }
    assert taken + [] == taken;
  }
}
