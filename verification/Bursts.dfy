/**
 A client that sends four messages at most, and waits until the server has received them before it sends more, is
 served in full, however long it goes on and however its bytes are cut up.
 */
module Bursts {
  import opened Wire
  import opened Decoder
  import opened Connections
  import opened ConnectionProgress
  import opened ConnectionPace
  import opened Delivery

  /** Some messages, and the wakeups that receive their bytes. */
  datatype Burst = Burst(messages: seq<WireMessage>, pieces: seq<seq<Byte>>)

  function Messages(bursts: seq<Burst>): seq<WireMessage> {
    if bursts == [] then [] else bursts[0].messages + Messages(bursts[1..])
  }

  function Pieces(bursts: seq<Burst>): seq<seq<Byte>> {
    if bursts == [] then [] else bursts[0].pieces + Pieces(bursts[1..])
  }

  /** Four messages at most, received to their end by the wakeups of the burst. */
  predicate Received(s: System, b: Burst)
    requires ConnOk(s.conn)
  {
    && |b.messages| <= 4 && b.pieces != [] && Concat(b.pieces) == Stream(b.messages)
    && Run(s, b.pieces).kernel == []
  }

  /** Each burst is received to its end before the next begins. */
  predicate InTurn(s: System, bursts: seq<Burst>)
    requires ConnOk(s.conn)
    decreases |bursts|
  {
    bursts == [] || (Received(s, bursts[0]) && InTurn(Run(s, bursts[0].pieces), bursts[1..]))
  }

  /** All of `sent` was received and delivered, and nothing else. */
  predicate Served(s: System, sent: seq<WireMessage>) {
    Sound(s) && s.kernel == [] && s.received == Stream(sent) && s.delivered == sent && s.frames == |sent|
  }

  lemma {:induction false} StreamJoins(a: seq<WireMessage>, b: seq<WireMessage>)
    ensures Stream(a + b) == Stream(a) + Stream(b)
  {
    if a == [] {
      assert a + b == b;
    } else {
      assert (a + b)[1..] == a[1..] + b;
      StreamJoins(a[1..], b);
    }
  }

  /** With as many frames parsed as were sent, everything was delivered and the buffer is empty. */
  lemma WaitingForNothing(s: System, sent: seq<WireMessage>)
    requires Sound(s) && s.received == Stream(sent) && NothingWaits(s)
    ensures s.delivered == sent && s.frames == |sent| && s.conn.mode == AwaitingHeader && s.conn.unread == []
  {
    StreamRoundTrip(sent);
    MessagesAtMostFrames(s.conn.mode, s.conn.unread);
    NothingDecoded(s.conn.mode, s.conn.unread);
  }

  lemma NothingDecoded(mode: Mode, bs: seq<Byte>)
    requires Decode(mode, bs).frames == 0
    ensures Decode(mode, bs).messages == []
  {
    MessagesAtMostFrames(mode, bs);
  }

  lemma ServedIsIdle(s: System, sent: seq<WireMessage>)
    requires Served(s, sent)
    ensures NothingWaits(s) && s.conn.unread == [] && s.conn.mode == AwaitingHeader
  {
    StreamRoundTrip(sent);
    WaitingForNothing(s, sent);
  }

  lemma OneBurst(s: System, sent: seq<WireMessage>, b: Burst)
    requires Served(s, sent) && Received(s, b)
    ensures Served(Run(s, b.pieces), sent + b.messages)
  {
    var s' := Run(s, b.pieces);
    var all := sent + b.messages;
    assert s'.received == Stream(all) by {
      RunKeepsSound(s, b.pieces);
      StreamJoins(sent, b.messages);
      assert s'.received + [] == s'.received && s.received + [] == s.received;
    }
    assert FramesIn(s'.received) == |all| by {
      StreamRoundTrip(all);
    }
    FourAtATime(s, b.pieces);
    WaitingForNothing(s', all);
  }

  lemma BurstOnward(s: System, sent: seq<WireMessage>, bursts: seq<Burst>)
    requires ConnOk(s.conn) && bursts != []
    ensures Run(s, Pieces(bursts)) == Run(Run(s, bursts[0].pieces), Pieces(bursts[1..]))
    ensures sent + Messages(bursts) == sent + bursts[0].messages + Messages(bursts[1..])
  {
    RunThenRun(s, bursts[0].pieces, Pieces(bursts[1..]));
  }

  /** However many bursts: all messages are delivered, in order, and nothing is left waiting. */
  lemma {:induction false} BurstsAreServed(s: System, sent: seq<WireMessage>, bursts: seq<Burst>)
    requires Served(s, sent) && InTurn(s, bursts)
    ensures Served(Run(s, Pieces(bursts)), sent + Messages(bursts))
    decreases |bursts|
  {
    if bursts == [] {
      assert sent + [] == sent;
    } else {
      OneBurst(s, sent, bursts[0]);
      BurstsAreServed(Run(s, bursts[0].pieces), sent + bursts[0].messages, bursts[1..]);
      BurstOnward(s, sent, bursts);
    }
  }

  /**
   From accept on: bursts of at most four messages, each received to its end before the next, are delivered in full
   and in order, for streams of any length.
   */
  lemma FourMessagesAtATime(bursts: seq<Burst>)
    requires InTurn(Start([]), bursts)
    ensures var s := Run(Start([]), Pieces(bursts));
            s.delivered == Messages(bursts) && s.conn.unread == [] && s.kernel == [] && NothingWaits(s)
  {
    ReachedFromStart([]);
    BurstsAreServed(Start([]), [], bursts);
    assert [] + Messages(bursts) == Messages(bursts);
    ServedIsIdle(Run(Start([]), Pieces(bursts)), Messages(bursts));
  }

  /** Whatever pieces a burst arrives in, the reactor goes on to receive it to its end. */
  lemma EveryBurstIsReceived(s: System, sent: seq<WireMessage>, messages: seq<WireMessage>, pieces: seq<seq<Byte>>)
    requires Served(s, sent) && Concat(pieces) == Stream(messages)
    ensures Receives(Run(s, pieces))
  {
    ServedIsIdle(s, sent);
    StreamFits(messages);
    RunKeepsFits(s, pieces);
    assert s.conn.unread + s.kernel + Stream(messages) == Stream(messages);
    ReceivesIfFits(Run(s, pieces));
  }
}
