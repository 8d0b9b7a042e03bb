/** What becomes of a stream of serialised messages: which of them are delivered, and when all of them are. */
module Delivery {
  import opened Wire
  import opened Decoder
  import opened Connections
  import opened ConnectionProgress
  import opened ConnectionPace

  lemma {:induction false} MessagesAtMostFrames(mode: Mode, bs: seq<Byte>)
    ensures |Decode(mode, bs).messages| <= Decode(mode, bs).frames
    decreases |bs|, mode.AwaitingPayload?
  {
    var n := Need(mode);
    if |bs| >= n {
      MessagesAtMostFrames(if mode.AwaitingHeader? then ReadHeader(bs[..n]) else AwaitingHeader, bs[n..]);
    }
  }

  lemma {:induction false} TakenAtMostFrames(limit: nat, mode: Mode, bs: seq<Byte>)
    ensures |Take(limit, mode, bs).messages| <= Take(limit, mode, bs).frames
    decreases |bs|, mode.AwaitingPayload?
  {
    var n := Need(mode);
    if limit != 0 && |bs| >= n {
      if mode.AwaitingHeader? {
        TakenAtMostFrames(limit, ReadHeader(bs[..n]), bs[n..]);
      } else {
        TakenAtMostFrames(limit - 1, AwaitingHeader, bs[n..]);
      }
    }
  }

  lemma {:induction false} DeliveredAtMostFrames(s: System, arrivals: seq<seq<Byte>>)
    requires ConnOk(s.conn) && |s.delivered| <= s.frames
    ensures |Run(s, arrivals).delivered| <= Run(s, arrivals).frames
    decreases |arrivals|
  {
    if arrivals != [] {
      var kernel := s.kernel + arrivals[0];
      TakenAtMostFrames(MSG_LIMIT_PER_CONN, s.conn.mode, s.conn.unread + kernel[..Wake(s.conn, kernel).received]);
      DeliveredAtMostFrames(Step(s, arrivals[0]), arrivals[1..]);
    }
  }

  /**
   A stream of messages, received to its end in any pieces: the first of them are delivered, in order, as many
   as frames were parsed; and all of them if and only if the receptions keep pace.
   */
  lemma SentMessagesArrive(messages: seq<WireMessage>, arrivals: seq<seq<Byte>>)
    requires Concat(arrivals) == Stream(messages) && Run(Start([]), arrivals).kernel == []
    ensures var s := Run(Start([]), arrivals);
            && s.delivered <= messages && |s.delivered| == s.frames
            && (s.delivered == messages <==> KeepsPace(arrivals))
  {
    var s := Run(Start([]), arrivals);
    assert Sound(s) && s.received == Stream(messages) by {
      ReachedFromStart(arrivals);
      assert s.received + [] == s.received;
    }
    StreamRoundTrip(messages);
    MessagesAtMostFrames(s.conn.mode, s.conn.unread);
    DeliveredAtMostFrames(Start([]), arrivals);
    NothingWaitsExactly(arrivals);
    WholeOrPart(s, messages);
  }

  lemma WholeOrPart(s: System, messages: seq<WireMessage>)
    requires var left := Decode(s.conn.mode, s.conn.unread);
             && Before(s.delivered, s.frames, left) == Decoded(messages, |messages|, AwaitingHeader, [])
             && |left.messages| <= left.frames && |s.delivered| <= s.frames
    ensures s.delivered <= messages && |s.delivered| == s.frames
    ensures s.delivered == messages <==> NothingWaits(s)
  {
  }

  /** A run that went on, with nothing more arriving, until everything was received. */
  predicate Finishes(arrivals: seq<seq<Byte>>, n: nat) {
    && AllReady(Start([]), arrivals + Idle(n)) && Concat(arrivals + Idle(n)) == Concat(arrivals)
    && Run(Start([]), arrivals + Idle(n)).kernel == []
  }

  lemma FinishedRun(arrivals: seq<seq<Byte>>, n: nat)
    requires AllReady(Start([]), arrivals) && ReceivedAfter(Run(Start([]), arrivals), n)
    ensures Finishes(arrivals, n)
    ensures Run(Start([]), arrivals + Idle(n)) == Run(Run(Start([]), arrivals), Idle(n))
  {
    RunThenRun(Start([]), arrivals, Idle(n));
    AllReadyInTwo(Start([]), arrivals, Idle(n));
    ConcatInTwo(arrivals, Idle(n));
    IdleBringsNothing(n);
    assert Concat(arrivals) + [] == Concat(arrivals);
  }

  // ----- a burst -----

  lemma {:induction false} TakeFromStream(limit: nat, messages: seq<WireMessage>)
    requires limit <= |messages|
    ensures Take(limit, AwaitingHeader, Stream(messages)) ==
            Decoded(messages[..limit], limit, AwaitingHeader, Stream(messages[limit..]))
    decreases limit
  {
    if limit == 0 {
      assert messages[0..] == messages;
    } else {
      var m, rest := messages[0], messages[1..];
      TakeFromStream(limit - 1, rest);
      TakeFrame(limit, m, Stream(rest));
      assert [m] + rest[..limit - 1] == messages[..limit] && rest[limit - 1..] == messages[limit..];
    }
  }

  lemma TakeFrame(limit: nat, m: WireMessage, more: seq<Byte>)
    requires limit > 0
    ensures Take(limit, AwaitingHeader, Frame(m) + more) == Before([m], 1, Take(limit - 1, AwaitingHeader, more))
  {
    var header := Header(TypeOf(m), StructSize(TypeOf(m)));
    var bs := Frame(m) + more;
    assert bs[..HEADER_SIZE] == header && bs[HEADER_SIZE..] == Payload(m) + more;
    TakePayload(limit, m, ReadHeader(header), more);
  }

  lemma TakePayload(limit: nat, m: WireMessage, mode: Mode, more: seq<Byte>)
    requires limit > 0 && mode.AwaitingPayload? && mode.msgType == TypeOf(m)
    ensures Take(limit, mode, Payload(m) + more) == Before([m], 1, Take(limit - 1, AwaitingHeader, more))
  {
    var size := StructSize(TypeOf(m));
    assert (Payload(m) + more)[..size] == Payload(m) && (Payload(m) + more)[size..] == more;
    PayloadRoundTrip(m);
  }

  /**
   More than four messages in one piece that is received at once: the first four are delivered, the rest wait in
   the buffer, nothing is left to receive, and so the reactor does not come back for them.
   */
  lemma BurstIsLeftWaiting(messages: seq<WireMessage>)
    requires |messages| > 4 && |Stream(messages)| <= 256
    ensures var s := Run(Start([]), [Stream(messages)]);
            && AllReady(Start([]), [Stream(messages)])
            && s.delivered == messages[..4] && s.conn.unread == Stream(messages[4..])
            && s.kernel == [] && !Ready(s, []) && !NothingWaits(s)
  {
    var bs := Stream(messages);
    assert bs != [] by {
      assert bs == Frame(messages[0]) + Stream(messages[1..]);
    }
    assert AllReady(Start([]), [bs]) && Run(Start([]), [bs]) == Step(Start([]), bs) by {
      var pieces := [bs];
      RunOne(Start([]), bs);
      assert AllReady(Step(Start([]), bs), pieces[1..]);
    }
    TakeFromStream(MSG_LIMIT_PER_CONN, messages);
    ReceivedAtOnce(Start([]), bs, Decoded(messages[..MSG_LIMIT_PER_CONN], MSG_LIMIT_PER_CONN, AwaitingHeader,
                                          Stream(messages[MSG_LIMIT_PER_CONN..])));
    assert Decode(AwaitingHeader, Stream(messages[MSG_LIMIT_PER_CONN..])).frames > 0 by {
      StreamRoundTrip(messages[MSG_LIMIT_PER_CONN..]);
    }
  }

  lemma WholePiece(unread: seq<Byte>, kernel: seq<Byte>, bs: seq<Byte>)
    requires unread == [] && kernel == []
    ensures |kernel + bs| == |bs| && unread + (kernel + bs)[..|bs|] == bs && (kernel + bs)[|bs|..] == []
  {
  }

  lemma ReceivedAtOnce(s: System, bs: seq<Byte>, t: Decoded)
    requires s.kernel == [] && s.delivered == [] && s.conn.readPos == s.conn.writePos == 0 && s.conn.unread == []
    requires |bs| <= READ_BYTE_BUDGET && t == Take(MSG_LIMIT_PER_CONN, s.conn.mode, bs)
    ensures var s' := Step(s, bs);
            s'.kernel == [] && s'.delivered == t.messages && s'.conn.mode == t.mode && s'.conn.unread == t.rest
  {
    WholePiece(s.conn.unread, s.kernel, bs);
    StepIs(s, bs, s.kernel + bs, |bs|, bs, t);
  }

  function Cancels(ids: seq<Word64>): (messages: seq<WireMessage>)
    ensures |messages| == |ids|
  {
    if ids == [] then [] else [WireCancelOrder(ids[0])] + Cancels(ids[1..])
  }

  lemma {:induction false} CancelsAreShort(ids: seq<Word64>)
    ensures |Stream(Cancels(ids))| == 11 * |ids|
  {
    if ids != [] {
      CancelsAreShort(ids[1..]);
      assert Cancels(ids)[1..] == Cancels(ids[1..]);
      assert |Frame(WireCancelOrder(ids[0]))| == 11;
    }
  }

  /** Five cancellations sent at once: the fifth waits until something else is sent. */
  lemma FiveCancelsAtOnce(ids: seq<Word64>)
    requires |ids| == 5
    ensures var messages := Cancels(ids);
            var s := Run(Start([]), [Stream(messages)]);
            && |Stream(messages)| == 55 && AllReady(Start([]), [Stream(messages)])
            && s.delivered == messages[..4] && s.kernel == [] && !Ready(s, []) && !NothingWaits(s)
            && Fits(AwaitingHeader, Stream(messages)) && !KeepsPace([Stream(messages)])
  {
    var messages := Cancels(ids);
    CancelsAreShort(ids);
    BurstIsLeftWaiting(messages);
    StreamFits(messages);
    NothingWaitsExactly([Stream(messages)]);
  }

  // ----- pieces received whole -----

  /** Pieces small enough, and few enough, that each is received whole in the wakeup it causes. */
  predicate SmallPieces(arrivals: seq<seq<Byte>>) {
    |Concat(arrivals)| <= 1024 &&
    forall i :: 0 <= i < |arrivals| ==> 0 < |arrivals[i]| <= 256
  }

  lemma {:induction false} ConcatPrefix(arrivals: seq<seq<Byte>>, k: nat)
    requires k < |arrivals|
    ensures Concat(arrivals[..k + 1]) == Concat(arrivals[..k]) + arrivals[k]
    ensures |Concat(arrivals[..k + 1])| <= |Concat(arrivals)|
  {
    if k == 0 {
      assert arrivals[..1][1..] == [] && arrivals[..0] == [];
      assert Concat(arrivals[..1]) == arrivals[0];
    } else {
      ConcatPrefix(arrivals[1..], k - 1);
      assert arrivals[..k + 1][1..] == arrivals[1..][..k] && arrivals[..k][1..] == arrivals[1..][..k - 1];
    }
  }

  lemma {:induction false} SmallPiecesAreReceivedWhole(arrivals: seq<seq<Byte>>, k: nat)
    requires SmallPieces(arrivals) && k <= |arrivals|
    ensures var s := Upto(arrivals, k);
            s.kernel == [] && s.received == Concat(arrivals[..k]) && s.conn.writePos <= |s.received|
    decreases k
  {
    if k == 0 {
      assert arrivals[..0] == [];
    } else {
      SmallPiecesAreReceivedWhole(arrivals, k - 1);
      ConcatPrefix(arrivals, k - 1);
      UptoNext(arrivals, k - 1);
      ReceivedWhole(Upto(arrivals, k - 1), arrivals[k - 1]);
    }
  }

  lemma ReceivedWhole(s: System, piece: seq<Byte>)
    requires ConnOk(s.conn) && s.kernel == [] && s.conn.writePos <= |s.received|
    requires 0 < |piece| <= READ_BYTE_BUDGET && |s.received| + |piece| <= STATE_SIZE
    ensures var s' := Step(s, piece);
            && s'.kernel == [] && s'.received == s.received + piece && s'.conn.writePos <= |s'.received|
  {
    assert [] + piece == piece;
    assert Wake(s.conn, piece).received == |piece|;
    assert piece[..|piece|] == piece;
  }

  /** For small pieces, whether messages are left waiting is a matter of the pieces alone. */
  lemma SmallPiecesKeepPace(arrivals: seq<seq<Byte>>)
    requires SmallPieces(arrivals)
    ensures Run(Start([]), arrivals).kernel == [] && Run(Start([]), arrivals).received == Concat(arrivals)
    ensures NothingWaits(Run(Start([]), arrivals)) <==>
            forall k :: 0 <= k <= |arrivals| ==>
              FramesIn(Concat(arrivals)) <= FramesIn(Concat(arrivals[..k])) + 4 * (|arrivals| - k)
  {
    var n := |arrivals|;
    assert arrivals[..n] == arrivals;
    SmallPiecesAreReceivedWhole(arrivals, n);
    NothingWaitsExactly(arrivals);
    forall k | 0 <= k <= n
      ensures Complete(arrivals, k) == FramesIn(Concat(arrivals[..k]))
    {
      SmallPiecesAreReceivedWhole(arrivals, k);
    }
    assert forall k :: 0 <= k <= n ==>
      Ceiling(arrivals, k, n) == FramesIn(Concat(arrivals[..k])) + MSG_LIMIT_PER_CONN * (n - k);
  }

  // ----- a client that does not get ahead -----

  /**
   From a moment when nothing waits, however the next bytes arrive: if they complete no more than four frames,
   nothing waits at the end. A client that lets the server read before it sends a fifth message is never left
   waiting.
   */
  lemma {:induction false} FourAtATime(s: System, arrivals: seq<seq<Byte>>)
    requires Sound(s) && arrivals != [] && FramesIn(Run(s, arrivals).received) <= s.frames + 4
    ensures Sound(Run(s, arrivals)) && NothingWaits(Run(s, arrivals))
    decreases |arrivals|
  {
    var s1 := Step(s, arrivals[0]);
    StepParses(s, arrivals[0]);
    ReceivedGrows(s1, arrivals[1..]);
    if |arrivals| == 1 {
      assert Run(s1, arrivals[1..]) == s1;
      WaitingIsTheDifference(s1);
    } else {
      FourAtATime(s1, arrivals[1..]);
    }
  }

  lemma {:induction false} ReceivedGrows(s: System, arrivals: seq<seq<Byte>>)
    requires ConnOk(s.conn)
    ensures FramesIn(s.received) <= FramesIn(Run(s, arrivals).received)
    decreases |arrivals|
  {
    if arrivals != [] {
      var s1 := Step(s, arrivals[0]);
      var kernel := s.kernel + arrivals[0];
      FramesGrow(s.received, kernel[..Wake(s.conn, kernel).received]);
      ReceivedGrows(s1, arrivals[1..]);
    }
  }
}
