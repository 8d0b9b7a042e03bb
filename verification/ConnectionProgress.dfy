/**
 When a connection keeps moving. The reactor wakes a connection only while there is something to receive, so
 every run of interest makes its wakeups with bytes waiting. Exactly which streams are received to the end, and
 which ones fill the buffer for good.
 */
module ConnectionProgress {
  import opened BookTypes
  import opened Wire
  import opened Decoder
  import opened Connections

  /** The buffer is full of a payload that will never be complete. */
  predicate Jammed(c: Conn) {
    |c.unread| == 1024 && Need(c.mode) > 1024
  }

  /** There is something to receive: what it takes for the reactor to wake the connection. */
  predicate Ready(s: System, arriving: seq<Byte>) {
    s.kernel + arriving != []
  }

  /** Every wakeup of the run is one the reactor makes. */
  predicate AllReady(s: System, arrivals: seq<seq<Byte>>)
    requires ConnOk(s.conn)
    decreases |arrivals|
  {
    arrivals == [] || (Ready(s, arrivals[0]) && AllReady(Step(s, arrivals[0]), arrivals[1..]))
  }

  lemma {:induction false} TakeMoves(limit: nat, mode: Mode, bs: seq<Byte>)
    ensures var t := Take(limit, mode, bs);
            (t.mode == mode && t.rest == bs && t.frames == 0) ||
            2 * |t.rest| + (if t.mode.AwaitingPayload? then 1 else 0) <
            2 * |bs| + (if mode.AwaitingPayload? then 1 else 0)
    ensures limit > 0 && |bs| >= Need(mode) ==> Take(limit, mode, bs).mode != mode || Take(limit, mode, bs).rest != bs
                                                || Take(limit, mode, bs).frames > 0
    decreases |bs|, mode.AwaitingPayload?
  {
    var n := Need(mode);
    if limit != 0 && |bs| >= n {
      if mode.AwaitingHeader? {
        TakeMoves(limit, ReadHeader(bs[..n]), bs[n..]);
      } else {
        TakeMoves(limit - 1, AwaitingHeader, bs[n..]);
      }
    }
  }

  /** The wakeup neither received nor parsed anything. */
  predicate Stalls(s: System, arriving: seq<Byte>)
    requires ConnOk(s.conn)
  {
    var s' := Step(s, arriving);
    s'.received == s.received && s'.conn.mode == s.conn.mode && s'.conn.unread == s.conn.unread && s'.frames == s.frames
  }

  /** With bytes waiting, a wakeup stalls exactly when the connection is jammed. */
  lemma StallsExactly(s: System, arriving: seq<Byte>)
    requires ConnOk(s.conn) && s.kernel + arriving != []
    ensures Stalls(s, arriving) <==> Jammed(s.conn)
  {
    var kernel := s.kernel + arriving;
    var n := Wake(s.conn, kernel).received;
    assert n == 0 <==> |s.conn.unread| == STATE_SIZE;
    if n == 0 {
      assert s.conn.unread + kernel[..n] == s.conn.unread;
      TakeMoves(MSG_LIMIT_PER_CONN, s.conn.mode, s.conn.unread);
    } else {
      assert |s.received + kernel[..n]| > |s.received|;
    }
  }

  /** How much room a buffer of 1024 bytes has once it has been settled. */
  function Room(c: Conn): int {
    if c.unread == [] then 1024 else if c.writePos == 1024 then 1024 - |c.unread| else 1024 - c.writePos
  }

  /**
   A wakeup in figures: it receives what there is, at most 256 bytes and at most what there is room for, behind what
   is unread, and parses the frames that are then complete, at most four.
   */
  lemma WakeupInFigures(s: System, arriving: seq<Byte>)
    requires ConnOk(s.conn)
    ensures var kernel := s.kernel + arriving;
            var n := Min(Min(Room(s.conn), 256), |kernel|);
            var s' := Step(s, arriving);
            && n >= 0 && s'.received == s.received + kernel[..n] && s'.kernel == kernel[n..]
            && s'.conn.writePos == 1024 - Room(s.conn) + n
            && s'.frames == s.frames + Min(4, Decode(s.conn.mode, s.conn.unread + kernel[..n]).frames)
  {
    var kernel := s.kernel + arriving;
    var n := Wake(s.conn, kernel).received;
    TakeThenDecode(MSG_LIMIT_PER_CONN, s.conn.mode, s.conn.unread + kernel[..n]);
  }

  /** Once jammed, a connection stays as it is, whatever arrives. */
  lemma {:induction false} JamIsForever(s: System, arrivals: seq<seq<Byte>>)
    requires ConnOk(s.conn) && Jammed(s.conn)
    ensures JammedAs(s, Run(s, arrivals), Concat(arrivals))
    decreases |arrivals|
  {
    if arrivals == [] {
      assert s.kernel + [] == s.kernel;
    } else {
      var s1 := Step(s, arrivals[0]);
      JammedStep(s, arrivals[0]);
      JamIsForever(s1, arrivals[1..]);
      JammedOnward(s, s1, arrivals[0], Run(s1, arrivals[1..]), Concat(arrivals[1..]));
    }
  }

  /** `s'` is `s`, but for `more` bytes waiting in the kernel. */
  predicate JammedAs(s: System, s': System, more: seq<Byte>) {
    && Jammed(s'.conn) && s'.conn.unread == s.conn.unread && s'.conn.mode == s.conn.mode
    && s'.received == s.received && s'.delivered == s.delivered && s'.kernel == s.kernel + more
  }

  lemma JammedOnward(s: System, s1: System, a: seq<Byte>, s2: System, b: seq<Byte>)
    requires JammedAs(s, s1, a) && JammedAs(s1, s2, b)
    ensures JammedAs(s, s2, a + b)
  {
    assert s.kernel + a + b == s.kernel + (a + b);
  }

  lemma JammedStep(s: System, arriving: seq<Byte>)
    requires ConnOk(s.conn) && Jammed(s.conn)
    ensures JammedAs(s, Step(s, arriving), arriving)
  {
    var kernel := s.kernel + arriving;
    assert Wake(s.conn, kernel).received == 0;
    assert s.conn.unread + kernel[..0] == s.conn.unread;
    assert s.received + kernel[..0] == s.received && s.delivered + [] == s.delivered;
  }

  /** Wakeups the reactor makes while nothing arrives bring the connection to a standstill. */
  predicate JamsAfter(s: System, n: nat)
    requires ConnOk(s.conn)
  {
    AllReady(s, Idle(n)) && Jammed(Run(s, Idle(n)).conn)
  }

  lemma JamsOnward(s: System, n: nat)
    requires ConnOk(s.conn) && s.kernel != [] && JamsAfter(Step(s, []), n)
    ensures JamsAfter(s, n + 1)
  {
    IdleOnward(s, n + 1);
    assert Idle(n + 1)[0] == [] && Idle(n + 1)[1..] == Idle(n);
    assert s.kernel + [] == s.kernel;
  }

  /** An oversized payload with bytes enough behind it does jam its connection. */
  lemma {:induction false} OversizedPayloadJams(s: System) returns (n: nat)
    requires ConnOk(s.conn) && Need(s.conn.mode) > STATE_SIZE && |s.conn.unread| + |s.kernel| >= STATE_SIZE
    ensures JamsAfter(s, n)
    decreases STATE_SIZE - |s.conn.unread|
  {
    if Jammed(s.conn) {
      n := 0;
    } else {
      assert s.kernel + [] == s.kernel;
      var s1 := Step(s, []);
      assert |s1.conn.unread| > |s.conn.unread|;
      var m := OversizedPayloadJams(s1);
      JamsOnward(s, m);
      n := m + 1;
    }
  }

  /** One header of an unknown type that announces more than the buffer holds, and bytes enough behind it. */
  lemma UnknownOversizedJams(t: Byte, payloadLen: nat, filler: seq<Byte>) returns (n: nat)
    requires t != 1 && t != 2 && t != 3 && 1024 < payloadLen < 0x1_0000 && |filler| >= 1024
    ensures JamsAfter(Start(Header(t, payloadLen) + filler), n)
  {
    var s := Start(Header(t, payloadLen) + filler);
    HeaderOfUnknown(t, payloadLen, filler);
    var m := OversizedPayloadJams(Step(s, []));
    JamsOnward(s, m);
    n := m + 1;
  }

  lemma HeaderOfUnknown(t: Byte, payloadLen: nat, filler: seq<Byte>)
    requires !KnownType(t) && STATE_SIZE < payloadLen < 0x1_0000 && |filler| >= STATE_SIZE
    ensures var s1 := Step(Start(Header(t, payloadLen) + filler), []);
            && s1.conn.mode == AwaitingPayload(t, payloadLen)
            && |s1.conn.unread| + |s1.kernel| == |filler|
  {
    var header := Header(t, payloadLen);
    var kernel := header + filler + [];
    var bs := [] + kernel[..READ_BYTE_BUDGET];
    assert bs[..HEADER_SIZE] == header && header[1..] == Bytes(payloadLen, 2);
    EightBytes();
    ValueOfBytes(payloadLen, 2);
    var mode := ReadHeader(header);
    assert mode == AwaitingPayload(t, payloadLen);
    assert Take(MSG_LIMIT_PER_CONN, AwaitingHeader, bs) == Take(MSG_LIMIT_PER_CONN, mode, bs[HEADER_SIZE..]);
    assert Take(MSG_LIMIT_PER_CONN, mode, bs[HEADER_SIZE..]) == Decoded([], 0, mode, bs[HEADER_SIZE..]);
  }

  // ----- draining -----

  /** Every payload the decoder comes to fits the buffer, or is cut short by the end of the stream before filling it. */
  predicate Fits(mode: Mode, bs: seq<Byte>)
    decreases |bs|, mode.AwaitingPayload?
  {
    var n := Need(mode);
    if |bs| < n then n <= 1024 || |bs| <= 1024
    else n <= 1024 && Fits(if mode.AwaitingHeader? then ReadHeader(bs[..n]) else AwaitingHeader, bs[n..])
  }

  lemma {:induction false} ShortStreamFits(mode: Mode, bs: seq<Byte>)
    requires |bs| <= STATE_SIZE
    ensures Fits(mode, bs)
    decreases |bs|, mode.AwaitingPayload?
  {
    var n := Need(mode);
    if |bs| >= n {
      ShortStreamFits(if mode.AwaitingHeader? then ReadHeader(bs[..n]) else AwaitingHeader, bs[n..]);
    }
  }

  lemma CutWithin(a: seq<Byte>, b: seq<Byte>, n: nat)
    requires n <= |a|
    ensures (a + b)[..n] == a[..n] && (a + b)[n..] == a[n..] + b
  {
  }

  /** What was parsed out of the buffer fitted it, so parsing decides nothing about the rest. */
  lemma {:induction false} TakeKeepsFits(limit: nat, mode: Mode, a: seq<Byte>, b: seq<Byte>)
    requires |a| <= STATE_SIZE
    ensures var t := Take(limit, mode, a);
            Fits(mode, a + b) <==> Fits(t.mode, t.rest + b)
    decreases |a|, mode.AwaitingPayload?
  {
    var n := Need(mode);
    if limit != 0 && |a| >= n {
      CutWithin(a, b, n);
      if mode.AwaitingHeader? {
        TakeKeepsFits(limit, ReadHeader(a[..n]), a[n..], b);
      } else {
        TakeKeepsFits(limit - 1, AwaitingHeader, a[n..], b);
      }
    }
  }

  predicate SystemFits(s: System) {
    Fits(s.conn.mode, s.conn.unread + s.kernel)
  }

  /** The same, with what is still to come. */
  predicate FitsAhead(s: System, later: seq<Byte>) {
    Fits(s.conn.mode, s.conn.unread + s.kernel + later)
  }

  lemma StepKeepsFits(s: System, arriving: seq<Byte>, later: seq<Byte>)
    requires ConnOk(s.conn)
    ensures FitsAhead(Step(s, arriving), later) <==> FitsAhead(s, arriving + later)
  {
    var kernel := s.kernel + arriving;
    var n := Wake(s.conn, kernel).received;
    var a, b := s.conn.unread + kernel[..n], kernel[n..] + later;
    calc {
      s.conn.unread + s.kernel + (arriving + later);
      s.conn.unread + (kernel + later);
      { assert kernel == kernel[..n] + kernel[n..]; }
      s.conn.unread + (kernel[..n] + b);
      a + b;
    }
    TakeKeepsFits(MSG_LIMIT_PER_CONN, s.conn.mode, a, b);
    var s' := Step(s, arriving);
    assert s'.conn.unread + s'.kernel + later == s'.conn.unread + b;
  }

  lemma {:induction false} RunKeepsFits(s: System, arrivals: seq<seq<Byte>>)
    requires ConnOk(s.conn)
    ensures SystemFits(Run(s, arrivals)) <==> FitsAhead(s, Concat(arrivals))
    decreases |arrivals|
  {
    if arrivals == [] {
      assert s.conn.unread + s.kernel + [] == s.conn.unread + s.kernel;
    } else {
      StepKeepsFits(s, arrivals[0], Concat(arrivals[1..]));
      RunKeepsFits(Step(s, arrivals[0]), arrivals[1..]);
    }
  }

  lemma IdleStepKeepsFits(s: System)
    requires ConnOk(s.conn)
    ensures SystemFits(Step(s, [])) <==> SystemFits(s)
  {
    StepKeepsFits(s, [], []);
    assert s.conn.unread + s.kernel + ([] + []) == s.conn.unread + s.kernel;
    var s' := Step(s, []);
    assert s'.conn.unread + s'.kernel + [] == s'.conn.unread + s'.kernel;
  }

  /** Further wakeups while nothing arrives. */
  function Idle(n: nat): seq<seq<Byte>> {
    if n == 0 then [] else [[]] + Idle(n - 1)
  }

  lemma IdleOnward(s: System, n: nat)
    requires ConnOk(s.conn) && n > 0
    ensures Run(s, Idle(n)) == Run(Step(s, []), Idle(n - 1))
  {
    assert Idle(n)[0] == [] && Idle(n)[1..] == Idle(n - 1);
  }

  /** Receiving a byte, reading a header and consuming a payload each use some of it up. */
  function Work(s: System): nat {
    4 * |s.kernel| + 2 * |s.conn.unread| + if s.conn.mode.AwaitingPayload? then 1 else 0
  }

  lemma StepWorks(s: System)
    requires ConnOk(s.conn) && SystemFits(s) && s.kernel != []
    ensures Work(Step(s, [])) < Work(s)
  {
    assert s.kernel + [] == s.kernel;
    var n := Wake(s.conn, s.kernel).received;
    var a := s.conn.unread + s.kernel[..n];
    TakeMoves(MSG_LIMIT_PER_CONN, s.conn.mode, a);
    if n == 0 {
      assert a == s.conn.unread;
      assert |s.conn.unread| == STATE_SIZE && |s.conn.unread + s.kernel| > STATE_SIZE;
      assert Need(s.conn.mode) <= STATE_SIZE;
    }
  }

  /** The reactor goes on waking the connection until everything is received. */
  predicate ReceivedAfter(s: System, n: nat)
    requires ConnOk(s.conn)
  {
    AllReady(s, Idle(n)) && Run(s, Idle(n)).kernel == []
  }

  lemma ReceivedOnward(s: System, n: nat)
    requires ConnOk(s.conn) && s.kernel != [] && ReceivedAfter(Step(s, []), n)
    ensures ReceivedAfter(s, n + 1)
  {
    IdleOnward(s, n + 1);
    assert Idle(n + 1)[0] == [] && Idle(n + 1)[1..] == Idle(n);
    assert s.kernel + [] == s.kernel;
  }

  lemma {:induction false} FittingIsReceived(s: System) returns (n: nat)
    requires ConnOk(s.conn) && SystemFits(s)
    ensures ReceivedAfter(s, n)
    decreases Work(s)
  {
    if s.kernel == [] {
      n := 0;
    } else {
      StepWorks(s);
      IdleStepKeepsFits(s);
      var m := FittingIsReceived(Step(s, []));
      ReceivedOnward(s, m);
      n := m + 1;
    }
  }

  lemma {:induction false} ReceivedMeansFits(s: System, n: nat)
    requires ConnOk(s.conn) && Run(s, Idle(n)).kernel == []
    ensures SystemFits(s)
    decreases n
  {
    if n == 0 {
      assert s.conn.unread + s.kernel == s.conn.unread;
      ShortStreamFits(s.conn.mode, s.conn.unread);
    } else {
      IdleOnward(s, n);
      IdleStepKeepsFits(s);
      ReceivedMeansFits(Step(s, []), n - 1);
    }
  }

  /** With nothing more arriving, the reactor's further wakeups receive everything. */
  ghost predicate Receives(s: System)
    requires ConnOk(s.conn)
  {
    exists n: nat :: ReceivedAfter(s, n)
  }

  lemma ReceivesIfFits(s: System)
    requires ConnOk(s.conn)
    ensures Receives(s) <==> SystemFits(s)
  {
    if SystemFits(s) {
      var n := FittingIsReceived(s);
    }
    if Receives(s) {
      var n: nat :| ReceivedAfter(s, n);
      ReceivedMeansFits(s, n);
    }
  }

  /**
   However a stream arrives, the reactor receives all of it exactly when every payload on the way fits the
   buffer; an unknown type announcing more than 1024 bytes is what does not.
   */
  lemma ReceivesExactly(arrivals: seq<seq<Byte>>)
    ensures Receives(Run(Start([]), arrivals)) <==> Fits(AwaitingHeader, Concat(arrivals))
  {
    ReceivesIfFits(Run(Start([]), arrivals));
    ReachedFromStart(arrivals);
  }

  // ----- whole streams -----

  lemma {:induction false} StreamFits(messages: seq<WireMessage>)
    ensures Fits(AwaitingHeader, Stream(messages))
  {
    if messages != [] {
      StreamFits(messages[1..]);
      FrameFits(messages[0], Stream(messages[1..]));
    }
  }

  lemma FrameFits(m: WireMessage, more: seq<Byte>)
    requires Fits(AwaitingHeader, more)
    ensures Fits(AwaitingHeader, Frame(m) + more)
  {
    var bs := Frame(m) + more;
    assert bs[..HEADER_SIZE] == Header(TypeOf(m), StructSize(TypeOf(m)));
    assert bs[HEADER_SIZE..] == Payload(m) + more;
    assert (Payload(m) + more)[StructSize(TypeOf(m))..] == more;
    assert Fits(ReadHeader(bs[..HEADER_SIZE]), Payload(m) + more);
  }

  lemma {:induction false} RunThenRun(s: System, a: seq<seq<Byte>>, b: seq<seq<Byte>>)
    requires ConnOk(s.conn)
    ensures Run(s, a + b) == Run(Run(s, a), b)
    decreases |a|
  {
    if a == [] {
      assert a + b == b;
    } else {
      assert (a + b)[1..] == a[1..] + b;
      RunThenRun(Step(s, a[0]), a[1..], b);
    }
  }

  lemma {:induction false} AllReadyInTwo(s: System, a: seq<seq<Byte>>, b: seq<seq<Byte>>)
    requires ConnOk(s.conn)
    ensures AllReady(s, a + b) <==> AllReady(s, a) && AllReady(Run(s, a), b)
    decreases |a|
  {
    if a == [] {
      assert a + b == b;
    } else {
      assert (a + b)[1..] == a[1..] + b;
      AllReadyInTwo(Step(s, a[0]), a[1..], b);
    }
  }

  lemma {:induction false} ConcatInTwo(a: seq<seq<Byte>>, b: seq<seq<Byte>>)
    ensures Concat(a + b) == Concat(a) + Concat(b)
  {
    if a == [] {
      assert a + b == b;
    } else {
      assert (a + b)[1..] == a[1..] + b;
      ConcatInTwo(a[1..], b);
    }
  }

  lemma {:induction false} IdleNext(n: nat)
    ensures Idle(n + 1) == Idle(n) + [[]]
  {
    if n > 0 {
      IdleNext(n - 1);
    }
  }

  /** One more wakeup while something is still to be received. */
  lemma IdleOnce(s: System, n: nat)
    requires ConnOk(s.conn) && AllReady(s, Idle(n)) && Run(s, Idle(n)).kernel != []
    ensures AllReady(s, Idle(n + 1)) && Run(s, Idle(n + 1)) == Step(Run(s, Idle(n)), [])
  {
    var s1 := Run(s, Idle(n));
    var once: seq<seq<Byte>> := [[]];
    assert once[1..] == [] && Run(s1, once) == Step(s1, []);
    assert s1.kernel + [] == s1.kernel;
    IdleNext(n);
    RunThenRun(s, Idle(n), once);
    AllReadyInTwo(s, Idle(n), once);
    assert AllReady(Step(s1, []), once[1..]);
  }

  lemma {:induction false} IdleBringsNothing(n: nat)
    ensures Concat(Idle(n)) == []
  {
    if n > 0 {
      assert Idle(n)[0] == [] && Idle(n)[1..] == Idle(n - 1);
      IdleBringsNothing(n - 1);
    }
  }

  lemma ReachedFromStart(arrivals: seq<seq<Byte>>)
    ensures var s := Run(Start([]), arrivals);
            Sound(s) && s.received + s.kernel == Concat(arrivals) &&
            (SystemFits(s) <==> Fits(AwaitingHeader, Concat(arrivals)))
  {
    assert Decode(AwaitingHeader, []) == Decoded([], 0, AwaitingHeader, []);
    RunKeepsSound(Start([]), arrivals);
    RunKeepsFits(Start([]), arrivals);
    assert [] + [] + Concat(arrivals) == Concat(arrivals);
  }
}
