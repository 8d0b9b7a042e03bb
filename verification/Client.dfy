/** One connection as the reactor serves it: wakeups that receive, parse and push, in any number and any pieces. */
module Clients {
  import opened BookTypes
  import opened Wire
  import opened Decoder
  import opened Connections
  import opened ClientStates
  import opened MessageQueues
  import opened MessageSinks
  import opened MsgParsers
  import opened ConnectionProgress
  import opened ConnectionPace
  import opened Delivery

  /** Stamping what came in two goes. */
  lemma StampsJoin(a: seq<WireMessage>, b: seq<WireMessage>, c: seq<WireMessage>, conn: int, first: nat)
    requires a <= b <= c
    ensures Stamp(c[|a|..], conn, first) == Stamp(b[|a|..], conn, first) + Stamp(c[|b|..], conn, first + |b| - |a|)
  {
    assert c[|a|..] == b[|a|..] + c[|b|..];
    StampConcat(b[|a|..], c[|b|..], conn, first);
  }

  /** Since it had been offered `offered` the queue was offered what was delivered on from `a` to `b`. */
  ghost predicate OfferedSince(offered: seq<Stamped>, a: seq<WireMessage>, b: seq<WireMessage>, conn: int,
                               now: seq<Stamped>) {
    a <= b && now == offered + Stamp(b[|a|..], conn, |offered| + 1)
  }

  lemma NothingOffered(offered: seq<Stamped>, a: seq<WireMessage>, conn: int)
    ensures OfferedSince(offered, a, a, conn, offered)
  {
    assert offered + Stamp(a[|a|..], conn, |offered| + 1) == offered;
  }

  lemma OfferedFromTheStart(offered: seq<Stamped>, b: seq<WireMessage>, conn: int, now: seq<Stamped>)
    requires OfferedSince(offered, [], b, conn, now)
    ensures now == offered + Stamp(b, conn, |offered| + 1)
  {
    assert b[0..] == b;
  }

  lemma OfferedOnward(offered: seq<Stamped>, a: seq<WireMessage>, b: seq<WireMessage>, c: seq<WireMessage>,
                      since: seq<Stamped>, now: seq<Stamped>, conn: int)
    requires OfferedSince(offered, a, b, conn, since) && OfferedSince(since, b, c, conn, now)
    ensures OfferedSince(offered, a, c, conn, now)
  {
    StampsJoin(a, b, c, conn, |offered| + 1);
  }

  class Client {
    const fd: int
    const state: ClientState
    /** What the operating system holds for the connection. */
    var kernel: seq<Byte>
    /** All that was ever received and delivered, and how many frames that took. */
    ghost var received: seq<Byte>
    ghost var delivered: seq<WireMessage>
    ghost var frames: nat

    ghost function History(): System
      requires state.Valid()
      reads this, state, state.buf
    {
      System(state.View(), kernel, received, delivered, frames)
    }

    /** Messages delivered and bytes unread together are the decoding of all bytes received. */
    ghost predicate Valid()
      reads this, state, state.buf
    {
      state.Valid() && Sound(History())
    }

    constructor (fd: int)
      ensures Valid() && History() == Start([]) && this.fd == fd
      ensures fresh(state) && fresh(state.buf)
    {
      this.fd := fd;
      state := new ClientState(fd);
      kernel, received, delivered, frames := [], [], [], 0;
      assert Decode(AwaitingHeader, []) == Decoded([], 0, AwaitingHeader, []);
    }

    /** Receive what fits within the budget, at most what the kernel holds. */
    method ReceiveWithinBudget() returns (taken: nat)
      requires state.Valid()
      modifies this`kernel, this`received, state, state.buf
      ensures state.Valid()
      ensures var c1 := Settle(old(state.View()));
              && taken == Min(Budget(c1), |old(kernel)|)
              && state.View() == c1.(writePos := c1.writePos + taken, unread := c1.unread + old(kernel)[..taken])
      ensures kernel == old(kernel)[taken..] && received == old(received) + old(kernel)[..taken]
    {
      state.PreCheck();
      var budget := Min(state.WriteLimit(), READ_BYTE_BUDGET);
      taken := Min(budget, |kernel|);
      state.Receive(kernel[..taken]);
      received := received + kernel[..taken];
      kernel := kernel[taken..];
    }

    /** What one wakeup does, step by step. */
    method ReceiveAndParse(arriving: seq<Byte>, sink: MessageSink)
      returns (ghost c1: Conn, ghost n: nat, ghost t: Decoded)
      requires state.Valid() && sink.Valid()
      modifies this`kernel, this`received, this`delivered, this`frames, state, state.buf
      modifies sink, sink.ring, sink.ring.buffer
      ensures state.Valid() && sink.Valid() && old(sink.log) <= sink.log
      ensures WokenAs(old(History()), arriving, c1, n, t, History())
      ensures sink.offered == old(sink.offered) + Stamp(t.messages, fd, old(sink.nextSeq))
    {
      kernel := kernel + arriving;
      c1 := Settle(state.View());
      n := ReceiveWithinBudget();
      t := Take(MSG_LIMIT_PER_CONN, state.Mode(), state.Unread());
      var msgParsed := ParseReadyClient(state, sink, fd);
      delivered, frames := delivered + t.messages, frames + msgParsed;
    }

    /** One wakeup. */
    method Wakeup(arriving: seq<Byte>, sink: MessageSink)
      requires Valid() && sink.Valid()
      modifies this`kernel, this`received, this`delivered, this`frames, state, state.buf
      modifies sink, sink.ring, sink.ring.buffer
      ensures Valid() && sink.Valid() && old(sink.log) <= sink.log
      ensures History() == Step(old(History()), arriving)
      ensures OfferedSince(old(sink.offered), old(delivered), delivered, fd, sink.offered)
    {
      ghost var s := History();
      ghost var c1, n, t;
      c1, n, t := ReceiveAndParse(arriving, sink);
      WokenIsStep(s, arriving, c1, n, t, History());
      assert delivered[|s.delivered|..] == t.messages;
      assert Sound(History()) by {
        StepKeepsSound(s, arriving);
      }
    }

    /** Any number of wakeups. */
    method Serve(arrivals: seq<seq<Byte>>, sink: MessageSink)
      requires Valid() && sink.Valid()
      modifies this`kernel, this`received, this`delivered, this`frames, state, state.buf
      modifies sink, sink.ring, sink.ring.buffer
      ensures Valid() && sink.Valid() && old(sink.log) <= sink.log
      ensures History() == Run(old(History()), arrivals)
      ensures OfferedSince(old(sink.offered), old(delivered), delivered, fd, sink.offered)
    {
      ghost var goal := Run(History(), arrivals);
      NothingOffered(sink.offered, delivered, fd);
      for i := 0 to |arrivals|
        invariant Valid() && sink.Valid() && old(sink.log) <= sink.log
        invariant Run(History(), arrivals[i..]) == goal
        invariant OfferedSince(old(sink.offered), old(delivered), delivered, fd, sink.offered)
      {
        RunOnward(History(), arrivals, i);
        WakeupAgain(arrivals[i], sink, old(delivered), old(sink.offered));
      }
    }

    /** One more wakeup, the sink seen from the start of the run. */
    method WakeupAgain(arriving: seq<Byte>, sink: MessageSink,
                       ghost before: seq<WireMessage>, ghost offered: seq<Stamped>)
      requires Valid() && sink.Valid() && OfferedSince(offered, before, delivered, fd, sink.offered)
      modifies this`kernel, this`received, this`delivered, this`frames, state, state.buf
      modifies sink, sink.ring, sink.ring.buffer
      ensures Valid() && sink.Valid() && old(sink.log) <= sink.log && History() == Step(old(History()), arriving)
      ensures OfferedSince(offered, before, delivered, fd, sink.offered)
    {
      ghost var was, since := delivered, sink.offered;
      Wakeup(arriving, sink);
      OfferedOnward(offered, before, was, delivered, since, sink.offered, fd);
    }

    /** The same for a new connection, where the run leads being known. */
    method ServeTo(arrivals: seq<seq<Byte>>, sink: MessageSink, ghost goal: System)
      requires Valid() && sink.Valid() && delivered == [] && Run(History(), arrivals) == goal
      modifies this`kernel, this`received, this`delivered, this`frames, state, state.buf
      modifies sink, sink.ring, sink.ring.buffer
      ensures Valid() && sink.Valid() && old(sink.log) <= sink.log && History() == goal
      ensures OfferedSince(old(sink.offered), [], delivered, fd, sink.offered)
    {
      Serve(arrivals, sink);
    }

    /** A new connection's whole life. */
    method ServeToTheEnd(arrivals: seq<seq<Byte>>, sink: MessageSink, ghost middle: System) returns (ghost n: nat)
      requires Valid() && sink.Valid() && delivered == []
      requires Run(History(), arrivals) == middle && ConnOk(middle.conn) && SystemFits(middle)
      modifies this`kernel, this`received, this`delivered, this`frames, state, state.buf
      modifies sink, sink.ring, sink.ring.buffer
      ensures Valid() && sink.Valid() && old(sink.log) <= sink.log
      ensures ReceivedAfter(middle, n) && History() == Run(middle, Idle(n))
      ensures OfferedSince(old(sink.offered), [], delivered, fd, sink.offered)
    {
      ServeTo(arrivals, sink, middle);
      n := ReceiveRest(sink, middle, [], old(sink.offered));
    }

    /** With nothing more arriving, the reactor wakes the connection until everything is received. */
    method ReceiveRest(sink: MessageSink, ghost s: System, ghost before: seq<WireMessage>, ghost offered: seq<Stamped>)
      returns (ghost n: nat)
      requires Valid() && sink.Valid() && History() == s && SystemFits(s)
      requires OfferedSince(offered, before, delivered, fd, sink.offered)
      modifies this`kernel, this`received, this`delivered, this`frames, state, state.buf
      modifies sink, sink.ring, sink.ring.buffer
      ensures Valid() && sink.Valid() && old(sink.log) <= sink.log
      ensures ReceivedAfter(s, n) && History() == Run(s, Idle(n))
      ensures OfferedSince(offered, before, delivered, fd, sink.offered)
    {
      n := 0;
      while kernel != []
        invariant Valid() && sink.Valid() && old(sink.log) <= sink.log && SystemFits(History())
        invariant AllReady(s, Idle(n)) && History() == Run(s, Idle(n))
        invariant OfferedSince(offered, before, delivered, fd, sink.offered)
        decreases Work(History())
      {
        IdleOnce(s, n);
        StepWorks(History());
        IdleStepKeepsFits(History());
        WakeupAgain([], sink, before, offered);
        n := n + 1;
      }
    }
  }

  /** What a stream of messages ends in, whatever the pieces. */
  ghost predicate Served(fd: int, arrivals: seq<seq<Byte>>, messages: seq<WireMessage>, before: seq<Stamped>,
                         now: seq<Stamped>) {
    var s := Run(Start([]), arrivals);
    && now == before + Stamp(s.delivered, fd, |before| + 1)
    && s.delivered <= messages && (s.delivered == messages <==> KeepsPace(arrivals))
  }

  lemma StreamServed(fd: int, arrivals: seq<seq<Byte>>, n: nat, messages: seq<WireMessage>,
                     before: seq<Stamped>, delivered: seq<WireMessage>, now: seq<Stamped>)
    requires Concat(arrivals) == Stream(messages) && AllReady(Start([]), arrivals)
    requires ReceivedAfter(Run(Start([]), arrivals), n)
    requires delivered == Run(Run(Start([]), arrivals), Idle(n)).delivered
    requires OfferedSince(before, [], delivered, fd, now)
    ensures Finishes(arrivals, n) && Served(fd, arrivals + Idle(n), messages, before, now)
  {
    OfferedFromTheStart(before, delivered, fd, now);
    FinishedRun(arrivals, n);
    SentMessagesArrive(messages, arrivals + Idle(n));
  }

  /**
   From accept to the last byte, by the wakeups the reactor makes: whatever pieces a stream of serialised
   messages arrives in, all of it is received, and the queue is offered the first of the messages, in order,
   stamped with the connection and with consecutive numbers; all of them if and only if the receptions keep pace.
   */
  method ServeStream(fd: int, arrivals: seq<seq<Byte>>, sink: MessageSink, ghost messages: seq<WireMessage>)
    returns (ghost n: nat)
    requires sink.Valid() && Concat(arrivals) == Stream(messages) && AllReady(Start([]), arrivals)
    modifies sink, sink.ring, sink.ring.buffer
    ensures sink.Valid() && old(sink.log) <= sink.log && Finishes(arrivals, n)
    ensures Served(fd, arrivals + Idle(n), messages, old(sink.offered), sink.offered)
  {
    var client := new Client(fd);
    ghost var middle := Run(Start([]), arrivals);
    assert SystemFits(middle) by {
      StreamFits(messages);
      ReachedFromStart(arrivals);
    }
    n := client.ServeToTheEnd(arrivals, sink, middle);
    StreamServed(fd, arrivals, n, messages, old(sink.offered), client.delivered, sink.offered);
  }

  /** `s'` is `s` after a wakeup that settled the buffer to `c1`, received `n` bytes and parsed `t`. */
  ghost predicate WokenAs(s: System, arriving: seq<Byte>, c1: Conn, n: nat, t: Decoded, s': System) {
    var kernel := s.kernel + arriving;
    && ConnOk(s.conn) && c1 == Settle(s.conn) && n == Min(Budget(c1), |kernel|)
    && t == Take(MSG_LIMIT_PER_CONN, s.conn.mode, s.conn.unread + kernel[..n])
    && s'.conn.mode == t.mode && s'.conn.unread == t.rest && s'.conn.writePos == c1.writePos + n && ConnOk(s'.conn)
    && s'.kernel == kernel[n..] && s'.received == s.received + kernel[..n]
    && s'.delivered == s.delivered + t.messages && s'.frames == s.frames + t.frames
  }

  lemma WokenIsStep(s: System, arriving: seq<Byte>, c1: Conn, n: nat, t: Decoded, s': System)
    requires WokenAs(s, arriving, c1, n, t, s')
    ensures s' == Step(s, arriving)
  {
  }
}
