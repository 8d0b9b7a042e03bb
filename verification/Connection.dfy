/**
 One client connection as a transition system: the kernel holds bytes, each wakeup settles the buffer,
 receives what fits within the budget, and parses a few messages.
 */
module Connections {
  import opened BookTypes
  import opened Wire
  import opened Decoder

  /** A connection's parse mode, cursors and unread bytes. */
  datatype Conn = Conn(mode: Mode, readPos: nat, writePos: nat, unread: seq<Byte>)

  predicate ConnOk(c: Conn) {
    c.readPos + |c.unread| == c.writePos <= STATE_SIZE
  }

  /** Make room: rewind an empty buffer, move the unread bytes of a full one to the front. */
  function Settle(c: Conn): (r: Conn)
    requires ConnOk(c)
    ensures ConnOk(r) && r.mode == c.mode && r.unread == c.unread
    ensures r.writePos == STATE_SIZE <==> |c.unread| == STATE_SIZE
  {
    if c.readPos == c.writePos then c.(readPos := 0, writePos := 0)
    else if c.writePos == STATE_SIZE then c.(readPos := 0, writePos := |c.unread|)
    else c
  }

  /** How many bytes a wakeup asks for. */
  function Budget(c: Conn): nat
    requires ConnOk(c)
  {
    Min(STATE_SIZE - c.writePos, READ_BYTE_BUDGET)
  }

  datatype Woken = Woken(conn: Conn, received: nat, messages: seq<WireMessage>, frames: nat)

  /** One wakeup of a connection for which the kernel holds `kernel`. */
  function Wake(c: Conn, kernel: seq<Byte>): (w: Woken)
    requires ConnOk(c)
    ensures ConnOk(w.conn) && w.received <= |kernel|
  {
    var c1 := Settle(c);
    var n := Min(Budget(c1), |kernel|);
    var t := Take(MSG_LIMIT_PER_CONN, c.mode, c.unread + kernel[..n]);
    Woken(Conn(t.mode, c1.writePos + n - |t.rest|, c1.writePos + n, t.rest), n, t.messages, t.frames)
  }

  /** A connection with its kernel queue, all it ever received and all it ever delivered. */
  datatype System = System(
    conn: Conn,
    kernel: seq<Byte>,
    received: seq<Byte>,
    delivered: seq<WireMessage>,
    frames: nat)

  function Start(kernel: seq<Byte>): System {
    System(Conn(AwaitingHeader, 0, 0, []), kernel, [], [], 0)
  }

  /** Some bytes arrive at the kernel, then the connection wakes up. */
  function Step(s: System, arriving: seq<Byte>): System
    requires ConnOk(s.conn)
  {
    var kernel := s.kernel + arriving;
    var w := Wake(s.conn, kernel);
    System(w.conn, kernel[w.received..], s.received + kernel[..w.received], s.delivered + w.messages,
           s.frames + w.frames)
  }

  /** A step from its parts. */
  lemma StepIs(s: System, arriving: seq<Byte>, kernel: seq<Byte>, n: nat, bs: seq<Byte>, t: Decoded)
    requires ConnOk(s.conn) && kernel == s.kernel + arriving && n == Min(Budget(Settle(s.conn)), |kernel|)
    requires bs == s.conn.unread + kernel[..n] && t == Take(MSG_LIMIT_PER_CONN, s.conn.mode, bs)
    ensures var s' := Step(s, arriving);
            && s'.conn.mode == t.mode && s'.conn.unread == t.rest && s'.kernel == kernel[n..]
            && s'.received == s.received + kernel[..n]
            && s'.delivered == s.delivered + t.messages && s'.frames == s.frames + t.frames
  {
  }

  function Run(s: System, arrivals: seq<seq<Byte>>): (r: System)
    requires ConnOk(s.conn)
    ensures ConnOk(r.conn)
    decreases |arrivals|
  {
    if arrivals == [] then s else Run(Step(s, arrivals[0]), arrivals[1..])
  }

  lemma RunOnward(s: System, arrivals: seq<seq<Byte>>, i: nat)
    requires ConnOk(s.conn) && i < |arrivals|
    ensures Run(s, arrivals[i..]) == Run(Step(s, arrivals[i]), arrivals[i + 1..])
  {
    assert arrivals[i..][1..] == arrivals[i + 1..];
  }

  // ----- safety: chunking does not matter -----

  /** Delivered so far, then the decoding of what is unread, is the decoding of all that was received. */
  predicate Sound(s: System) {
    ConnOk(s.conn) &&
    Decode(AwaitingHeader, s.received) == Before(s.delivered, s.frames, Decode(s.conn.mode, s.conn.unread))
  }

  lemma StepKeepsSound(s: System, arriving: seq<Byte>)
    requires Sound(s)
    ensures Sound(Step(s, arriving))
  {
    var kernel := s.kernel + arriving;
    var chunk := kernel[..Wake(s.conn, kernel).received];
    var d := Decode(s.conn.mode, s.conn.unread);
    DecodeSplits(AwaitingHeader, s.received, chunk);
    DecodeSplits(s.conn.mode, s.conn.unread, chunk);
    var all := Decode(s.conn.mode, s.conn.unread + chunk);
    BeforeTwice(s.delivered, s.frames, d.messages, d.frames, Decode(d.mode, d.rest + chunk));
    assert Decode(AwaitingHeader, s.received + chunk) == Before(s.delivered, s.frames, all);
    TakeThenDecode(MSG_LIMIT_PER_CONN, s.conn.mode, s.conn.unread + chunk);
    var t := Take(MSG_LIMIT_PER_CONN, s.conn.mode, s.conn.unread + chunk);
    BeforeTwice(s.delivered, s.frames, t.messages, t.frames, Decode(t.mode, t.rest));
  }

  function Concat(arrivals: seq<seq<Byte>>): seq<Byte> {
    if arrivals == [] then [] else arrivals[0] + Concat(arrivals[1..])
  }

  lemma {:induction false} RunKeepsSound(s: System, arrivals: seq<seq<Byte>>)
    requires Sound(s)
    ensures Sound(Run(s, arrivals))
    ensures Run(s, arrivals).received + Run(s, arrivals).kernel == s.received + s.kernel + Concat(arrivals)
    decreases |arrivals|
  {
    if arrivals != [] {
      StepKeepsSound(s, arrivals[0]);
      RunKeepsSound(Step(s, arrivals[0]), arrivals[1..]);
      NothingLost(s, arrivals[0], Concat(arrivals[1..]));
    }
  }

  lemma NothingLost(s: System, arriving: seq<Byte>, later: seq<Byte>)
    requires ConnOk(s.conn)
    ensures Step(s, arriving).received + Step(s, arriving).kernel + later == s.received + s.kernel + (arriving + later)
  {
  }

  /** For every stream, every way of cutting it up and any number of wakeups. */
  lemma ChunkingIndependence(arrivals: seq<seq<Byte>>)
    ensures var s := Run(Start([]), arrivals);
            && s.received + s.kernel == Concat(arrivals)
            && var left := Decode(s.conn.mode, s.conn.unread);
            && var whole := Decode(AwaitingHeader, s.received);
            && s.delivered + left.messages == whole.messages
            && left.mode == whole.mode && left.rest == whole.rest
  {
    assert Decode(AwaitingHeader, []) == Decoded([], 0, AwaitingHeader, []);
    RunKeepsSound(Start([]), arrivals);
  }
}
