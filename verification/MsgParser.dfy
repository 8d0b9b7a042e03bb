/** The parser of a ready connection: resumes in mid message, stamps what it reads, stops after a few. */
module MsgParsers {
  import opened Wire
  import opened Decoder
  import opened ClientStates
  import opened MessageQueues
  import opened MessageSinks

  /** A complete struct of a known type, read from the buffer; nothing if it is not all there. */
  method ReadPayloadOf(state: ClientState, t: Byte) returns (found: bool, m: WireMessage)
    requires state.Valid() && KnownType(t)
    modifies state`readPos
    ensures state.Valid()
    ensures found <==> StructSize(t) <= |old(state.Unread())|
    ensures found ==> m == FromPayload(t, old(state.Unread())[..StructSize(t)])
                      && state.Unread() == old(state.Unread())[StructSize(t)..]
    ensures !found ==> state.Unread() == old(state.Unread())
  {
    m := WireCancelOrder(0);
    var buf := new Byte[StructSize(t)](_ => 0);
    var got := state.Read(buf, StructSize(t));
    if got == -1 {
      return false, m;
    }
    assert buf[..StructSize(t)] == old(state.Unread())[..StructSize(t)];
    m := Deserialise(buf, t);
    found := true;
  }

  /** The header to work on: the pending one, or the next one from the buffer if it is all there. */
  method NextHeader(state: ClientState) returns (found: bool)
    requires state.Valid()
    modifies state`readPos, state`parseState, state`pendingHeader
    ensures state.Valid()
    ensures found ==> state.parseState.ReadingPayload?
                      && Take(1, state.Mode(), state.Unread()) == Take(1, old(state.Mode()), old(state.Unread()))
    ensures !found ==> state.Mode() == old(state.Mode()) && state.Unread() == old(state.Unread())
                       && Take(1, state.Mode(), state.Unread()) == Decoded([], 0, state.Mode(), state.Unread())
  {
    if state.parseState.ReadingHeader? {
      ghost var bs := state.Unread();
      var raw := new Byte[HEADER_SIZE](_ => 0);
      var got := state.Read(raw, HEADER_SIZE);
      if got == -1 {
        return false;
      }
      assert raw[..] == bs[..HEADER_SIZE] && raw[1..] == bs[..HEADER_SIZE][1..];
      state.parseState := ReadingPayload;
      state.pendingHeader := OrderMsgHeader(raw[0], Value(raw[1..]));
    }
    found := true;
  }

  /** Read a struct of a known type and push its message, stamped; nothing if it is not all there. */
  method ReadAndPush(state: ClientState, sink: MessageSink, connectionId: int, t: Byte) returns (found: bool)
    requires state.Valid() && sink.Valid() && KnownType(t)
    modifies state`readPos, sink, sink.ring, sink.ring.buffer
    ensures state.Valid() && sink.Valid() && old(sink.log) <= sink.log
    ensures found <==> StructSize(t) <= |old(state.Unread())|
    ensures found ==> state.Unread() == old(state.Unread())[StructSize(t)..]
                      && sink.offered == old(sink.offered) +
                         Stamp([FromPayload(t, old(state.Unread())[..StructSize(t)])], connectionId, old(sink.nextSeq))
    ensures !found ==> state.Unread() == old(state.Unread()) && sink.offered == old(sink.offered)
  {
    var m;
    found, m := ReadPayloadOf(state, t);
    if found {
      sink.StampAndPush(m, connectionId);
    }
  }

  /** Drop the next bytes, if they are all there. */
  method Skip(state: ClientState, payloadLen: nat) returns (skipped: bool)
    requires state.Valid()
    modifies state`readPos
    ensures state.Valid()
    ensures skipped <==> payloadLen <= |old(state.Unread())|
    ensures state.Unread() == if skipped then old(state.Unread())[payloadLen..] else old(state.Unread())
  {
    var discard := new Byte[payloadLen](_ => 0);
    var got := state.Read(discard, payloadLen);
    skipped := got != -1;
  }

  /** The payload of the pending header: a message to push, or bytes to drop if its type is unknown. */
  method ParsePayload(state: ClientState, sink: MessageSink, connectionId: int) returns (parsed: bool)
    requires state.Valid() && sink.Valid() && state.parseState.ReadingPayload?
    modifies state`readPos, state`parseState, sink, sink.ring, sink.ring.buffer
    ensures state.Valid() && sink.Valid() && old(sink.log) <= sink.log
    ensures parsed == (Need(old(state.Mode())) <= |old(state.Unread())|)
    ensures state.Mode() == if parsed then AwaitingHeader else old(state.Mode())
    ensures state.Unread() == if parsed then old(state.Unread())[Need(old(state.Mode()))..] else old(state.Unread())
    ensures sink.offered == old(sink.offered) +
            if parsed then Stamp(ReadPayload(old(state.Mode()), old(state.Unread())[..Need(old(state.Mode()))]),
                                 connectionId, old(sink.nextSeq))
            else []
  {
    var header := state.pendingHeader;
    if KnownType(header.msgType) {
      parsed := ReadAndPush(state, sink, connectionId, header.msgType);
    } else {
      parsed := Skip(state, header.payloadLen);
    }
    if parsed {
      state.parseState := ReadingHeader;
    }
  }

  /** Read one frame if it is complete: push its message, or skip it if its type is unknown. */
  method ParseMessage(state: ClientState, sink: MessageSink, connectionId: int) returns (parsed: bool)
    requires state.Valid() && sink.Valid()
    modifies state`readPos, state`parseState, state`pendingHeader, sink, sink.ring, sink.ring.buffer
    ensures state.Valid() && sink.Valid() && old(sink.log) <= sink.log
    ensures var t := Take(1, old(state.Mode()), old(state.Unread()));
            && parsed == (t.frames == 1) && t.frames <= 1
            && state.Mode() == t.mode && state.Unread() == t.rest
            && sink.offered == old(sink.offered) + Stamp(t.messages, connectionId, old(sink.nextSeq))
  {
    parsed := NextHeader(state);
    if parsed {
      TakeOnePayload(state.Mode(), state.Unread());
      parsed := ParsePayload(state, sink, connectionId);
    }
  }

  /** `goal` is what was parsed already, then at most `limit` more frames. */
  ghost predicate Heading(goal: Decoded, messages: seq<WireMessage>, parsed: nat, limit: nat,
                          mode: Mode, bs: seq<Byte>) {
    goal == Before(messages, parsed, Take(limit, mode, bs))
  }

  lemma HeadingOn(goal: Decoded, messages: seq<WireMessage>, parsed: nat, limit: nat,
                  mode: Mode, bs: seq<Byte>, t: Decoded)
    requires limit > 0 && Heading(goal, messages, parsed, limit, mode, bs) && t == Take(1, mode, bs)
    ensures t.frames <= 1
    ensures Heading(goal, messages + t.messages, parsed + t.frames,
                    if t.frames == 1 then limit - 1 else 0, t.mode, t.rest)
  {
    assert t.frames <= 1 by {
      TakeThenDecode(1, mode, bs);
    }
    TakeOneMore(limit - 1, mode, bs);
    if t.frames == 1 {
      BeforeTwice(messages, parsed, t.messages, 1, Take(limit - 1, t.mode, t.rest));
    } else {
      assert messages + t.messages + [] == messages + t.messages;
    }
  }

  lemma Arrived(goal: Decoded, messages: seq<WireMessage>, parsed: nat, mode: Mode, bs: seq<Byte>)
    requires Heading(goal, messages, parsed, 0, mode, bs)
    ensures goal == Decoded(messages, parsed, mode, bs)
  {
    assert messages + [] == messages;
  }

  /** How far the loop has come: what it parsed, and what the queue was offered since `before`. */
  ghost predicate Come(goal: Decoded, messages: seq<WireMessage>, parsed: nat, limit: nat, mode: Mode, bs: seq<Byte>,
                       conn: int, before: seq<Stamped>, now: seq<Stamped>) {
    Heading(goal, messages, parsed, limit, mode, bs) && now == before + Stamp(messages, conn, |before| + 1)
  }

  lemma ComeNowhere(mode: Mode, bs: seq<Byte>, conn: int, before: seq<Stamped>)
    ensures Come(Take(MSG_LIMIT_PER_CONN, mode, bs), [], 0, MSG_LIMIT_PER_CONN, mode, bs, conn, before, before)
  {
  }

  lemma ComeOn(goal: Decoded, messages: seq<WireMessage>, parsed: nat, limit: nat, mode: Mode, bs: seq<Byte>,
               conn: int, before: seq<Stamped>, now: seq<Stamped>, t: Decoded, next: seq<Stamped>)
    requires limit > 0 && Come(goal, messages, parsed, limit, mode, bs, conn, before, now) && t == Take(1, mode, bs)
    requires next == now + Stamp(t.messages, conn, |now| + 1)
    ensures t.frames <= 1
    ensures Come(goal, messages + t.messages, parsed + t.frames, if t.frames == 1 then limit - 1 else 0, t.mode, t.rest,
                 conn, before, next)
  {
    HeadingOn(goal, messages, parsed, limit, mode, bs, t);
    StampConcat(messages, t.messages, conn, |before| + 1);
  }

  lemma ComeToTheEnd(goal: Decoded, messages: seq<WireMessage>, parsed: nat, mode: Mode, bs: seq<Byte>,
                     conn: int, before: seq<Stamped>, now: seq<Stamped>)
    requires Come(goal, messages, parsed, 0, mode, bs, conn, before, now)
    ensures goal == Decoded(messages, parsed, mode, bs) && now == before + Stamp(goal.messages, conn, |before| + 1)
  {
    Arrived(goal, messages, parsed, mode, bs);
  }

  /** Parse until nothing is complete, but no more than the limit of messages. */
  method ParseReadyClient(state: ClientState, sink: MessageSink, connectionId: int) returns (msgParsed: nat)
    requires state.Valid() && sink.Valid()
    modifies state`readPos, state`parseState, state`pendingHeader, sink, sink.ring, sink.ring.buffer
    ensures state.Valid() && sink.Valid() && old(sink.log) <= sink.log
    ensures var t := Take(MSG_LIMIT_PER_CONN, old(state.Mode()), old(state.Unread()));
            && msgParsed == t.frames && state.Mode() == t.mode && state.Unread() == t.rest
            && sink.offered == old(sink.offered) + Stamp(t.messages, connectionId, old(sink.nextSeq))
  {
    ghost var mode, bs, before := state.Mode(), state.Unread(), sink.offered;
    ghost var goal := Take(MSG_LIMIT_PER_CONN, mode, bs);
    ComeNowhere(mode, bs, connectionId, before);
    ghost var messages;
    msgParsed, messages := ParseWhileComplete(state, sink, connectionId, goal);
    ComeToTheEnd(goal, messages, msgParsed, state.Mode(), state.Unread(), connectionId, before, sink.offered);
  }

  /** The loop. */
  method ParseWhileComplete(state: ClientState, sink: MessageSink, connectionId: int, ghost goal: Decoded)
    returns (msgParsed: nat, ghost messages: seq<WireMessage>)
    requires state.Valid() && sink.Valid()
    requires Come(goal, [], 0, MSG_LIMIT_PER_CONN, state.Mode(), state.Unread(), connectionId, sink.offered,
                  sink.offered)
    modifies state`readPos, state`parseState, state`pendingHeader, sink, sink.ring, sink.ring.buffer
    ensures state.Valid() && sink.Valid() && old(sink.log) <= sink.log
    ensures Come(goal, messages, msgParsed, 0, state.Mode(), state.Unread(), connectionId, old(sink.offered),
                 sink.offered)
  {
    ghost var before := sink.offered;
    messages := [];
    msgParsed := 0;
    var more := true;
    while more && msgParsed < MSG_LIMIT_PER_CONN
      invariant state.Valid() && sink.Valid() && old(sink.log) <= sink.log && msgParsed <= MSG_LIMIT_PER_CONN
      invariant Come(goal, messages, msgParsed, if more then MSG_LIMIT_PER_CONN - msgParsed else 0,
                     state.Mode(), state.Unread(), connectionId, before, sink.offered)
      decreases more, MSG_LIMIT_PER_CONN - msgParsed
    {
      more, messages := ParseOnward(state, sink, connectionId, goal, messages, msgParsed, before);
      if more {
        msgParsed := msgParsed + 1;
      }
    }
  }

  /** One more message, seen from the whole run of the loop. */
  method ParseOnward(state: ClientState, sink: MessageSink, connectionId: int, ghost goal: Decoded,
                     ghost messages: seq<WireMessage>, ghost msgParsed: nat, ghost before: seq<Stamped>)
    returns (more: bool, ghost messages': seq<WireMessage>)
    requires state.Valid() && sink.Valid() && msgParsed < MSG_LIMIT_PER_CONN
    requires Come(goal, messages, msgParsed, MSG_LIMIT_PER_CONN - msgParsed, state.Mode(), state.Unread(),
                  connectionId, before, sink.offered)
    modifies state`readPos, state`parseState, state`pendingHeader, sink, sink.ring, sink.ring.buffer
    ensures state.Valid() && sink.Valid() && old(sink.log) <= sink.log
    ensures Come(goal, messages', if more then msgParsed + 1 else msgParsed,
                 if more then MSG_LIMIT_PER_CONN - msgParsed - 1 else 0, state.Mode(), state.Unread(),
                 connectionId, before, sink.offered)
  {
    ghost var mode, bs, now := state.Mode(), state.Unread(), sink.offered;
    ghost var t := Take(1, mode, bs);
    more := ParseMessage(state, sink, connectionId);
    messages' := messages + t.messages;
    ComeOn(goal, messages, msgParsed, MSG_LIMIT_PER_CONN - msgParsed, mode, bs, connectionId, before, now, t,
           sink.offered);
  }
}
