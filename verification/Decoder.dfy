/**
 What a byte stream means, and what a connection makes of it: a pure decoder of whole streams, the same
 decoder a few messages at a time, and a connection that receives in arbitrary pieces into a fixed buffer.
 */
module Decoder {
  import opened BookTypes
  import opened Wire

  const STATE_SIZE: nat := 1024
  const MSG_LIMIT_PER_CONN: nat := 4
  const READ_BYTE_BUDGET: nat := 256

  /** What the parser waits for: a header, or the payload of one it has read. */
  datatype Mode = AwaitingHeader | AwaitingPayload(msgType: Byte, payloadLen: nat)

  /** Bytes the parser wants before it goes on. Known types ignore the announced length. */
  function Need(mode: Mode): nat {
    if mode.AwaitingHeader? then HEADER_SIZE
    else if KnownType(mode.msgType) then StructSize(mode.msgType)
    else mode.payloadLen
  }

  function ReadHeader(bs: seq<Byte>): (m: Mode)
    requires |bs| == HEADER_SIZE
    ensures m.AwaitingPayload?
  {
    AwaitingPayload(bs[0], Value(bs[1..]))
  }

  /** A complete payload: one message of a known type, nothing of an unknown one. */
  function ReadPayload(mode: Mode, bs: seq<Byte>): seq<WireMessage>
    requires mode.AwaitingPayload? && |bs| == Need(mode)
  {
    if KnownType(mode.msgType) then [FromPayload(mode.msgType, bs)] else []
  }

  /** Messages read, frames consumed (unknown ones included), and where the reading stopped. */
  datatype Decoded = Decoded(messages: seq<WireMessage>, frames: nat, mode: Mode, rest: seq<Byte>)

  function Before(messages: seq<WireMessage>, frames: nat, d: Decoded): Decoded {
    d.(messages := messages + d.messages, frames := frames + d.frames)
  }

  /** Decode as far as the bytes go. */
  function Decode(mode: Mode, bs: seq<Byte>): Decoded
    decreases |bs|, mode.AwaitingPayload?
  {
    var n := Need(mode);
    if |bs| < n then Decoded([], 0, mode, bs)
    else if mode.AwaitingHeader? then Decode(ReadHeader(bs[..n]), bs[n..])
    else Before(ReadPayload(mode, bs[..n]), 1, Decode(AwaitingHeader, bs[n..]))
  }

  /** Decode at most `limit` frames. */
  function Take(limit: nat, mode: Mode, bs: seq<Byte>): (d: Decoded)
    ensures |d.rest| <= |bs|
    decreases |bs|, mode.AwaitingPayload?
  {
    var n := Need(mode);
    if limit == 0 || |bs| < n then Decoded([], 0, mode, bs)
    else if mode.AwaitingHeader? then Take(limit, ReadHeader(bs[..n]), bs[n..])
    else Before(ReadPayload(mode, bs[..n]), 1, Take(limit - 1, AwaitingHeader, bs[n..]))
  }

  // ----- splitting a stream -----

  /** Bytes that arrive later change nothing of what is decoded already: decode, append, go on. */
  lemma {:induction false} DecodeSplits(mode: Mode, a: seq<Byte>, b: seq<Byte>)
    ensures var d := Decode(mode, a);
            Decode(mode, a + b) == Before(d.messages, d.frames, Decode(d.mode, d.rest + b))
    decreases |a|, mode.AwaitingPayload?
  {
    var n := Need(mode);
    if |a| >= n {
      assert (a + b)[..n] == a[..n] && (a + b)[n..] == a[n..] + b;
      if mode.AwaitingHeader? {
        DecodeSplits(ReadHeader(a[..n]), a[n..], b);
      } else {
        DecodeSplits(AwaitingHeader, a[n..], b);
        var d := Decode(AwaitingHeader, a[n..]);
        var e := Decode(d.mode, d.rest + b);
        BeforeTwice(ReadPayload(mode, a[..n]), 1, d.messages, d.frames, e);
      }
    }
  }

  lemma BeforeTwice(m: seq<WireMessage>, i: nat, n: seq<WireMessage>, j: nat, d: Decoded)
    ensures Before(m, i, Before(n, j, d)) == Before(m + n, i + j, d)
  {
  }

  /** Taking some frames first is decoding them first. */
  lemma {:induction false} TakeThenDecode(limit: nat, mode: Mode, bs: seq<Byte>)
    ensures var t := Take(limit, mode, bs);
            && Decode(mode, bs) == Before(t.messages, t.frames, Decode(t.mode, t.rest))
            && t.frames == Min(limit, Decode(mode, bs).frames)
            && (t.frames < limit ==> Decode(t.mode, t.rest) == Decoded([], 0, t.mode, t.rest))
    decreases |bs|, mode.AwaitingPayload?
  {
    var n := Need(mode);
    if limit != 0 && |bs| >= n {
      if mode.AwaitingHeader? {
        TakeThenDecode(limit, ReadHeader(bs[..n]), bs[n..]);
      } else {
        TakeThenDecode(limit - 1, AwaitingHeader, bs[n..]);
        var t := Take(limit - 1, AwaitingHeader, bs[n..]);
        BeforeTwice(ReadPayload(mode, bs[..n]), 1, t.messages, t.frames, Decode(t.mode, t.rest));
      }
    }
  }

  /** The payload step of taking one frame, spelled out. */
  lemma TakeOnePayload(mode: Mode, bs: seq<Byte>)
    requires mode.AwaitingPayload?
    ensures Take(1, mode, bs) ==
            if |bs| < Need(mode) then Decoded([], 0, mode, bs)
            else Decoded(ReadPayload(mode, bs[..Need(mode)]), 1, AwaitingHeader, bs[Need(mode)..])
  {
    if |bs| >= Need(mode) {
      var payload := ReadPayload(mode, bs[..Need(mode)]);
      assert payload + [] == payload;
    }
  }

  /** Taking one frame and then more is taking them all. */
  lemma {:induction false} TakeOneMore(limit: nat, mode: Mode, bs: seq<Byte>)
    ensures var t := Take(1, mode, bs);
            Take(limit + 1, mode, bs) ==
            if t.frames == 0 then t else Before(t.messages, t.frames, Take(limit, t.mode, t.rest))
    decreases |bs|, mode.AwaitingPayload?
  {
    var n := Need(mode);
    if |bs| >= n && mode.AwaitingHeader? {
      TakeOneMore(limit, ReadHeader(bs[..n]), bs[n..]);
    }
  }

  // ----- well-formed streams -----

  function Stream(messages: seq<WireMessage>): seq<Byte> {
    if messages == [] then [] else Frame(messages[0]) + Stream(messages[1..])
  }

  // ----- what bytes mean, in full -----

  /** A header: the type, then the announced length, low byte first. */
  lemma HeaderIsRead(t: Byte, lo: Byte, hi: Byte)
    ensures ReadHeader([t, lo, hi]) == AwaitingPayload(t, lo + 256 * hi)
  {
    var bs: seq<Byte> := [t, lo, hi];
    assert bs[1..] == [lo, hi] && bs[1..][1..] == [hi] && bs[1..][1..][1..] == [];
    assert Value(bs[1..]) == lo + 256 * Value(bs[1..][1..]);
    assert Value(bs[1..][1..]) == hi + 256 * Value(bs[1..][1..][1..]);
  }

  /** How many bytes follow a header: the struct of a known type, the announced number for any other. */
  function PayloadSize(t: Byte, lo: Byte, hi: Byte): nat {
    if t == 1 then 27 else if t == 2 then 8 else if t == 3 then 24 else lo + 256 * hi
  }

  /** Of a complete frame: a message of a known type is its struct, an unknown one is skipped; and then on. */
  lemma FrameMeans(t: Byte, lo: Byte, hi: Byte, payload: seq<Byte>, more: seq<Byte>)
    requires |payload| == PayloadSize(t, lo, hi)
    ensures var d, rest := Decode(AwaitingHeader, [t, lo, hi] + payload + more), Decode(AwaitingHeader, more);
            && d.frames == 1 + rest.frames && d.mode == rest.mode && d.rest == rest.rest
            && (if t == 1 || t == 2 || t == 3 then
                  && d.messages != [] && d.messages[1..] == rest.messages && StructOf(d.messages[0], payload)
                  && (t == 1 <==> d.messages[0].WireAddOrder?) && (t == 2 <==> d.messages[0].WireCancelOrder?)
                else d.messages == rest.messages)
  {
    var bs := [t, lo, hi] + payload + more;
    var mode := ReadHeader([t, lo, hi]);
    HeaderIsRead(t, lo, hi);
    assert bs[..3] == [t, lo, hi] && bs[3..] == payload + more;
    assert (payload + more)[..|payload|] == payload && (payload + more)[|payload|..] == more;
    assert Decode(mode, payload + more) == Before(ReadPayload(mode, payload), 1, Decode(AwaitingHeader, more));
    if KnownType(t) {
      ReadIsStruct(t, payload);
    }
  }

  /** Of an incomplete one, nothing is made yet: the header is remembered once it is there. */
  lemma PartMeansNothing(bs: seq<Byte>)
    requires |bs| >= 3 ==> |bs| - 3 < PayloadSize(bs[0], bs[1], bs[2])
    ensures Decode(AwaitingHeader, bs) ==
            if |bs| < 3 then Decoded([], 0, AwaitingHeader, bs)
            else
              var lo: nat, hi: nat := bs[1], bs[2];
              Decoded([], 0, AwaitingPayload(bs[0], lo + 256 * hi), bs[3..])
  {
    if |bs| >= 3 {
      HeaderIsRead(bs[0], bs[1], bs[2]);
      assert bs[..3] == [bs[0], bs[1], bs[2]];
    }
  }

  /** A message of a known type is read whole whatever length its header announces. */
  lemma AnnouncedLengthIsIgnored(m: WireMessage, announced: nat, more: seq<Byte>)
    ensures Decode(AwaitingHeader, Header(TypeOf(m), announced) + Payload(m) + more) ==
            Before([m], 1, Decode(AwaitingHeader, more))
  {
    var t := TypeOf(m);
    var size := StructSize(t);
    var bs := Header(t, announced) + Payload(m) + more;
    assert bs[..HEADER_SIZE] == Header(t, announced);
    assert bs[HEADER_SIZE..] == Payload(m) + more;
    var mode := ReadHeader(Header(t, announced));
    assert (Payload(m) + more)[..size] == Payload(m) && (Payload(m) + more)[size..] == more;
    PayloadRoundTrip(m);
    assert Decode(mode, Payload(m) + more) == Before([m], 1, Decode(AwaitingHeader, more));
  }

  /** A frame of an unknown type is skipped by its announced length, and decoding resumes behind it. */
  lemma UnknownTypeIsSkipped(t: Byte, payload: seq<Byte>, more: seq<Byte>)
    requires !KnownType(t) && |payload| < 0x1_0000
    ensures Decode(AwaitingHeader, Header(t, |payload|) + payload + more) ==
            Before([], 1, Decode(AwaitingHeader, more))
  {
    var n := |payload|;
    var bs := Header(t, n) + payload + more;
    var mode := ReadHeader(Header(t, n));
    assert mode == AwaitingPayload(t, n) by {
      EightBytes();
      ValueOfBytes(n, 2);
      assert Header(t, n)[1..] == Bytes(n, 2);
    }
    assert bs[..HEADER_SIZE] == Header(t, n) && bs[HEADER_SIZE..] == payload + more;
    assert (payload + more)[n..] == more;
    assert Decode(mode, payload + more) == Before([], 1, Decode(AwaitingHeader, more));
  }

  /** Decoding what was serialised gives the messages back, all of them and nothing else. */
  lemma {:induction false} StreamRoundTrip(messages: seq<WireMessage>)
    ensures Decode(AwaitingHeader, Stream(messages)) == Decoded(messages, |messages|, AwaitingHeader, [])
  {
    if messages != [] {
      AnnouncedLengthIsIgnored(messages[0], StructSize(TypeOf(messages[0])), Stream(messages[1..]));
      StreamRoundTrip(messages[1..]);
    }
  }
}
