/** The order wire protocol: a packed header, then a packed struct per message kind, little endian. */
module Wire {
  import opened BookTypes
  import opened BitMask

  type Byte = b: nat | b < 256
  type Word64 = w: nat | w < WORD
  type Int64 = i: int | -(WORD / 2) <= i < WORD / 2

  // ----- integers -----

  /** `n` bytes of `v`, least significant first. */
  function Bytes(v: nat, n: nat): (bs: seq<Byte>)
    ensures |bs| == n
  {
    if n == 0 then [] else [v % 256] + Bytes(v / 256, n - 1)
  }

  function Value(bs: seq<Byte>): nat {
    if bs == [] then 0 else bs[0] + 256 * Value(bs[1..])
  }

  function Bound(n: nat): (b: nat)
    ensures b > 0
  {
    if n == 0 then 1 else 256 * Bound(n - 1)
  }

  lemma {:induction false} ValueOfBytes(v: nat, n: nat)
    requires v < Bound(n)
    ensures Value(Bytes(v, n)) == v
  {
    if n > 0 {
      ValueOfBytes(v / 256, n - 1);
      assert Bytes(v, n)[1..] == Bytes(v / 256, n - 1);
    }
  }

  lemma {:induction false} BytesOfValue(bs: seq<Byte>)
    ensures Value(bs) < Bound(|bs|) && Bytes(Value(bs), |bs|) == bs
  {
    if bs != [] {
      BytesOfValue(bs[1..]);
      var v := Value(bs[1..]);
      LowByte(bs[0], v);
      assert [bs[0]] + bs[1..] == bs;
    }
  }

  lemma LowByte(b: Byte, v: nat)
    ensures (b + 256 * v) % 256 == b && (b + 256 * v) / 256 == v
  {
  }

  lemma EightBytes()
    ensures Bound(8) == WORD && Bound(2) == 0x1_0000
  {
    assert Bound(4) == 0x1_0000_0000;
    assert Bound(6) == 0x1_0000 * Bound(4);
  }

  /** Two's complement. */
  function Unsigned(i: Int64): Word64 {
    if i >= 0 then i else i + WORD
  }

  function Signed(w: Word64): Int64 {
    if w < WORD / 2 then w else w - WORD
  }

  function Word(bs: seq<Byte>): Word64
    requires |bs| == 8
  {
    EightBytes();
    BytesOfValue(bs);
    Value(bs)
  }

  lemma WordOfBytes(w: Word64)
    ensures Word(Bytes(w, 8)) == w
  {
    EightBytes();
    ValueOfBytes(w, 8);
  }

  // ----- messages -----

  /** What travels: enumerations are raw bytes, nothing is checked. */
  datatype WireMessage =
    | WireAddOrder(orderType: Byte, tif: Byte, clientOrderId: Word64, price: Int64, quantity: Int64, side: Byte)
    | WireCancelOrder(orderId: Word64)
    | WireModifyOrder(orderId: Word64, newPrice: Int64, newQuantity: Int64)

  const ADD_ORDER: Byte := 1
  const CANCEL_ORDER: Byte := 2
  const MODIFY_ORDER: Byte := 3
  const HEADER_SIZE := 3

  predicate KnownType(t: Byte) {
    t == ADD_ORDER || t == CANCEL_ORDER || t == MODIFY_ORDER
  }

  /** Size of the packed struct of a known type. */
  function StructSize(t: Byte): nat
    requires KnownType(t)
  {
    if t == ADD_ORDER then 27 else if t == CANCEL_ORDER then 8 else 24
  }

  function TypeOf(m: WireMessage): (t: Byte)
    ensures KnownType(t)
  {
    match m
    case WireAddOrder(_, _, _, _, _, _) => ADD_ORDER
    case WireCancelOrder(_) => CANCEL_ORDER
    case WireModifyOrder(_, _, _) => MODIFY_ORDER
  }

  function Payload(m: WireMessage): (bs: seq<Byte>)
    ensures |bs| == StructSize(TypeOf(m))
  {
    match m
    case WireAddOrder(orderType, tif, id, price, quantity, side) =>
      [orderType, tif] + Bytes(id, 8) + Bytes(Unsigned(price), 8) + Bytes(Unsigned(quantity), 8) + [side]
    case WireCancelOrder(id) => Bytes(id, 8)
    case WireModifyOrder(id, price, quantity) =>
      Bytes(id, 8) + Bytes(Unsigned(price), 8) + Bytes(Unsigned(quantity), 8)
  }

  function FromPayload(t: Byte, bs: seq<Byte>): (m: WireMessage)
    requires KnownType(t) && |bs| == StructSize(t)
    ensures TypeOf(m) == t
  {
    if t == ADD_ORDER then
      WireAddOrder(bs[0], bs[1], Word(bs[2..10]), Signed(Word(bs[10..18])), Signed(Word(bs[18..26])), bs[26])
    else if t == CANCEL_ORDER then WireCancelOrder(Word(bs))
    else WireModifyOrder(Word(bs[0..8]), Signed(Word(bs[8..16])), Signed(Word(bs[16..24])))
  }

  lemma IntOfBytes(i: Int64)
    ensures Signed(Word(Bytes(Unsigned(i), 8))) == i
  {
    WordOfBytes(Unsigned(i));
  }

  /** Reading back what was written. */
  lemma PayloadRoundTrip(m: WireMessage)
    ensures FromPayload(TypeOf(m), Payload(m)) == m
  {
    var bs := Payload(m);
    match m
    case WireAddOrder(_, _, id, price, quantity, _) =>
      assert bs[2..10] == Bytes(id, 8);
      assert bs[10..18] == Bytes(Unsigned(price), 8);
      assert bs[18..26] == Bytes(Unsigned(quantity), 8);
      WordOfBytes(id);
      IntOfBytes(price);
      IntOfBytes(quantity);
    case WireCancelOrder(id) =>
      WordOfBytes(id);
    case WireModifyOrder(id, price, quantity) =>
      assert bs[0..8] == Bytes(id, 8);
      assert bs[8..16] == Bytes(Unsigned(price), 8);
      assert bs[16..24] == Bytes(Unsigned(quantity), 8);
      WordOfBytes(id);
      IntOfBytes(price);
      IntOfBytes(quantity);
  }

  lemma BytesOfWord(bs: seq<Byte>)
    requires |bs| == 8
    ensures Bytes(Word(bs), 8) == bs
    ensures Bytes(Unsigned(Signed(Word(bs))), 8) == bs
  {
    BytesOfValue(bs);
    EightBytes();
  }

  lemma AddPayloadOnto(bs: seq<Byte>)
    requires |bs| == 27
    ensures Payload(FromPayload(ADD_ORDER, bs)) == bs
  {
    var id, price, quantity := bs[2..10], bs[10..18], bs[18..26];
    assert bs == [bs[0], bs[1]] + id + price + quantity + [bs[26]];
    assert Bytes(Word(id), 8) == id by { BytesOfWord(id); }
    assert Bytes(Unsigned(Signed(Word(price))), 8) == price by { BytesOfWord(price); }
    assert Bytes(Unsigned(Signed(Word(quantity))), 8) == quantity by { BytesOfWord(quantity); }
  }

  lemma ModifyPayloadOnto(bs: seq<Byte>)
    requires |bs| == 24
    ensures Payload(FromPayload(MODIFY_ORDER, bs)) == bs
  {
    var id, price, quantity := bs[0..8], bs[8..16], bs[16..24];
    assert bs == id + price + quantity;
    assert Bytes(Word(id), 8) == id by { BytesOfWord(id); }
    assert Bytes(Unsigned(Signed(Word(price))), 8) == price by { BytesOfWord(price); }
    assert Bytes(Unsigned(Signed(Word(quantity))), 8) == quantity by { BytesOfWord(quantity); }
  }

  /** Writing back what was read: every payload of the right size is the payload of exactly one message. */
  lemma PayloadOnto(t: Byte, bs: seq<Byte>)
    requires KnownType(t) && |bs| == StructSize(t)
    ensures Payload(FromPayload(t, bs)) == bs
  {
    if t == ADD_ORDER {
      AddPayloadOnto(bs);
    } else if t == CANCEL_ORDER {
      BytesOfWord(bs);
    } else {
      ModifyPayloadOnto(bs);
    }
  }

  // ----- frames -----

  function Header(t: Byte, payloadLen: nat): seq<Byte> {
    [t] + Bytes(payloadLen, 2)
  }

  function Frame(m: WireMessage): seq<Byte> {
    Header(TypeOf(m), StructSize(TypeOf(m))) + Payload(m)
  }

  lemma {:induction false} ByteOf(v: nat, n: nat, k: nat)
    requires k < n
    ensures Bytes(v, n)[k] == (v / Bound(k)) % 256
  {
    if k == 0 {
      assert v / 1 == v;
    } else {
      ByteOf(v / 256, n - 1, k - 1);
      DivideTwice(v, 256, Bound(k - 1));
    }
  }

  lemma DivideTwice(v: nat, a: nat, b: nat)
    requires a > 0 && b > 0
    ensures a * b > 0 && (v / a) / b == v / (a * b)
  {
    var q, r := v / a / b, v / a % b;
    assert v / a == q * b + r;
    assert v == a * (v / a) + v % a;
    assert a * (q * b + r) == (a * b) * q + a * r;
    assert a * r + v % a < a * b by {
      assert a * r <= a * (b - 1);
    }
    DivIs(v, a * b, q, a * r + v % a);
  }

  lemma DivIs(x: int, m: int, q: int, r: int)
    requires 0 <= r < m && x == m * q + r
    ensures x / m == q
  {
    ModIs(x, m, q, r);
    var d := q - x / m;
    assert d * m == m * q - m * (x / m) == 0;
    if d != 0 {
      MultipleIsFar(d, m);
    }
  }

  // ----- layout, byte by byte -----

  /** Byte `k` of a number, least significant first; of a negative one in two's complement. */
  function ByteAt(v: int, k: nat): int {
    (v / Bound(k)) % 256
  }

  /** Eight bytes from position `i` on are those of `v`. */
  ghost predicate WordAt(bs: seq<Byte>, i: nat, v: int) {
    i + 8 <= |bs| && forall k :: 0 <= k < 8 ==> bs[i + k] == ByteAt(v, k)
  }

  /** The packed struct of a message: every field at its offset. */
  ghost predicate StructOf(m: WireMessage, bs: seq<Byte>) {
    match m
    case WireAddOrder(orderType, tif, id, price, quantity, side) =>
      && |bs| == 27 && bs[0] == orderType && bs[1] == tif
      && WordAt(bs, 2, id) && WordAt(bs, 10, price) && WordAt(bs, 18, quantity) && bs[26] == side
    case WireCancelOrder(id) => |bs| == 8 && WordAt(bs, 0, id)
    case WireModifyOrder(id, price, quantity) =>
      |bs| == 24 && WordAt(bs, 0, id) && WordAt(bs, 8, price) && WordAt(bs, 16, quantity)
  }

  /** A header of three bytes, then the struct. */
  ghost predicate FrameOf(m: WireMessage, bs: seq<Byte>) {
    && |bs| >= 3 && StructOf(m, bs[3..]) && bs[2] == 0
    && match m
       case WireAddOrder(_, _, _, _, _, _) => bs[0] == 1 && bs[1] == 27
       case WireCancelOrder(_) => bs[0] == 2 && bs[1] == 8
       case WireModifyOrder(_, _, _) => bs[0] == 3 && bs[1] == 24
  }

  lemma {:induction false} BoundSum(a: nat, b: nat)
    ensures Bound(a + b) == Bound(a) * Bound(b)
  {
    if a > 0 {
      BoundSum(a - 1, b);
      assert Bound(a + b) == 256 * (Bound(a - 1) * Bound(b)) == (256 * Bound(a - 1)) * Bound(b);
    }
  }

  /** The bytes of a negative number are those of its two's complement. */
  lemma SignedByte(i: Int64, k: nat)
    requires k < 8
    ensures ByteAt(Unsigned(i), k) == ByteAt(i, k)
  {
    if i < 0 {
      var b, c := Bound(k), Bound(7 - k);
      assert WORD == b * (256 * c) by {
        EightBytes();
        BoundSum(k, 8 - k);
        assert Bound(8 - k) == 256 * c;
      }
      ShiftQuotient(i, b, c);
    }
  }

  lemma ShiftQuotient(i: int, b: nat, c: nat)
    requires b > 0
    ensures ((i + b * (256 * c)) / b) % 256 == (i / b) % 256
  {
    var q, r := i / b, i % b;
    assert i + b * (256 * c) == b * (q + 256 * c) + r by {
      assert i == b * q + r;
      assert b * (q + 256 * c) == b * q + b * (256 * c);
    }
    DivIs(i + b * (256 * c), b, q + 256 * c, r);
  }

  lemma WordIsBytes(v: Word64)
    ensures WordAt(Bytes(v, 8), 0, v)
  {
    forall k | 0 <= k < 8
      ensures Bytes(v, 8)[0 + k] == ByteAt(v, k)
    {
      ByteOf(v, 8, k);
    }
  }

  lemma IntIsBytes(i: Int64)
    ensures WordAt(Bytes(Unsigned(i), 8), 0, i)
  {
    WordIsBytes(Unsigned(i));
    forall k | 0 <= k < 8
      ensures Bytes(Unsigned(i), 8)[0 + k] == ByteAt(i, k)
    {
      SignedByte(i, k);
    }
  }

  lemma WordWithin(a: seq<Byte>, w: seq<Byte>, b: seq<Byte>, v: int)
    requires |w| == 8 && WordAt(w, 0, v)
    ensures WordAt(a + w + b, |a|, v)
  {
    forall k | 0 <= k < 8
      ensures (a + w + b)[|a| + k] == ByteAt(v, k)
    {
      assert (a + w + b)[|a| + k] == w[0 + k];
    }
  }

  lemma AddIsStruct(m: WireMessage)
    requires m.WireAddOrder?
    ensures StructOf(m, Payload(m))
  {
    var bs, front := Payload(m), [m.orderType, m.tif];
    var id, price, quantity := Bytes(m.clientOrderId, 8), Bytes(Unsigned(m.price), 8), Bytes(Unsigned(m.quantity), 8);
    WordIsBytes(m.clientOrderId);
    IntIsBytes(m.price);
    IntIsBytes(m.quantity);
    WordWithin(front, id, price + quantity + [m.side], m.clientOrderId);
    WordWithin(front + id, price, quantity + [m.side], m.price);
    WordWithin(front + id + price, quantity, [m.side], m.quantity);
    assert bs == front + id + (price + quantity + [m.side]);
    assert bs == (front + id) + price + (quantity + [m.side]);
    assert bs == (front + id + price) + quantity + [m.side];
  }

  lemma ModifyIsStruct(m: WireMessage)
    requires m.WireModifyOrder?
    ensures StructOf(m, Payload(m))
  {
    var bs := Payload(m);
    var id, price, quantity := Bytes(m.orderId, 8), Bytes(Unsigned(m.newPrice), 8), Bytes(Unsigned(m.newQuantity), 8);
    WordIsBytes(m.orderId);
    IntIsBytes(m.newPrice);
    IntIsBytes(m.newQuantity);
    WordWithin([], id, price + quantity, m.orderId);
    WordWithin(id, price, quantity, m.newPrice);
    WordWithin(id + price, quantity, [], m.newQuantity);
    assert bs == [] + id + (price + quantity);
    assert bs == id + price + quantity;
    assert bs == (id + price) + quantity + [];
  }

  /** The payload of a message is its packed struct. */
  lemma PayloadIsStruct(m: WireMessage)
    ensures StructOf(m, Payload(m))
  {
    match m
    case WireAddOrder(_, _, _, _, _, _) => AddIsStruct(m);
    case WireCancelOrder(id) => WordIsBytes(id);
    case WireModifyOrder(_, _, _) => ModifyIsStruct(m);
  }

  /** Every field of every message, byte by byte. */
  lemma FrameLayout(m: WireMessage)
    ensures FrameOf(m, Frame(m))
  {
    var size := StructSize(TypeOf(m));
    PayloadIsStruct(m);
    assert Frame(m)[3..] == Payload(m);
    ByteOf(size, 2, 0);
    ByteOf(size, 2, 1);
    assert Bound(0) == 1 && Bound(1) == 256;
  }

  /** What is read from a packed struct is the message whose struct it is. */
  lemma ReadIsStruct(t: Byte, bs: seq<Byte>)
    requires KnownType(t) && |bs| == StructSize(t)
    ensures StructOf(FromPayload(t, bs), bs)
  {
    PayloadOnto(t, bs);
    PayloadIsStruct(FromPayload(t, bs));
  }

  lemma SameWord(a: seq<Byte>, b: seq<Byte>, i: nat, v: int)
    requires WordAt(a, i, v) && WordAt(b, i, v)
    ensures a[i..i + 8] == b[i..i + 8]
  {
    var x, y := a[i..i + 8], b[i..i + 8];
    forall k | 0 <= k < 8
      ensures x[k] == y[k]
    {
      assert a[i + k] == ByteAt(v, k) && b[i + k] == ByteAt(v, k);
    }
  }

  lemma AddStructIsPayload(m: WireMessage, p: seq<Byte>, bs: seq<Byte>)
    requires m.WireAddOrder? && StructOf(m, p) && StructOf(m, bs)
    ensures p == bs
  {
    SameWord(p, bs, 2, m.clientOrderId);
    SameWord(p, bs, 10, m.price);
    SameWord(p, bs, 18, m.quantity);
    assert p == p[..2] + p[2..10] + p[10..18] + p[18..26] + [p[26]];
    assert bs == bs[..2] + bs[2..10] + bs[10..18] + bs[18..26] + [bs[26]];
    assert p[..2] == [p[0], p[1]] && bs[..2] == [bs[0], bs[1]];
  }

  /** A struct is the payload of its message. */
  lemma StructIsPayload(m: WireMessage, bs: seq<Byte>)
    requires StructOf(m, bs)
    ensures bs == Payload(m)
  {
    var p := Payload(m);
    PayloadIsStruct(m);
    match m
    case WireAddOrder(_, _, _, _, _, _) => AddStructIsPayload(m, p, bs);
    case WireCancelOrder(id) =>
      SameWord(p, bs, 0, id);
      assert p == p[0..8] && bs == bs[0..8];
    case WireModifyOrder(id, price, quantity) =>
      SameWord(p, bs, 0, id);
      SameWord(p, bs, 8, price);
      SameWord(p, bs, 16, quantity);
      assert p == p[0..8] + p[8..16] + p[16..24];
      assert bs == bs[0..8] + bs[8..16] + bs[16..24];
  }

  /** No two messages of one kind have the same struct. */
  lemma StructDetermines(m: WireMessage, m': WireMessage, bs: seq<Byte>)
    requires StructOf(m, bs) && StructOf(m', bs) && TypeOf(m) == TypeOf(m')
    ensures m == m'
  {
    StructIsPayload(m, bs);
    StructIsPayload(m', bs);
    PayloadRoundTrip(m);
    PayloadRoundTrip(m');
  }

  method CopyInto(out: array<Byte>, at: nat, bytes: seq<Byte>)
    requires at + |bytes| <= out.Length
    modifies out
    ensures out[..] == old(out[..at]) + bytes + old(out[at + |bytes|..])
  {
    forall i | 0 <= i < |bytes| {
      out[at + i] := bytes[i];
    }
  }

  /** The header, then the struct, into the caller's buffer; nothing behind them is touched. */
  method Serialise(m: WireMessage, out: array<Byte>) returns (n: nat)
    requires HEADER_SIZE + StructSize(TypeOf(m)) <= out.Length
    modifies out
    ensures n == |Frame(m)| && out[..n] == Frame(m) && out[n..] == old(out[n..])
    ensures FrameOf(m, out[..n])
  {
    var header := Header(TypeOf(m), StructSize(TypeOf(m)));
    ghost var before := out[..];
    CopyInto(out, 0, header);
    assert out[..HEADER_SIZE] == header && out[HEADER_SIZE..] == before[HEADER_SIZE..];
    CopyInto(out, HEADER_SIZE, Payload(m));
    n := HEADER_SIZE + StructSize(TypeOf(m));
    assert out[..] == header + Payload(m) + before[n..];
    FrameLayout(m);
  }

  /** Read a message of the given type from the front of a buffer, field by field. */
  method Deserialise(src: array<Byte>, t: Byte) returns (m: WireMessage)
    requires KnownType(t) && StructSize(t) <= src.Length
    ensures m == FromPayload(t, src[..StructSize(t)])
    ensures Frame(m) == Header(t, StructSize(t)) + src[..StructSize(t)]
    ensures StructOf(m, src[..StructSize(t)])
    ensures (t == 1 <==> m.WireAddOrder?) && (t == 2 <==> m.WireCancelOrder?) && (t == 3 <==> m.WireModifyOrder?)
  {
    ghost var bs := src[..StructSize(t)];
    PayloadOnto(t, bs);
    ReadIsStruct(t, bs);
    if t == ADD_ORDER {
      assert src[2..10] == bs[2..10] && src[10..18] == bs[10..18] && src[18..26] == bs[18..26];
      m := WireAddOrder(src[0], src[1], Word(src[2..10]),
                        Signed(Word(src[10..18])), Signed(Word(src[18..26])), src[26]);
    } else if t == CANCEL_ORDER {
      m := WireCancelOrder(Word(src[..8]));
    } else {
      assert src[0..8] == bs[0..8] && src[8..16] == bs[8..16] && src[16..24] == bs[16..24];
      m := WireModifyOrder(Word(src[0..8]), Signed(Word(src[8..16])), Signed(Word(src[16..24])));
    }
  }

  // ----- the engine's messages on the wire -----

  /** Every field that travels fits its width. */
  predicate Sendable(msg: Message) {
    match msg
    case AddOrder(_, _, clientId, price, quantity, _, _, _) =>
      clientId < WORD && -(WORD / 2) <= price < WORD / 2 && -(WORD / 2) <= quantity < WORD / 2
    case CancelOrder(id, _, _) => id < WORD
    case ModifyOrder(id, price, quantity, _, _) =>
      id < WORD && -(WORD / 2) <= price < WORD / 2 && -(WORD / 2) <= quantity < WORD / 2
  }

  function ToWire(msg: Message): WireMessage
    requires Sendable(msg)
  {
    match msg
    case AddOrder(orderType, tif, clientId, price, quantity, side, _, _) =>
      WireAddOrder(if orderType.Limit? then 0 else 1,
                   if tif.FillOrKill? then 0 else if tif.GoodTillCancel? then 1 else 2,
                   clientId, price, quantity, if side.Buy? then 0 else 1)
    case CancelOrder(id, _, _) => WireCancelOrder(id)
    case ModifyOrder(id, price, quantity, _, _) => WireModifyOrder(id, price, quantity)
  }

  /** The raw enumeration bytes are among the declared ones. */
  predicate WellFormed(w: WireMessage) {
    w.WireAddOrder? ==> w.orderType < 2 && w.tif < 3 && w.side < 2
  }

  function FromWire(w: WireMessage, conn: int, seqNo: nat): Message
    requires WellFormed(w)
  {
    match w
    case WireAddOrder(orderType, tif, clientId, price, quantity, side) =>
      AddOrder(if orderType == 0 then Limit else Market,
               if tif == 0 then FillOrKill else if tif == 1 then GoodTillCancel else ImmediateOrCancel,
               clientId, price, quantity, if side == 0 then Buy else Sell, conn, seqNo)
    case WireCancelOrder(id) => CancelOrder(id, conn, seqNo)
    case WireModifyOrder(id, price, quantity) => ModifyOrder(id, price, quantity, conn, seqNo)
  }

  /** Only the connection and the sequence number change on the way, and the two directions are inverse. */
  lemma WireRoundTrip(msg: Message, w: WireMessage, conn: int, seqNo: nat)
    ensures Sendable(msg) ==>
      WellFormed(ToWire(msg)) && FromWire(ToWire(msg), conn, seqNo) == msg.(conn := conn, seqNo := seqNo)
    ensures WellFormed(w) ==> Sendable(FromWire(w, conn, seqNo)) && ToWire(FromWire(w, conn, seqNo)) == w
  {
  }

  /** The bytes of an engine message: header, enumerations by their position in their declaration, fields. */
  ghost predicate SentAs(msg: Message, bs: seq<Byte>) {
    match msg
    case AddOrder(orderType, tif, clientId, price, quantity, side, _, _) =>
      && |bs| == 30 && bs[0] == 1 && bs[1] == 27 && bs[2] == 0
      && (bs[3] == 0 <==> orderType == Limit) && (bs[3] == 1 <==> orderType == Market)
      && (bs[4] == 0 <==> tif == FillOrKill) && (bs[4] == 1 <==> tif == GoodTillCancel)
      && (bs[4] == 2 <==> tif == ImmediateOrCancel)
      && WordAt(bs, 5, clientId) && WordAt(bs, 13, price) && WordAt(bs, 21, quantity)
      && (bs[29] == 0 <==> side == Buy) && (bs[29] == 1 <==> side == Sell)
    case CancelOrder(id, _, _) =>
      |bs| == 11 && bs[0] == 2 && bs[1] == 8 && bs[2] == 0 && WordAt(bs, 3, id)
    case ModifyOrder(id, price, quantity, _, _) =>
      && |bs| == 27 && bs[0] == 3 && bs[1] == 24 && bs[2] == 0
      && WordAt(bs, 3, id) && WordAt(bs, 11, price) && WordAt(bs, 19, quantity)
  }

  lemma WordBehindHeader(bs: seq<Byte>, i: nat, v: int)
    requires |bs| >= 3 && WordAt(bs[3..], i, v)
    ensures WordAt(bs, 3 + i, v)
  {
    forall k | 0 <= k < 8
      ensures bs[3 + i + k] == ByteAt(v, k)
    {
      assert bs[3..][i + k] == bs[3 + i + k];
    }
  }

  /** What an engine message looks like on the wire. */
  lemma SentBytes(msg: Message)
    requires Sendable(msg)
    ensures SentAs(msg, Frame(ToWire(msg)))
  {
    var bs := Frame(ToWire(msg));
    FrameLayout(ToWire(msg));
    match msg
    case AddOrder(_, _, clientId, price, quantity, _, _, _) =>
      WordBehindHeader(bs, 2, clientId);
      WordBehindHeader(bs, 10, price);
      WordBehindHeader(bs, 18, quantity);
    case CancelOrder(id, _, _) =>
      WordBehindHeader(bs, 0, id);
    case ModifyOrder(id, price, quantity, _, _) =>
      WordBehindHeader(bs, 0, id);
      WordBehindHeader(bs, 8, price);
      WordBehindHeader(bs, 16, quantity);
  }

  lemma WordInStruct(bs: seq<Byte>, i: nat, v: int)
    requires |bs| >= 3 && WordAt(bs, 3 + i, v)
    ensures WordAt(bs[3..], i, v)
  {
    forall k | 0 <= k < 8
      ensures bs[3..][i + k] == ByteAt(v, k)
    {
      assert bs[3 + i + k] == ByteAt(v, k);
    }
  }

  /** The bytes that mean a message are the ones it is serialised to. */
  lemma SentIsFrame(msg: Message, bs: seq<Byte>)
    requires Sendable(msg) && SentAs(msg, bs)
    ensures bs == Frame(ToWire(msg))
  {
    var w := ToWire(msg);
    assert StructOf(w, bs[3..]) by {
      match msg
      case AddOrder(_, _, clientId, price, quantity, _, _, _) =>
        WordInStruct(bs, 2, clientId);
        WordInStruct(bs, 10, price);
        WordInStruct(bs, 18, quantity);
      case CancelOrder(id, _, _) =>
        WordInStruct(bs, 0, id);
      case ModifyOrder(id, price, quantity, _, _) =>
        WordInStruct(bs, 0, id);
        WordInStruct(bs, 8, price);
        WordInStruct(bs, 16, quantity);
    }
    StructIsPayload(w, bs[3..]);
    HeaderOf(w);
    assert bs == [bs[0], bs[1], bs[2]] + bs[3..];
  }

  lemma HeaderOf(m: WireMessage)
    ensures Header(TypeOf(m), StructSize(TypeOf(m))) ==
            match m
            case WireAddOrder(_, _, _, _, _, _) => [1, 27, 0]
            case WireCancelOrder(_) => [2, 8, 0]
            case WireModifyOrder(_, _, _) => [3, 24, 0]
  {
    FrameLayout(m);
    var h := Header(TypeOf(m), StructSize(TypeOf(m)));
    assert h == [Frame(m)[0], Frame(m)[1], Frame(m)[2]];
  }

  /** What the engine makes of a frame: the message that these bytes mean. */
  lemma ReceivedBytes(w: WireMessage, conn: int, seqNo: nat)
    requires WellFormed(w)
    ensures var msg := FromWire(w, conn, seqNo);
            SentAs(msg, Frame(w)) && msg.conn == conn && msg.seqNo == seqNo
  {
    WireRoundTrip(CancelOrder(0, 0, 0), w, conn, seqNo);
    SentBytes(FromWire(w, conn, seqNo));
  }

  /** The literal layout of the three kinds of order message. */
  lemma AddOrderLayout(m: WireMessage, k: nat)
    requires m.WireAddOrder? && k < 8
    ensures var bs := Frame(m);
            && |bs| == 30 && bs[0] == 1 && bs[1] == 27 && bs[2] == 0
            && bs[3] == m.orderType && bs[4] == m.tif && bs[29] == m.side
            && bs[5 + k] == ByteAt(m.clientOrderId, k) && bs[13 + k] == ByteAt(m.price, k)
            && bs[21 + k] == ByteAt(m.quantity, k)
  {
    FrameLayout(m);
    WordBehindHeader(Frame(m), 2, m.clientOrderId);
    WordBehindHeader(Frame(m), 10, m.price);
    WordBehindHeader(Frame(m), 18, m.quantity);
  }

  lemma CancelOrderLayout(m: WireMessage, k: nat)
    requires m.WireCancelOrder? && k < 8
    ensures var bs := Frame(m);
            |bs| == 11 && bs[0] == 2 && bs[1] == 8 && bs[2] == 0 && bs[3 + k] == ByteAt(m.orderId, k)
  {
    FrameLayout(m);
    WordBehindHeader(Frame(m), 0, m.orderId);
  }

  lemma ModifyOrderLayout(m: WireMessage, k: nat)
    requires m.WireModifyOrder? && k < 8
    ensures var bs := Frame(m);
            && |bs| == 27 && bs[0] == 3 && bs[1] == 24 && bs[2] == 0
            && bs[3 + k] == ByteAt(m.orderId, k) && bs[11 + k] == ByteAt(m.newPrice, k)
            && bs[19 + k] == ByteAt(m.newQuantity, k)
  {
    FrameLayout(m);
    WordBehindHeader(Frame(m), 0, m.orderId);
    WordBehindHeader(Frame(m), 8, m.newPrice);
    WordBehindHeader(Frame(m), 16, m.newQuantity);
  }
}
