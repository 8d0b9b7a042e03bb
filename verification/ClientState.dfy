/** A connection's fixed receive buffer, updated in place. */
module ClientStates {
  import opened Wire
  import opened Decoder
  import opened Connections

  datatype OrderMsgHeader = OrderMsgHeader(msgType: Byte, payloadLen: nat)

  datatype ParseState = ReadingHeader | ReadingPayload

  class ClientState {
    const fd: int
    var readPos: nat
    var writePos: nat
    const buf: array<Byte>
    var pendingHeader: OrderMsgHeader
    var parseState: ParseState

    ghost predicate Valid()
      reads this
    {
      buf.Length == STATE_SIZE && readPos <= writePos <= STATE_SIZE
    }

    ghost function Mode(): Mode
      reads this
    {
      if parseState.ReadingHeader? then AwaitingHeader
      else AwaitingPayload(pendingHeader.msgType, pendingHeader.payloadLen)
    }

    ghost function Unread(): seq<Byte>
      requires Valid()
      reads this, buf
    {
      buf[readPos..writePos]
    }

    /** The connection this buffer stands for. */
    ghost function View(): (c: Conn)
      requires Valid()
      reads this, buf
      ensures ConnOk(c)
    {
      Conn(Mode(), readPos, writePos, Unread())
    }

    constructor (fd: int)
      ensures Valid() && View() == Conn(AwaitingHeader, 0, 0, []) && this.fd == fd && fresh(buf)
    {
      this.fd, readPos, writePos := fd, 0, 0;
      buf := new Byte[STATE_SIZE](_ => 0);
      pendingHeader, parseState := OrderMsgHeader(0, 0), ReadingHeader;
    }

    function WriteLimit(): int
      reads this
    {
      buf.Length - writePos
    }

    function AvailableBytes(): int
      reads this
    {
      writePos - readPos
    }

    predicate BufIsFull()
      reads this
    {
      WriteLimit() == 0
    }

    /** Copy the next `sz` unread bytes out and pass them, or, with fewer there, do nothing. */
    method Read(dst: array<Byte>, sz: nat) returns (got: int)
      requires Valid() && sz <= dst.Length && dst != buf
      modifies this`readPos, dst
      ensures Valid()
      ensures got == if |old(Unread())| < sz then -1 else sz
      ensures got == -1 ==> dst[..] == old(dst[..]) && Unread() == old(Unread())
      ensures got != -1 ==> dst[..] == old(Unread())[..sz] + old(dst[sz..]) && Unread() == old(Unread())[sz..]
    {
      if AvailableBytes() < sz {
        return -1;
      }
      forall i | 0 <= i < sz {
        dst[i] := buf[readPos + i];
      }
      readPos := readPos + sz;
      got := sz;
    }

    method Reset()
      requires buf.Length == STATE_SIZE
      modifies this`readPos, this`writePos
      ensures Valid() && Unread() == [] && writePos == 0
    {
      readPos, writePos := 0, 0;
    }

    /** Move the unread bytes to the front. */
    method Compact()
      requires Valid()
      modifies this`readPos, this`writePos, buf
      ensures Valid() && readPos == 0 && writePos == |old(Unread())| && Unread() == old(Unread())
    {
      ghost var unread := Unread();
      var remaining := AvailableBytes();
      forall i | 0 <= i < remaining {
        buf[i] := buf[readPos + i];
      }
      assert buf[..remaining] == unread;
      readPos := 0;
      writePos := remaining;
    }

    /** Make room for receiving; the unread bytes and the parse state stay exactly as they were. */
    method PreCheck()
      requires Valid()
      modifies this`readPos, this`writePos, buf
      ensures Valid() && View() == Settle(old(View()))
      ensures Unread() == old(Unread()) && (BufIsFull() <==> |Unread()| == STATE_SIZE)
    {
      if readPos == writePos {
        Reset();
      } else if BufIsFull() {
        Compact();
      }
    }

    /** The kernel copies received bytes behind the ones already there. */
    method Receive(chunk: seq<Byte>)
      requires Valid() && |chunk| <= WriteLimit()
      modifies this`writePos, buf
      ensures Valid() && View() == old(View()).(writePos := old(writePos) + |chunk|, unread := old(Unread()) + chunk)
    {
      forall i | 0 <= i < |chunk| {
        buf[writePos + i] := chunk[i];
      }
      writePos := writePos + |chunk|;
    }
  }
}
