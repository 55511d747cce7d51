/**
 Length-prefixed messages over the stream cipher: sending, receiving, and the promise
 that one direction of a session delivers every message exactly once and in order.
 */
module Transport {
  import opened Bytes
  import opened CryptStream

  /** A message as the peer sees it: flag byte, command and payload. */
  datatype Message = Message(flag: byte, cmd: byte, payload: seq<byte>)

  datatype Command = Headed(code: byte) | NoHeader

  /** Bytes under way in one direction of the connection. */
  class Wire {
    var bytes: seq<byte>

    constructor ()
      ensures bytes == []
    {
      bytes := [];
    }

    /** A blocking receive: everything asked for, or what is left when the peer has gone. */
    method Receive(n: nat) returns (got: seq<byte>)
      modifies this
      ensures got + bytes == old(bytes)
      ensures |got| == if n <= |old(bytes)| then n else |old(bytes)|
    {
      var k := if n <= |bytes| then n else |bytes|;
      got := bytes[..k];
      bytes := bytes[k..];
    }
  }

  // ---------------------------------------------------------------- specification

  /** The clear text of a message; the length field has sixteen bits. */
  function Frame(m: Message): (f: seq<byte>)
    ensures |f| == 4 + |m.payload|
  {
    [m.flag, m.cmd, |m.payload| / 256 % 256, |m.payload| % 256] + m.payload
  }

  datatype Reception = Reception(result: int, buf: seq<byte>, block: Block, rest: seq<byte>)

  /** Bytes 2 and 3 of a header. */
  function AnnouncedSize(header: seq<byte>): nat
    requires |header| >= 4
  {
    (header[2] as int) * 256 + header[3]
  }

  /** What cc_msg_recv returns, and what it leaves behind. */
  function Recv(block: Block, stream: seq<byte>, maxlen: int): Reception {
    if maxlen < 4 then Reception(-1, [], block, stream)
    else if |stream| < 4 then Reception(-1, stream, block, [])
    else
      var h := CryptData(block, stream[..4], DECRYPT);
      var size := AnnouncedSize(h.data);
      if size == 0 then Reception(4, h.data, h.block, stream[4..])
      else if size > maxlen then Reception(0, h.data, h.block, stream[4..])
      else if |stream| < 4 + size then Reception(-1, h.data + stream[4..], h.block, [])
      else
        var p := CryptData(h.block, stream[4..4 + size], DECRYPT);
        Reception(4 + size, h.data + p.data, p.block, stream[4 + size..])
  }

  /** The message in a receive buffer. */
  function Parsed(buf: seq<byte>): Message
    requires |buf| >= 4
  {
    Message(buf[0], buf[1], buf[4..])
  }

  lemma {:induction false} FrameParts(tx: Block, m: Message)
    ensures CryptData(tx, Frame(m), ENCRYPT) ==
            var h := CryptData(tx, Frame(m)[..4], ENCRYPT);
            var p := CryptData(h.block, m.payload, ENCRYPT);
            Run(p.block, h.data + p.data)
    ensures Frame(m) == Frame(m)[..4] + m.payload
  {
    hide CryptByte;
    CryptAppend(tx, Frame(m)[..4], m.payload, ENCRYPT);
    assert Frame(m) == Frame(m)[..4] + m.payload;
  }

  lemma {:induction false} ReadsHeader(tx: Block, m: Message, tail: seq<byte>)
    requires |m.payload| < 0x1_0000
    ensures var stream := CryptData(tx, Frame(m), ENCRYPT).data + tail;
            var h := CryptData(tx, Frame(m)[..4], ENCRYPT);
            && |stream| == 4 + |m.payload| + |tail|
            && CryptData(tx, stream[..4], DECRYPT) == Run(h.block, Frame(m)[..4])
            && stream[4..] == CryptData(h.block, m.payload, ENCRYPT).data + tail
            && AnnouncedSize(Frame(m)[..4]) == |m.payload|
  {
    hide CryptByte;
    FrameParts(tx, m);
    RoundTrip(tx, Frame(m)[..4]);
    var stream := CryptData(tx, Frame(m), ENCRYPT).data + tail;
    assert stream[..4] == CryptData(tx, Frame(m)[..4], ENCRYPT).data;
  }

  /** When a reception fails: the buffer cannot take a header, or the stream ends before the
      header or the payload it announces is there. A buffer too small takes nothing off the wire. */
  lemma {:induction false} FailsExactly(block: Block, stream: seq<byte>, maxlen: int)
    ensures Recv(block, stream, maxlen).result == -1 <==>
            || maxlen < 4 || |stream| < 4
            || (var size := AnnouncedSize(CryptData(block, stream[..4], DECRYPT).data); size <= maxlen && |stream| < 4 + size)
    ensures maxlen < 4 ==> Recv(block, stream, maxlen).block == block && Recv(block, stream, maxlen).rest == stream
  {
    hide CryptData;
  }

  /** A message comes back exactly when it fits the receiver's limit. One that does not is
      answered with 0, and its payload is left on the wire, still encrypted. */
  lemma {:induction false} ReceivedIffFits(tx: Block, m: Message, tail: seq<byte>, maxlen: int)
    requires |m.payload| < 0x1_0000 && maxlen >= 4
    ensures var sent := CryptData(tx, Frame(m), ENCRYPT);
            var r := Recv(tx, sent.data + tail, maxlen);
            && (|m.payload| <= maxlen <==> r == Reception(4 + |m.payload|, Frame(m), sent.block, tail))
            && (|m.payload| > maxlen ==> r.result == 0 && |r.rest| == |m.payload| + |tail|)
  {
    hide CryptByte;
    ReadsHeader(tx, m, tail);
    FrameParts(tx, m);
    var sent := CryptData(tx, Frame(m), ENCRYPT);
    var stream := sent.data + tail;
    var h := CryptData(tx, Frame(m)[..4], ENCRYPT);
    var p := CryptData(h.block, m.payload, ENCRYPT);
    if 0 < |m.payload| <= maxlen {
      assert stream[4..4 + |m.payload|] == p.data;
      RoundTrip(h.block, m.payload);
      assert stream[4 + |m.payload|..] == tail;
    } else if |m.payload| == 0 {
      assert m.payload == [];
      assert stream[4..] == tail;
      assert Frame(m)[..4] == Frame(m);
    }
  }

  // ---------------------------------------------------------------- one direction of a session

  datatype Link = Link(tx: Block, rx: Block, wire: seq<byte>, sent: seq<Message>, got: seq<Message>)

  datatype Event = Sending(message: Message) | Receiving

  function Frames(ms: seq<Message>): seq<byte> {
    if ms == [] then [] else Frames(ms[..|ms| - 1]) + Frame(ms[|ms| - 1])
  }

  lemma {:induction false} FramesConcat(a: seq<Message>, b: seq<Message>)
    ensures Frames(a + b) == Frames(a) + Frames(b)
  {
    hide Frame;
    if b == [] {
      assert a + b == a;
    } else {
      var n := |b| - 1;
      FramesConcat(a, b[..n]);
      assert (a + b)[..|a + b| - 1] == a + b[..n];
      assert Frames(a) + (Frames(b[..n]) + Frame(b[n])) == (Frames(a) + Frames(b[..n])) + Frame(b[n]);
    }
  }

  /** A send puts a whole encrypted frame on the wire. A receive waits until bytes are
      there and keeps the message when cc_msg_recv reports one. */
  function Step(l: Link, e: Event, maxlen: int): Link {
    match e
    case Sending(m) =>
      var r := CryptData(l.tx, Frame(m), ENCRYPT);
      l.(tx := r.block, wire := l.wire + r.data, sent := l.sent + [m])
    case Receiving =>
      if l.wire == [] then l
      else
        var r := Recv(l.rx, l.wire, maxlen);
        l.(rx := r.block, wire := r.rest,
           got := if r.result >= 4 && |r.buf| >= 4 then l.got + [Parsed(r.buf)] else l.got)
  }

  function Session(l: Link, events: seq<Event>, maxlen: int): Link
    decreases |events|
  {
    if events == [] then l
    else Step(Session(l, events[..|events| - 1], maxlen), events[|events| - 1], maxlen)
  }

  ghost predicate Fits(m: Message, maxlen: int) {
    |m.payload| < 0x1_0000 && |m.payload| <= maxlen
  }

  /** What is on the wire is the encryption, under the receiver's own block, of exactly the
      messages not yet received, and it leads the receiver to the sender's block. */
  ghost predicate InSync(l: Link, maxlen: int) {
    && l.got <= l.sent
    && (forall m :: m in l.sent ==> Fits(m, maxlen))
    && CryptData(l.rx, Frames(l.sent[|l.got|..]), ENCRYPT) == Run(l.tx, l.wire)
  }

  lemma {:induction false} SendKeepsSync(l: Link, m: Message, maxlen: int)
    requires InSync(l, maxlen) && Fits(m, maxlen)
    ensures InSync(Step(l, Sending(m), maxlen), maxlen)
  {
    hide CryptByte, Frame;
    var after := Step(l, Sending(m), maxlen);
    var pending := l.sent[|l.got|..];
    assert after.sent[|l.got|..] == pending + [m];
    assert (pending + [m])[..|pending|] == pending;
    CryptAppend(l.rx, Frames(pending), Frame(m), ENCRYPT);
  }

  lemma {:induction false} ReceiveTakesOne(l: Link, m: Message, tail: seq<byte>, maxlen: int)
    requires maxlen >= 4 && Fits(m, maxlen)
    requires l.wire == CryptData(l.rx, Frame(m), ENCRYPT).data + tail
    ensures Step(l, Receiving, maxlen) ==
            l.(rx := CryptData(l.rx, Frame(m), ENCRYPT).block, wire := tail, got := l.got + [m])
  {
    hide CryptByte, CryptData, Recv;
    ReceivedIffFits(l.rx, m, tail, maxlen);
    assert Parsed(Frame(m)) == m;
  }

  lemma {:induction false} ReceiveKeepsSync(l: Link, maxlen: int)
    requires InSync(l, maxlen) && maxlen >= 4
    ensures InSync(Step(l, Receiving, maxlen), maxlen)
    ensures l.wire != [] ==> |Step(l, Receiving, maxlen).got| == |l.got| + 1
  {
    hide CryptByte, Recv, Frame;
    var pending := l.sent[|l.got|..];
    if l.wire != [] {
      assert pending != [] by { assert Frames([]) == []; }
      var m := pending[0];
      assert m in l.sent;
      assert pending == [m] + pending[1..];
      FramesConcat([m], pending[1..]);
      assert Frames([m]) == Frame(m) by { assert [m][..0] == []; }
      CryptAppend(l.rx, Frame(m), Frames(pending[1..]), ENCRYPT);
      var first := CryptData(l.rx, Frame(m), ENCRYPT);
      var tail := CryptData(first.block, Frames(pending[1..]), ENCRYPT).data;
      ReceiveTakesOne(l, m, tail, maxlen);
      assert l.sent[|l.got + [m]|..] == pending[1..];
    }
  }

  lemma {:induction false} NothingPending(l: Link, maxlen: int)
    requires InSync(l, maxlen) && l.wire == []
    ensures l.got == l.sent && l.tx == l.rx
  {
  }

  /** From equal cipher blocks and an empty wire, over every run of sends and receives:
      what was received is what was sent, in order, up to what is still under way; and
      once the wire is empty nothing is missing and the two blocks are equal again. */
  lemma {:induction false} SessionDelivers(block: Block, events: seq<Event>, maxlen: int)
    requires maxlen >= 4
    requires forall i :: 0 <= i < |events| && events[i].Sending? ==> Fits(events[i].message, maxlen)
    ensures var l := Session(Link(block, block, [], [], []), events, maxlen);
            && InSync(l, maxlen)
            && l.got <= l.sent
            && (l.wire == [] ==> l.got == l.sent && l.tx == l.rx)
    decreases |events|
  {
    hide CryptByte, Frame, Step;
    var start := Link(block, block, [], [], []);
    if events == [] {
      assert InSync(start, maxlen);
    } else {
      var n := |events| - 1;
      SessionDelivers(block, events[..n], maxlen);
      var before := Session(start, events[..n], maxlen);
      match events[n] {
        case Sending(m) => SendKeepsSync(before, m, maxlen);
        case Receiving => ReceiveKeepsSync(before, maxlen);
      }
    }
    var l := Session(start, events, maxlen);
    if l.wire == [] && l.got != l.sent {
      NothingPending(l, maxlen);
    } else if l.wire == [] {
      assert l.sent[|l.got|..] == [];
    }
  }

  // ---------------------------------------------------------------- the endpoint

  /** The transport part of a connection's data: one cipher block a direction. */
  class CcData {
    const enc: CryptBlock
    const dec: CryptBlock
    var gFlag: byte

    ghost predicate Valid()
      reads this, enc, dec
    {
      enc.Valid() && dec.Valid() && enc != dec && enc.keytable != dec.keytable
    }

    constructor ()
      ensures Valid() && fresh(enc) && fresh(dec) && fresh(enc.keytable) && fresh(dec.keytable)
    {
      enc := new CryptBlock();
      dec := new CryptBlock();
      gFlag := 0;
    }

    /** Sends one message; without a header the bytes go out as they are, encrypted. */
    method CmdSend(wire: Wire, buf: seq<byte>, cmd: Command) returns (n: nat)
      requires Valid()
      modifies wire, enc, enc.keytable
      ensures Valid()
      ensures var clear := if cmd.NoHeader? then buf else Frame(Message(gFlag, cmd.code, buf));
              var r := CryptData(old(enc.View()), clear, ENCRYPT);
              && n == |clear|
              && enc.View() == r.block
              && wire.bytes == old(wire.bytes) + r.data
    {
      hide CryptByte, CryptData;
      var clear: seq<byte> := buf;
      if cmd.Headed? {
        var high: byte, low: byte := |buf| / 256 % 256, |buf| % 256;
        clear := [gFlag, cmd.code, high, low] + buf;
      }
      var netbuf := CryptBytes(enc, clear, ENCRYPT);
      wire.bytes := wire.bytes + netbuf;
      n := |clear|;
    }

    /** Receives one message into buf. */
    method MsgRecv(wire: Wire, maxlen: int) returns (result: int, buf: seq<byte>)
      requires Valid()
      modifies this`gFlag, wire, dec, dec.keytable
      ensures Valid()
      ensures Reception(result, buf, dec.View(), wire.bytes) == Recv(old(dec.View()), old(wire.bytes), maxlen)
      ensures gFlag == if maxlen >= 4 && |old(wire.bytes)| >= 4 && |buf| >= 4 then buf[0] else old(gFlag)
    {
      hide CryptByte, CryptData;
      if maxlen < 4 {
        return -1, [];
      }
      var header := wire.Receive(4);
      if |header| != 4 {
        return -1, header;
      }
      assert header == old(wire.bytes)[..4] && wire.bytes == old(wire.bytes)[4..];
      buf := CryptBytes(dec, header, DECRYPT);
      gFlag := buf[0];
      var size := AnnouncedSize(buf);
      result := 4;
      if size != 0 {
        if size > maxlen {
          return 0, buf;
        }
        var body := wire.Receive(size);
        if |body| != size {
          return -1, buf + body;
        }
        assert body == old(wire.bytes)[4..4 + size] && wire.bytes == old(wire.bytes)[4 + size..];
        body := CryptBytes(dec, body, DECRYPT);
        buf := buf + body;
        result := 4 + size;
      }
    }
  }
}
