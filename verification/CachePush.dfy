/**
 Pushing cached answers to peers: cc_cacheex_push_out encodes an answer with the path it has
 taken, cc_cacheex_push_in decodes it, and cc_cacheex_push_chk decides whether a peer gets
 it at all.
 */
module CachePush {
  import opened Bytes
  import opened Cards
  import opened CardWire

  type Block = b: seq<byte> | |b| == 16 witness Zeros(16)

  const E_FOUND := 0
  const E_NOTFOUND := 4
  const E_UNHANDLED := 100

  /** An answer with the nodes it has passed, last one first. lg: generated locally at its origin. */
  datatype Push = Push(
    caid: u16, prid: u32, srvid: u16, rc: int8, tag: byte, cycletime: byte, nextCwCycle: byte,
    ecmd5: Block, cspHash: u32, cw: Block, nodes: seq<NodeId>, lg: bool)

  // ---------------------------------------------------------------- how far answers travel

  /** A connection's settings: from its reader, from its account. */
  datatype Limits = Limits(readerHop: Option<int8>, readerHopLg: int8, accountHop: Option<int8>, accountHopLg: int8)

  function MaxHop(l: Limits): int8 {
    if l.readerHop.Some? && l.readerHop.value != 0 then l.readerHop.value
    else if l.accountHop.Some? && l.accountHop.value != 0 then l.accountHop.value
    else 10
  }

  function Clip(lg: int8, maxhop: int8): int8 {
    var c := if lg > 10 then 10 else lg;
    if c < maxhop then maxhop else c
  }

  function MaxHopLg(l: Limits): int8 {
    if l.readerHop.Some? && l.readerHopLg != 0 then Clip(l.readerHopLg, MaxHop(l))
    else if l.accountHop.Some? && l.accountHopLg != 0 then Clip(l.accountHopLg, MaxHop(l))
    else MaxHop(l)
  }

  function Bound(l: Limits, lg: bool): int8 {
    if lg then MaxHopLg(l) else MaxHop(l)
  }

  /** Locally generated answers travel at least as far as others, and no further than ten
      nodes or what the others may. */
  lemma {:induction false} LgTravelsFurther(l: Limits)
    ensures MaxHop(l) <= MaxHopLg(l)
    ensures MaxHopLg(l) <= 10 || MaxHopLg(l) == MaxHop(l)
  {
  }

  /** A setting of 0 says nothing. */
  function Said(setting: Option<int8>): seq<int8> {
    match setting
    case None => []
    case Some(v) => if v == 0 then [] else [v]
  }

  /** The reader's word goes before the account's, and 10 stands where neither says anything.
      What is said for local answers is cut to 10 and raised to the other limit. */
  lemma {:induction false} LimitsObeySettings(l: Limits)
    ensures MaxHop(l) == (Said(l.readerHop) + Said(l.accountHop) + [10])[0]
    ensures var local := (if l.readerHop.Some? then Said(Some(l.readerHopLg)) else []) +
                         (if l.accountHop.Some? then Said(Some(l.accountHopLg)) else []);
            && (local == [] ==> MaxHopLg(l) == MaxHop(l))
            && (local != [] ==> MaxHopLg(l) >= MaxHop(l) && MaxHopLg(l) in {MaxHop(l), local[0], 10})
            && (local != [] && MaxHopLg(l) < local[0] ==> 10 <= MaxHopLg(l))
            && (local != [] && MaxHopLg(l) > MaxHop(l) ==> MaxHopLg(l) <= local[0] && MaxHopLg(l) <= 10)
  {
  }

  predicate NullNode(n: NodeId) {
    forall i :: 0 <= i < |n| ==> n[i] == 0
  }

  /** cc_cacheex_push_chk. idle: the peer is connected and has not been sent this answer. */
  predicate MayPush(peer: NodeId, l: Limits, p: Push, idle: bool) {
    && !NullNode(peer)
    && !(|p.nodes| >= MaxHop(l) && (!p.lg || |p.nodes| >= MaxHopLg(l)))
    && peer !in p.nodes
    && idle
  }

  /** An answer is pushed to a peer exactly if the peer has a name, has not been sent it, is not
      on its path, and the path is shorter than the limit for answers of its kind. */
  lemma {:induction false} PushedExactly(peer: NodeId, l: Limits, p: Push, idle: bool)
    ensures MayPush(peer, l, p, idle) <==>
            && (exists i :: 0 <= i < |peer| && peer[i] != 0) && idle && peer !in p.nodes
            && |p.nodes| < if p.lg then MaxHopLg(l) else MaxHop(l)
  {
    hide MaxHop, MaxHopLg;
    LgTravelsFurther(l);
  }

  /** Whatever is pushed is short enough for the limit of its kind. */
  lemma {:induction false} PushedIsShort(peer: NodeId, l: Limits, p: Push, idle: bool)
    requires MayPush(peer, l, p, idle)
    ensures |p.nodes| < (if p.lg then MaxHopLg(l) else MaxHop(l)) <= 127
  {
  }

  // ---------------------------------------------------------------- what is written

  /** Cycle time and next half share a byte; the top bit is the half. */
  function CycleByte(cycletime: byte, next: byte): byte {
    if cycletime == 0 || next >= 2 then 0
    else if next == 1 && cycletime < 128 then (cycletime as int) + 128
    else cycletime
  }

  /** Only the two table ids of a request are passed on. */
  function Tag(b: byte): byte {
    if b == 0x80 || b == 0x81 then b else 0
  }

  function SentRc(rc: int8): int8 {
    if rc < E_NOTFOUND then E_FOUND else rc
  }

  function Swap(n: u32): u32 {
    n % 256 * 0x100_0000 + n / 256 % 256 * 0x1_0000 + n / 0x1_0000 % 256 * 256 + n / 0x100_0000
  }

  lemma {:induction false} LastDigit(x: nat, d: nat)
    requires d < 256
    ensures (x * 256 + d) / 256 == x && (x * 256 + d) % 256 == d
  {
  }

  lemma {:induction false} SwapDigits(a: nat, b: nat, c: nat, d: nat)
    requires a < 256 && b < 256 && c < 256 && d < 256
    ensures a * 0x100_0000 + b * 0x1_0000 + c * 256 + d < 0x1_0000_0000
    ensures Swap(a * 0x100_0000 + b * 0x1_0000 + c * 256 + d) == d * 0x100_0000 + c * 0x1_0000 + b * 256 + a
  {
    var n := a * 0x100_0000 + b * 0x1_0000 + c * 256 + d;
    LastDigit(a * 0x1_0000 + b * 256 + c, d);
    LastDigit(a * 256 + b, c);
    LastDigit(a, b);
    assert n / 0x1_0000 == n / 256 / 256 && n / 0x100_0000 == n / 256 / 256 / 256;
  }

  lemma {:induction false} SwapTwice(n: u32)
    ensures Swap(Swap(n)) == n
  {
    var a, b, c, d := n / 0x100_0000, n / 0x1_0000 % 256, n / 256 % 256, n % 256;
    assert n == a * 0x100_0000 + b * 0x1_0000 + c * 256 + d;
    SwapDigits(d, c, b, a);
  }

  function Head(p: Push): (h: seq<byte>)
    requires SentRc(p.rc) == E_FOUND || SentRc(p.rc) == E_UNHANDLED
    ensures |h| == 20
  {
    U16Bytes(p.caid) + U32Bytes(p.prid) + [0, 0, 0, 0] + U16Bytes(p.srvid) +
    [36, 0, SentRc(p.rc), 0, 0, 0, CycleByte(p.cycletime, p.nextCwCycle), Tag(p.tag)]
  }

  function Answer(p: Push): (a: seq<byte>)
    ensures |a| == 36
  {
    p.ecmd5 + U32Bytes(Swap(p.cspHash)) + p.cw
  }

  function Flag(lg: bool): byte {
    if lg then 1 else 0xFF
  }

  predicate Sendable(p: Push) {
    SentRc(p.rc) == E_FOUND || SentRc(p.rc) == E_UNHANDLED
  }

  /** The message: own node first, then the path so far. */
  function Encode(own: NodeId, p: Push): seq<byte>
    requires Sendable(p)
  {
    Head(p) + Answer(p) + NodeCount([own] + p.nodes) + Flatten(NodeParts([own] + p.nodes)) + [Flag(p.lg)]
  }

  // ---------------------------------------------------------------- what is read

  /** What the configured filters say: at all, and to answers without the local flag. */
  datatype Filters = Filters(admit: bool, admitPlain: bool)

  function CycleTimeOf(b: byte): byte {
    if b >= 128 then (b as int) - 128 else b
  }

  function NextOf(b: byte): byte {
    if b >= 128 then 1 else 0
  }

  function Fields(buf: seq<byte>, nodes: seq<NodeId>, lg: bool): Push
    requires |buf| >= 56 && (buf[14] == E_FOUND || buf[14] == E_UNHANDLED)
  {
    var hash := Swap(U32At(buf, 36));
    Push(SidAt(buf, 0), U32At(buf, 2), SidAt(buf, 10), buf[14], Tag(buf[19]), CycleTimeOf(buf[18]), NextOf(buf[18]),
         buf[20..36], hash, buf[40..56], nodes, lg)
  }

  /** cc_cacheex_push_in: the answer that goes into the cache, if any. */
  function ReadPush(buf: seq<byte>, peer: NodeId, l: Limits, f: Filters): Option<Push> {
    if |buf| < 57 then None
    else if buf[14] != E_FOUND && buf[14] != E_UNHANDLED then None
    else if buf[12] != 36 || buf[13] != 0 then None
    else if !f.admit then None
    else
      var count: int := buf[56];
      var end := 57 + 8 * count;
      if |buf| < end + 1 then None
      else
        var nodes := NodesAt(buf, 57, count);
        var lg := buf[end] == 1;
        if |nodes| > Bound(l, lg) || (!lg && !f.admitPlain) then None
        else Some(Fields(buf, if nodes == [] then [peer] else nodes, lg))
  }

  // ---------------------------------------------------------------- round trip

  /** The answer as the peer is meant to receive it. */
  function Received(own: NodeId, p: Push): Push
    requires Sendable(p)
  {
    var b := CycleByte(p.cycletime, p.nextCwCycle);
    p.(rc := SentRc(p.rc), tag := Tag(p.tag), cycletime := CycleTimeOf(b), nextCwCycle := NextOf(b), nodes := [own] + p.nodes)
  }

  /** The cycle information survives exactly if the time leaves the top bit free and the half
      is known, or if there is none at all. */
  lemma {:induction false} CycleInfoSurvives(own: NodeId, p: Push)
    requires Sendable(p)
    ensures Received(own, p).cycletime == p.cycletime && Received(own, p).nextCwCycle == p.nextCwCycle <==>
            p.cycletime < 128 && p.nextCwCycle < 2 && (p.cycletime == 0 ==> p.nextCwCycle == 0)
  {
  }

  /** What else arrives: no cycle information where the time is 0 or the half unknown, the half
      1 where the time takes the top bit; a table id only of the two of requests; and of the
      return codes only found and unhandled, which are the ones that can be sent. */
  lemma {:induction false} ReceivedExactly(own: NodeId, p: Push)
    ensures Sendable(p) <==> p.rc < 4 || p.rc == 100
    ensures Sendable(p) ==>
              var q := Received(own, p);
              && (q.cycletime, q.nextCwCycle) ==
                 (if p.cycletime == 0 || p.nextCwCycle > 1 then (0, 0)
                  else if p.cycletime > 127 then (p.cycletime as int - 128, 1)
                  else (p.cycletime as int, p.nextCwCycle as int))
              && q.tag == (if p.tag in {0x80, 0x81} then p.tag else 0)
              && q.rc == (if p.rc == 100 then 100 else 0)
              && q == p.(cycletime := q.cycletime, nextCwCycle := q.nextCwCycle, tag := q.tag, rc := q.rc, nodes := [own] + p.nodes)
  {
  }

  lemma {:induction false} Parts(h: seq<byte>, a: seq<byte>, c: seq<byte>, n: seq<byte>, f: seq<byte>, tail: seq<byte>)
    ensures var s := h + a + c + n + f + tail;
            && |s| == |h| + |a| + |c| + |n| + |f| + |tail|
            && s[..|h|] == h
            && s[|h|..|h| + |a|] == a
            && s[|h| + |a|..|h| + |a| + |c|] == c
            && s[|h| + |a| + |c|..|h| + |a| + |c| + |n|] == n
            && s[|h| + |a| + |c| + |n|..|h| + |a| + |c| + |n| + |f|] == f
  {
  }

  lemma {:induction false} Layout(own: NodeId, p: Push, tail: seq<byte>)
    requires Sendable(p)
    ensures var buf := Encode(own, p) + tail;
            var end := 57 + 8 * (|p.nodes| + 1);
            && |Encode(own, p)| == end + 1
            && buf[..20] == Head(p)
            && buf[20..56] == Answer(p)
            && buf[56..57] == NodeCount([own] + p.nodes)
            && buf[57..end] == Flatten(NodeParts([own] + p.nodes))
            && buf[end..end + 1] == [Flag(p.lg)]
  {
    hide Head, Answer, NodeCount, NodeParts, Flatten, Flag;
    var nodes := [own] + p.nodes;
    FlattenLength(NodeParts(nodes), 8);
    Parts(Head(p), Answer(p), NodeCount(nodes), Flatten(NodeParts(nodes)), [Flag(p.lg)], tail);
  }

  lemma {:induction false} HeadReadsBack(buf: seq<byte>, p: Push)
    requires Sendable(p) && |buf| >= 20 && buf[..20] == Head(p)
    ensures SidAt(buf, 0) == p.caid && U32At(buf, 2) == p.prid && SidAt(buf, 10) == p.srvid
    ensures buf[12] == 36 && buf[13] == 0 && buf[14] == SentRc(p.rc)
    ensures buf[18] == CycleByte(p.cycletime, p.nextCwCycle) && buf[19] == Tag(p.tag)
  {
    hide SentRc, CycleByte, Tag;
    var h := Head(p);
    assert buf[0..2] == h[0..2] == U16Bytes(p.caid);
    assert buf[2..6] == h[2..6] == U32Bytes(p.prid);
    assert buf[10..12] == h[10..12] == U16Bytes(p.srvid);
    U16RoundTrip(buf, 0, p.caid);
    U32RoundTrip(buf, 2, p.prid);
    U16RoundTrip(buf, 10, p.srvid);
    assert buf[12] == h[12] && buf[13] == h[13] && buf[14] == h[14] && buf[18] == h[18] && buf[19] == h[19];
  }

  lemma {:induction false} AnswerReadsBack(buf: seq<byte>, p: Push)
    requires |buf| >= 56 && buf[20..56] == Answer(p)
    ensures buf[20..36] == p.ecmd5 && Swap(U32At(buf, 36)) == p.cspHash && buf[40..56] == p.cw
  {
    hide Swap;
    var a := Answer(p);
    SubSlice(buf, 20, 56, 0, 16);
    SubSlice(buf, 20, 56, 16, 20);
    SubSlice(buf, 20, 56, 20, 36);
    assert a[0..16] == p.ecmd5 && a[16..20] == U32Bytes(Swap(p.cspHash)) && a[20..36] == p.cw;
    U32RoundTrip(buf, 36, Swap(p.cspHash));
    SwapTwice(p.cspHash);
  }

  lemma {:induction false} TagTwice(b: byte)
    ensures Tag(Tag(b)) == Tag(b)
  {
  }

  /** Whatever lies behind it in the buffer, a pushed answer is taken exactly if the filters
      let it in and its path with the sender on it is not too long, and then it is the answer
      sent, with the sender put in front of its path. */
  lemma {:induction false} PushRoundTrip(own: NodeId, p: Push, tail: seq<byte>, peer: NodeId, l: Limits, f: Filters)
    requires Sendable(p) && |p.nodes| < 255
    ensures ReadPush(Encode(own, p) + tail, peer, l, f) ==
            if f.admit && |p.nodes| + 1 <= (if p.lg then MaxHopLg(l) else MaxHop(l)) && (p.lg || f.admitPlain) then Some(Received(own, p)) else None
  {
    hide Head, Answer, NodesAt, NodeParts, Flatten, Encode, MaxHop, MaxHopLg, SidAt, U32At, Swap, CycleByte, Tag;
    var buf := Encode(own, p) + tail;
    var nodes := [own] + p.nodes;
    Layout(own, p, tail);
    HeadReadsBack(buf, p);
    AnswerReadsBack(buf, p);
    assert buf[56] == buf[56..57][0] == |nodes|;
    NodesReadBack(buf, 57, nodes);
    var end := 57 + 8 * |nodes|;
    assert buf[end] == buf[end..end + 1][0] == Flag(p.lg);
    if |nodes| <= Bound(l, p.lg) {
      assert Fields(buf, nodes, p.lg) == Received(own, p) by { TagTwice(p.tag); }
    }
  }

  // ---------------------------------------------------------------- the program

  /** The limits of one connection, as cacheex_maxhop_lg trims them. */
  class Connection {
    var limits: Limits

    constructor (limits: Limits)
      ensures this.limits == limits
    {
      this.limits := limits;
    }

    /** Trimming never changes what the limits mean. */
    method CacheexMaxHopLg() returns (maxhopLg: int8)
      modifies this
      ensures maxhopLg == MaxHopLg(old(limits))
      ensures MaxHop(limits) == MaxHop(old(limits)) && MaxHopLg(limits) == MaxHopLg(old(limits))
    {
      var maxhop := MaxHop(limits);
      maxhopLg := maxhop;
      if limits.readerHop.Some? && limits.readerHopLg != 0 {
        if limits.readerHopLg > 10 {
          limits := limits.(readerHopLg := 10);
        }
        maxhopLg := if limits.readerHopLg < maxhop then maxhop else limits.readerHopLg;
        limits := limits.(readerHopLg := maxhopLg);
      } else if limits.accountHop.Some? && limits.accountHopLg != 0 {
        if limits.accountHopLg > 10 {
          limits := limits.(accountHopLg := 10);
        }
        maxhopLg := if limits.accountHopLg < maxhop then maxhop else limits.accountHopLg;
        limits := limits.(accountHopLg := maxhopLg);
      }
    }

    method PushChk(peer: NodeId, p: Push, idle: bool) returns (ok: bool)
      modifies this
      ensures ok == MayPush(peer, old(limits), p, idle)
      ensures MaxHop(limits) == MaxHop(old(limits)) && MaxHopLg(limits) == MaxHopLg(old(limits))
    {
      hide MaxHop, MaxHopLg;
      if NullNode(peer) {
        return false;
      }
      if |p.nodes| >= MaxHop(limits) {
        if !p.lg {
          return false;
        }
        var maxhopLg := CacheexMaxHopLg();
        if |p.nodes| >= maxhopLg {
          return false;
        }
      }
      var i := 0;
      while i < |p.nodes|
        invariant 0 <= i <= |p.nodes| && peer !in p.nodes[..i]
        invariant MaxHop(limits) == MaxHop(old(limits)) && MaxHopLg(limits) == MaxHopLg(old(limits))
      {
        if p.nodes[i] == peer {
          return false;
        }
        i := i + 1;
      }
      assert p.nodes[..i] == p.nodes;
      return idle;
    }
  }

  /** A buffer under construction: what is written so far, then zeros. */
  ghost predicate Written(buf: array<byte>, done: seq<byte>)
    reads buf
  {
    |done| <= buf.Length && buf[..] == done + Zeros(buf.Length - |done|)
  }

  method Append(buf: array<byte>, ofs: nat, bytes: seq<byte>, ghost done: seq<byte>) returns (end: nat)
    requires Written(buf, done) && ofs == |done| && ofs + |bytes| <= buf.Length
    modifies buf
    ensures Written(buf, done + bytes) && end == ofs + |bytes|
  {
    Put(buf, ofs, bytes);
    end := ofs + |bytes|;
  }

  /** i2b_buf: a number, most significant byte first. */
  method PutNumber(buf: array<byte>, ofs: nat, bytes: seq<byte>)
    requires ofs + |bytes| <= buf.Length
    modifies buf
    ensures forall i :: 0 <= i < buf.Length ==>
                          buf[i] == if ofs <= i < ofs + |bytes| then bytes[i - ofs] else old(buf[i])
  {
    forall i | 0 <= i < |bytes| {
      buf[ofs + i] := bytes[i];
    }
  }

  method PutCycle(buf: array<byte>, p: Push)
    requires buf.Length >= 20 && buf[18] == 0
    modifies buf
    ensures forall i :: 0 <= i < buf.Length ==>
                          buf[i] == if i == 18 then CycleByte(p.cycletime, p.nextCwCycle) else old(buf[i])
  {
    if p.cycletime != 0 && p.nextCwCycle < 2 {
      buf[18] := p.cycletime;
      if p.nextCwCycle == 1 && p.cycletime < 128 {
        var raised: int := p.cycletime as int + 128;
        buf[18] := raised;
      }
    }
  }

  lemma {:induction false} HeadCells(p: Push)
    requires Sendable(p)
    ensures |U16Bytes(p.caid)| == 2 && |U32Bytes(p.prid)| == 4 && |U16Bytes(p.srvid)| == 2
    ensures var h := Head(p);
            && h[0] == U16Bytes(p.caid)[0] && h[1] == U16Bytes(p.caid)[1]
            && h[2] == U32Bytes(p.prid)[0] && h[3] == U32Bytes(p.prid)[1]
            && h[4] == U32Bytes(p.prid)[2] && h[5] == U32Bytes(p.prid)[3]
            && h[6] == 0 && h[7] == 0 && h[8] == 0 && h[9] == 0
            && h[10] == U16Bytes(p.srvid)[0] && h[11] == U16Bytes(p.srvid)[1]
            && h[12] == 36 && h[13] == 0 && h[14] == SentRc(p.rc) && h[15] == 0 && h[16] == 0 && h[17] == 0
            && h[18] == CycleByte(p.cycletime, p.nextCwCycle) && h[19] == Tag(p.tag)
  {
  }

  method WriteHead(buf: array<byte>, p: Push)
    requires Sendable(p) && buf.Length >= 20 && forall i :: 0 <= i < buf.Length ==> buf[i] == 0
    modifies buf
    ensures Written(buf, Head(p))
  {
    hide CycleByte, Tag, SentRc, Head, U16Bytes, U32Bytes;
    HeadCells(p);
    buf[12], buf[13], buf[14] := 36, 0, SentRc(p.rc);
    PutNumber(buf, 0, U16Bytes(p.caid));
    PutNumber(buf, 2, U32Bytes(p.prid));
    PutNumber(buf, 10, U16Bytes(p.srvid));
    PutCycle(buf, p);
    buf[19] := Tag(p.tag);
  }

  lemma {:induction false} AnswerIs(p: Push)
    ensures Head.requires(p) ==> Head(p) + p.ecmd5 + U32Bytes(Swap(p.cspHash)) + p.cw == Head(p) + Answer(p)
  {
  }

  lemma {:induction false} CountIs(nodes: seq<NodeId>)
    ensures NodeCount(nodes) == [|nodes| % 256]
  {
  }

  lemma {:induction false} NothingYet(parts: seq<seq<byte>>)
    ensures Flatten(parts[..0]) == []
  {
  }

  lemma {:induction false} NodePart(nodes: seq<NodeId>, i: nat)
    requires i < |nodes|
    ensures Flatten(NodeParts(nodes)[..i + 1]) == Flatten(NodeParts(nodes)[..i]) + nodes[i]
  {
    PrefixParts(NodeParts(nodes), i);
  }

  /** The message handed to the connection, or None where nothing is pushed. */
  method PushOut(own: NodeId, p: Push) returns (sent: Option<seq<byte>>)
    ensures sent == if Sendable(p) then Some(Encode(own, p)) else None
  {
    hide Head, Answer, NodeCount, NodeParts, Flatten, Zeros;
    var rc := if p.rc < E_NOTFOUND then E_FOUND else p.rc;
    if rc != E_FOUND && rc != E_UNHANDLED {
      return None;
    }
    var buf := new byte[58 + 8 * (|p.nodes| + 1)](_ => 0);
    WriteHead(buf, p);
    var ofs := Append(buf, 20, p.ecmd5, Head(p));
    ofs := Append(buf, ofs, U32Bytes(Swap(p.cspHash)), Head(p) + p.ecmd5);
    ofs := Append(buf, ofs, p.cw, Head(p) + p.ecmd5 + U32Bytes(Swap(p.cspHash)));
    ghost var done := Head(p) + Answer(p);
    assert Head(p) + p.ecmd5 + U32Bytes(Swap(p.cspHash)) + p.cw == done by { AnswerIs(p); }
    var nodes := [own] + p.nodes;
    ofs := Append(buf, ofs, [|nodes| % 256], done);
    done := done + NodeCount(nodes);
    assert Written(buf, done) by { CountIs(nodes); }
    var i := 0;
    ghost var sofar := done;
    assert sofar == done + Flatten(NodeParts(nodes)[..0]) by { NothingYet(NodeParts(nodes)); }
    while i < |nodes|
      invariant 0 <= i <= |nodes| && ofs == |sofar| == 57 + 8 * i
      invariant sofar == done + Flatten(NodeParts(nodes)[..i])
      invariant Written(buf, sofar)
    {
      NodePart(nodes, i);
      ofs := Append(buf, ofs, nodes[i], sofar);
      sofar := sofar + nodes[i];
      i := i + 1;
    }
    assert NodeParts(nodes)[..i] == NodeParts(nodes);
    ofs := Append(buf, ofs, [if p.lg then 1 else 0xFF], sofar);
    sent := Some(buf[..]);
    assert buf[..] == sofar + [Flag(p.lg)];
  }

  /** What comes out of a message in the receive buffer. */
  method PushIn(buf: array<byte>, peer: NodeId, l: Limits, f: Filters) returns (er: Option<Push>)
    ensures er == ReadPush(buf[..], peer, l, f)
  {
    hide NodesAt, SidAt, U32At, Swap, MaxHop, MaxHopLg, Tag;
    if buf.Length < 57 {
      return None;
    }
    var rc := buf[14];
    if rc != E_FOUND && rc != E_UNHANDLED {
      return None;
    }
    var size: int := buf[12] as int + 256 * buf[13] as int;
    if size != 36 {
      return None;
    }
    var cycletime, next := 0, 0;
    if buf[18] != 0 {
      if buf[18] >= 128 {
        cycletime, next := buf[18] as int - 128, 1;
      } else {
        cycletime, next := buf[18], 0;
      }
    }
    if !f.admit {
      return None;
    }
    var count: int := buf[56];
    if buf.Length < 57 + 8 * count + 1 {
      return None;
    }
    var nodes := ParseNodes(buf, buf.Length, 57, count);
    assert buf[..buf.Length] == buf[..];
    var lg := buf[57 + 8 * count] == 1;
    if lg {
      if |nodes| > MaxHopLg(l) {
        return None;
      }
    } else if |nodes| > MaxHop(l) || !f.admitPlain {
      return None;
    }
    if nodes == [] {
      nodes := nodes + [peer];
    }
    var b := buf[..];
    assert b[20..36] == buf[20..36] && b[40..56] == buf[40..56];
    assert nodes == if NodesAt(b, 57, count) == [] then [peer] else NodesAt(b, 57, count);
    assert cycletime == CycleTimeOf(buf[18]) && next == NextOf(buf[18]);
    er := Some(Push(SidAt(b, 0), U32At(b, 2), SidAt(b, 10), rc, Tag(buf[19]), cycletime, next,
                    buf[20..36], Swap(U32At(b, 36)), buf[40..56], nodes, lg));
  }
}
