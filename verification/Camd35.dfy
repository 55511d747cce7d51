/**
 camd35 over TCP: a packet is the user's checksum, then an encrypted message padded to whole
 cipher blocks with a checksum of its own. The receiver reads it in two pieces, as the first
 32 bytes say how many follow.

 The cipher, the checksum and the account check are parameters.
 */
module Camd35 {
  import opened Bytes

  type Block = b: seq<byte> | |b| == 16 witness seq(16, _ => 0)
  type Ucrc = u: seq<byte> | |u| == 4 witness [0, 0, 0, 0]
  type AesKey = seq<byte>

  datatype Crypto = Crypto(enc: AesKey -> Block -> Block, dec: AesKey -> Block -> Block, crc32: seq<byte> -> u32)

  ghost predicate Invertible(c: Crypto) {
    forall k: AesKey, b: Block :: c.dec(k)(c.enc(k)(b)) == b
  }

  // ---------------------------------------------------------------- cipher blocks

  /** One block at a time; what follows the last whole block is dropped. */
  function Blocks(f: Block -> Block, s: seq<byte>): (r: seq<byte>)
    ensures |s| % 16 == 0 ==> |r| == |s|
    decreases |s|
  {
    if |s| < 16 then [] else Blocks(f, s[..|s| - 16]) + f(s[|s| - 16..])
  }

  function Encrypt(c: Crypto, k: AesKey, s: seq<byte>): (r: seq<byte>)
    ensures |s| % 16 == 0 ==> |r| == |s|
  {
    Blocks(c.enc(k), s)
  }

  function Decrypt(c: Crypto, k: AesKey, s: seq<byte>): (r: seq<byte>)
    ensures |s| % 16 == 0 ==> |r| == |s|
  {
    Blocks(c.dec(k), s)
  }

  lemma {:induction false} BlocksLast(f: Block -> Block, s: seq<byte>, b: Block)
    ensures Blocks(f, s + b) == Blocks(f, s) + f(b)
  {
  }

  lemma {:induction false} NoBlocks(f: Block -> Block)
    ensures Blocks(f, []) == []
  {
  }

  lemma {:induction false} BlocksAppend(f: Block -> Block, a: seq<byte>, b: seq<byte>)
    requires |a| % 16 == 0 && |b| % 16 == 0
    ensures Blocks(f, a + b) == Blocks(f, a) + Blocks(f, b)
    decreases |b|
  {
    hide Blocks;
    if b == [] {
      assert a + b == a;
      NoBlocks(f);
    } else {
      var n := |b| - 16;
      var b0, b1 := b[..n], b[n..];
      BlocksAppend(f, a, b0);
      BlocksLast(f, a + b0, b1);
      BlocksLast(f, b0, b1);
      assert a + b == (a + b0) + b1 && b == b0 + b1;
      assert Blocks(f, a) + (Blocks(f, b0) + f(b1)) == (Blocks(f, a) + Blocks(f, b0)) + f(b1);
    }
  }

  lemma {:induction false} DecryptsBack(c: Crypto, k: AesKey, s: seq<byte>)
    requires Invertible(c) && |s| % 16 == 0
    ensures Decrypt(c, k, Encrypt(c, k, s)) == s
    decreases |s|
  {
    hide Blocks;
    NoBlocks(c.enc(k));
    NoBlocks(c.dec(k));
    if s == [] {
    } else {
      var n := |s| - 16;
      DecryptsBack(c, k, s[..n]);
      assert s == s[..n] + s[n..];
      BlocksLast(c.enc(k), s[..n], s[n..]);
      BlocksLast(c.dec(k), Encrypt(c, k, s[..n]), c.enc(k)(s[n..]));
    }
  }

  // ---------------------------------------------------------------- sizes

  /** boundary(4, n): up to whole cipher blocks. */
  function Boundary(n: nat): (r: nat)
    ensures n <= r < n + 16 && r % 16 == 0
  {
    (n + 15) / 16 * 16
  }

  predicate IsCacheExPush(cmd: byte) {
    0x3D <= cmd <= 0x42
  }

  function EcmLength(buf: seq<byte>): nat
    requires |buf| >= 23
  {
    (buf[21] as int) % 16 * 256 + buf[22] as int + 3
  }

  /** How many bytes of data the receiver expects. */
  function LengthField(buf: seq<byte>): nat
    requires |buf| >= 23
  {
    if buf[0] == 0 then EcmLength(buf)
    else if IsCacheExPush(buf[0]) then (buf[1] as int) + 256 * (buf[2] as int)
    else buf[1]
  }

  /** What the sender takes if it is not told. */
  function DefaultLength(buf: seq<byte>): nat
    requires |buf| >= 20 && (buf[0] == 0 ==> |buf| >= 23)
  {
    if buf[0] == 0 then EcmLength(buf) else buf[1]
  }

  /** The two agree except on cache pushes of more than 255 bytes. */
  lemma {:induction false} DefaultLengthAgrees(buf: seq<byte>)
    requires |buf| >= 23
    ensures DefaultLength(buf) == LengthField(buf) <==> !(buf[0] in {0x3D, 0x3E, 0x3F, 0x40, 0x41, 0x42} && buf[2] != 0)
  {
  }

  function SentExtra(cmd: byte): nat {
    if cmd == 3 || cmd == 4 then 0x34 else 0
  }

  /** The size of the whole message, from its first 32 bytes. */
  function Size(head: seq<byte>): (n: nat)
    requires |head| >= 32
    ensures n >= 32 && n % 16 == 0 && n >= 20 + LengthField(head)
  {
    Boundary((if head[0] == 3 then 0x34 else 0) + 20 + LengthField(head))
  }

  /** An ECM that is a whole section: three bytes, and as many as bits 0 to 11 of its second and
      third byte say. */
  predicate IsSection(ecm: seq<byte>) {
    |ecm| >= 3 && |ecm| == 3 + (ecm[1] as int) % 16 * 256 + ecm[2] as int
  }

  /** Both ends see the length of a request in the ECM itself. */
  lemma {:induction false} RequestsAreSized(head: seq<byte>, ecm: seq<byte>, tail: seq<byte>)
    requires |head| == 20 && head[0] == 0 && IsSection(ecm)
    ensures DefaultLength(head + ecm + tail) == LengthField(head + ecm + tail) == |ecm|
  {
    var buf := head + ecm + tail;
    assert buf[0] == head[0] && buf[21] == ecm[1] && buf[22] == ecm[2];
  }

  // ---------------------------------------------------------------- what is sent

  /** A message that the header and buflen describe. */
  predicate Fits(msg: seq<byte>, buflen: nat) {
    |msg| >= 20 && |msg| == 20 + SentExtra(msg[0]) + buflen
  }

  function Padded(msg: seq<byte>): (p: seq<byte>)
    ensures |p| == Boundary(|msg|) && msg <= p
  {
    msg + seq(Boundary(|msg|) - |msg|, _ => 0xFF)
  }

  /** The message with its checksum, padded. */
  function Sealed(c: Crypto, msg: seq<byte>, buflen: nat): (p: seq<byte>)
    requires Fits(msg, buflen)
    ensures |p| == Boundary(|msg|)
  {
    var p := Padded(msg);
    p[..4] + U32Bytes(c.crc32(msg[20..20 + buflen])) + p[8..]
  }

  function Packet(c: Crypto, k: AesKey, ucrc: Ucrc, msg: seq<byte>, buflen: nat): (p: seq<byte>)
    requires Fits(msg, buflen)
    ensures |p| == 4 + Boundary(|msg|)
  {
    ucrc + Encrypt(c, k, Sealed(c, msg, buflen))
  }

  // ---------------------------------------------------------------- what is received

  /** crc: the checksum of the user name's digest. auth: 0 if the account may log in. blank:
      its password is empty. */
  datatype Account = Account(crc: u32, auth: int, key: AesKey, blank: bool)

  /** settled: the user has a password, so that no account is searched for any more. */
  datatype Peer = Unknown | Known(ucrc: Ucrc, key: AesKey, settled: bool)

  datatype Env = Env(c: Crypto, accounts: seq<Account>)

  datatype Auth = Auth(rc: int, peer: Peer)

  /** The first account of the user that may log in; rc is the answer so far. */
  function TryAccounts(accounts: seq<Account>, ucrc: Ucrc, rc: int): Auth {
    if accounts == [] then Auth(rc, Unknown)
    else if accounts[0].crc == BytesToInt(ucrc, 0, 4) then
      (if accounts[0].auth == 0 then Auth(0, Known(ucrc, accounts[0].key, !accounts[0].blank)) else TryAccounts(accounts[1..], ucrc, accounts[0].auth))
    else TryAccounts(accounts[1..], ucrc, rc)
  }

  lemma {:induction false} TriedKnows(accounts: seq<Account>, ucrc: Ucrc, rc: int)
    requires rc != 0
    ensures var a := TryAccounts(accounts, ucrc, rc); a.rc == 0 <==> a.peer.Known?
    ensures var a := TryAccounts(accounts, ucrc, rc); a.peer.Known? ==> a.peer.ucrc == ucrc
  {
    if accounts == [] {
    } else {
      TriedKnows(accounts[1..], ucrc, rc);
      if accounts[0].auth != 0 {
        TriedKnows(accounts[1..], ucrc, accounts[0].auth);
      }
    }
  }

  /** camd35_auth_client. Only a user who is let in has a key. */
  function AuthClient(env: Env, peer: Peer, ucrc: Ucrc): (a: Auth)
    ensures a.rc == 0 ==> a.peer.Known? && a.peer.ucrc == ucrc
    ensures a.rc != 0 ==> a.peer == peer
  {
    TriedKnows(env.accounts, ucrc, 1);
    if peer.Known? && peer.settled then Auth(if peer.ucrc == ucrc then 0 else 1, peer)
    else
      var a := TryAccounts(env.accounts, ucrc, 1);
      if a.rc == 0 then a else Auth(a.rc, peer)
  }

  /** A user who is let in is let in again with the same key, also where the accounts are
      searched anew. */
  lemma {:induction false} LetInAgain(env: Env, peer: Peer, ucrc: Ucrc)
    requires AuthClient(env, peer, ucrc).rc == 0
    ensures AuthClient(env, AuthClient(env, peer, ucrc).peer, ucrc) == AuthClient(env, peer, ucrc)
  {
    hide TryAccounts;
    TriedKnows(env.accounts, ucrc, 1);
  }

  /** The first 32 bytes of a message, decrypted, if rc is 0. */
  datatype Front = Front(rc: int, head: seq<byte>, consumed: nat, peer: Peer)

  function ReadFront(env: Env, peer: Peer, stream: seq<byte>): (f: Front)
    ensures f.consumed <= |stream|
    ensures f.rc == 0 ==> |f.head| == 32 && f.consumed == 36 && f.peer.Known?
    ensures f.rc <= 0
  {
    if |stream| < 36 then Front(-5, [], |stream|, peer)
    else
      var a := AuthClient(env, peer, stream[..4]);
      if a.rc != 0 then Front(if a.rc == 1 then -2 else -9, [], 36, a.peer)
      else Front(0, Decrypt(env.c, a.peer.key, stream[4..36]), 36, a.peer)
  }

  /** The return code, the message where that is its size, and the bytes taken off the stream. */
  datatype Returned = Returned(rc: int, message: seq<byte>, consumed: nat, peer: Peer)

  /** camd35_recv on a TCP stream. */
  function ReadPacket(env: Env, peer: Peer, stream: seq<byte>): (r: Returned)
    ensures r.consumed <= |stream|
    ensures r.rc > 0 ==> |r.message| == r.rc
  {
    var f := ReadFront(env, peer, stream);
    if f.rc != 0 then Returned(f.rc, [], f.consumed, f.peer)
    else
      var n := Size(f.head);
      if |stream| < 4 + n then Returned(-3, [], |stream|, f.peer)
      else
        var buf := f.head + Decrypt(env.c, f.peer.key, stream[36..4 + n]);
        if env.c.crc32(buf[20..20 + LengthField(f.head)]) != BytesToInt(buf, 4, 4) then Returned(-4, [], 4 + n, f.peer)
        else Returned(n, buf, 4 + n, f.peer)
  }

  // ---------------------------------------------------------------- what is refused

  /** The checksum a message carries is that of its data. */
  predicate ChecksumRight(c: Crypto, msg: seq<byte>)
    requires |msg| >= 32 && |msg| >= 20 + LengthField(msg)
  {
    c.crc32(msg[20..20 + LengthField(msg)]) == BytesToInt(msg, 4, 4)
  }

  /** The two pieces decrypt to what the whole decrypts to. */
  lemma {:induction false} WholeMessage(c: Crypto, k: AesKey, stream: seq<byte>, n: nat)
    requires 32 <= n && n % 16 == 0 && |stream| >= 4 + n
    ensures var msg := Decrypt(c, k, stream[4..4 + n]);
            var head := Decrypt(c, k, stream[4..36]);
            && msg == head + Decrypt(c, k, stream[36..4 + n]) && |msg| == n && |head| == 32
            && LengthField(msg) == LengthField(head)
  {
    hide Blocks;
    var a, b := stream[4..36], stream[36..4 + n];
    assert stream[4..4 + n] == a + b;
    BlocksAppend(c.dec(k), a, b);
  }

  /** Whatever the stream: what becomes of it, by how much of it is there, whether the user is let
      in, and whether the checksum of what the whole packet decrypts to is right. */
  lemma {:induction false} ReceivedExactly(env: Env, peer: Peer, stream: seq<byte>)
    ensures var r := ReadPacket(env, peer, stream);
            if |stream| < 36 then r.rc == -5 && r.consumed == |stream| && r.peer == peer
            else
              var a := AuthClient(env, peer, stream[..4]);
              && r.peer == a.peer
              && (a.rc == 1 ==> r.rc == -2) && (a.rc != 0 && a.rc != 1 ==> r.rc == -9) && (a.rc != 0 ==> r.consumed == 36)
              && (a.rc == 0 ==>
                    var n := Size(Decrypt(env.c, a.peer.key, stream[4..36]));
                    if |stream| < 4 + n then r.rc == -3 && r.consumed == |stream|
                    else
                      var msg := Decrypt(env.c, a.peer.key, stream[4..4 + n]);
                      && |msg| == n && n >= 20 + LengthField(msg) && r.consumed == 4 + n
                      && (if ChecksumRight(env.c, msg) then r.rc == n && r.message == msg else r.rc == -4))
  {
    hide Blocks, AuthClient, Boundary, LengthField, BytesToInt;
    if |stream| >= 36 && AuthClient(env, peer, stream[..4]).rc == 0 {
      var k := AuthClient(env, peer, stream[..4]).peer.key;
      var head := Decrypt(env.c, k, stream[4..36]);
      var n := Size(head);
      if |stream| >= 4 + n {
        WholeMessage(env.c, k, stream, n);
      }
    }
  }

  /** A message that is returned has its checksum right: a packet that was altered, or encrypted
      under another password, is only taken where the checksum happens to agree. */
  lemma {:induction false} ReturnedIsChecked(env: Env, peer: Peer, stream: seq<byte>)
    ensures var r := ReadPacket(env, peer, stream);
            r.rc > 0 ==> |r.message| >= 32 && |r.message| >= 20 + LengthField(r.message) && ChecksumRight(env.c, r.message)
  {
    hide ReadPacket, AuthClient, Decrypt, ChecksumRight;
    ReceivedExactly(env, peer, stream);
  }

  /** The answer -4: the user is let in, the whole packet is there, its checksum is wrong. */
  lemma {:induction false} ChecksumRefusedExactly(env: Env, peer: Peer, stream: seq<byte>)
    ensures ReadPacket(env, peer, stream).rc == -4 <==>
            && |stream| >= 36 && AuthClient(env, peer, stream[..4]).rc == 0
            && var k := AuthClient(env, peer, stream[..4]).peer.key;
               var n := Size(Decrypt(env.c, k, stream[4..36]));
               && |stream| >= 4 + n
               && var msg := Decrypt(env.c, k, stream[4..4 + n]);
                  |msg| >= 32 && |msg| >= 20 + LengthField(msg) && !ChecksumRight(env.c, msg)
  {
    hide ReadPacket, AuthClient, Decrypt, ChecksumRight;
    ReceivedExactly(env, peer, stream);
  }

  /** The accounts of the user, in order. */
  function Named(accounts: seq<Account>, ucrc: Ucrc): (ms: seq<Account>)
    ensures forall a :: a in ms <==> a in accounts && a.crc == BytesToInt(ucrc, 0, 4)
  {
    if accounts == [] then []
    else
      assert accounts == [accounts[0]] + accounts[1..];
      (if accounts[0].crc == BytesToInt(ucrc, 0, 4) then [accounts[0]] else []) + Named(accounts[1..], ucrc)
  }

  /** The n-th account is the first of them that may log in. */
  ghost predicate FirstOpen(ms: seq<Account>, n: nat) {
    n < |ms| && ms[n].auth == 0 && forall i :: 0 <= i < n ==> ms[i].auth != 0
  }

  /** The answer of a search through the accounts ms of a user. */
  ghost predicate SearchedAs(a: Auth, ms: seq<Account>, ucrc: Ucrc, rc: int) {
    if a.rc == 0 then exists n: nat :: FirstOpen(ms, n) && a.peer == Known(ucrc, ms[n].key, !ms[n].blank)
    else (forall n: nat :: !FirstOpen(ms, n)) && a.rc == if ms == [] then rc else ms[|ms| - 1].auth
  }

  lemma {:induction false} SearchedLater(a: Auth, m: Account, rest: seq<Account>, ucrc: Ucrc, rc: int)
    requires m.auth != 0 && SearchedAs(a, rest, ucrc, m.auth)
    ensures SearchedAs(a, [m] + rest, ucrc, rc)
  {
    var ms := [m] + rest;
    if a.rc == 0 {
      var n: nat :| FirstOpen(rest, n) && a.peer == Known(ucrc, rest[n].key, !rest[n].blank);
      assert FirstOpen(ms, n + 1) && ms[n + 1] == rest[n];
    } else {
      forall n: nat ensures !FirstOpen(ms, n) {
        if FirstOpen(ms, n) {
          assert n > 0 && ms[n] == rest[n - 1];
          assert forall i :: 0 <= i < n - 1 ==> rest[i] == ms[i + 1];
          assert FirstOpen(rest, n - 1);
        }
      }
    }
  }

  lemma {:induction false} SearchedNow(m: Account, rest: seq<Account>, ucrc: Ucrc, rc: int)
    requires m.auth == 0
    ensures SearchedAs(Auth(0, Known(ucrc, m.key, !m.blank)), [m] + rest, ucrc, rc)
  {
    assert FirstOpen([m] + rest, 0);
  }

  lemma {:induction false} NothingSearched(ucrc: Ucrc, rc: int)
    requires rc != 0
    ensures SearchedAs(Auth(rc, Unknown), [], ucrc, rc)
  {
  }

  lemma {:induction false} TriedExactly(accounts: seq<Account>, ucrc: Ucrc, rc: int)
    requires rc != 0
    ensures SearchedAs(TryAccounts(accounts, ucrc, rc), Named(accounts, ucrc), ucrc, rc)
  {
    hide BytesToInt, SearchedAs;
    if accounts == [] {
      assert SearchedAs(Auth(rc, Unknown), [], ucrc, rc) by { NothingSearched(ucrc, rc); }
    } else {
      var rest := Named(accounts[1..], ucrc);
      if accounts[0].crc != BytesToInt(ucrc, 0, 4) {
        TriedExactly(accounts[1..], ucrc, rc);
        assert Named(accounts, ucrc) == [] + rest == rest;
      } else if accounts[0].auth == 0 {
        SearchedNow(accounts[0], rest, ucrc, rc);
      } else {
        TriedExactly(accounts[1..], ucrc, accounts[0].auth);
        SearchedLater(TryAccounts(accounts, ucrc, rc), accounts[0], rest, ucrc, rc);
      }
    }
  }

  /** A user not yet settled is let in exactly if an account of the name may log in, with the key
      of the first such one; the refusal is that of the last account of the name, or 1. */
  lemma {:induction false} LetInExactly(env: Env, peer: Peer, ucrc: Ucrc)
    requires !(peer.Known? && peer.settled)
    ensures SearchedAs(AuthClient(env, peer, ucrc), Named(env.accounts, ucrc), ucrc, 1)
  {
    hide TryAccounts, Named, FirstOpen;
    TriedExactly(env.accounts, ucrc, 1);
  }

  /** A settled user is let in exactly with the name it came with. */
  lemma {:induction false} SettledStays(env: Env, peer: Peer, ucrc: Ucrc)
    requires peer.Known? && peer.settled
    ensures AuthClient(env, peer, ucrc).rc == 0 <==> ucrc == peer.ucrc
    ensures AuthClient(env, peer, ucrc).rc == 0 || AuthClient(env, peer, ucrc).rc == 1
    ensures AuthClient(env, peer, ucrc).peer == peer
  {
  }

  // ---------------------------------------------------------------- one packet

  /** What the sender is asked for: a message whose length field is right. */
  predicate WellFormed(msg: seq<byte>, buflen: nat) {
    Fits(msg, buflen) && LengthField(Padded(msg)) == buflen
  }

  lemma {:induction false} BoundaryAtLeast(n: nat)
    requires n >= 20
    ensures Boundary(n) >= 32
  {
  }

  lemma {:induction false} SameLengthField(a: seq<byte>, b: seq<byte>)
    requires |a| >= 23 && |b| >= 23
    requires a[0] == b[0] && a[1] == b[1] && a[2] == b[2] && a[21] == b[21] && a[22] == b[22]
    ensures LengthField(a) == LengthField(b)
  {
  }

  lemma {:induction false} BoundaryNear(n: nat)
    ensures n <= Boundary(n) <= n + 15
  {
  }

  lemma {:induction false} SealedAt(c: Crypto, msg: seq<byte>, buflen: nat)
    requires Fits(msg, buflen)
    ensures var p := Sealed(c, msg, buflen);
            var crc := U32Bytes(c.crc32(msg[20..20 + buflen]));
            |crc| == 4 &&
            forall i :: 0 <= i < |p| ==> p[i] == if 4 <= i < 8 then crc[i - 4] else if i < |msg| then msg[i] else 0xFF
  {
    hide Boundary;
  }

  lemma {:induction false} SealedFacts(c: Crypto, msg: seq<byte>, buflen: nat)
    requires WellFormed(msg, buflen)
    ensures var p := Sealed(c, msg, buflen);
            && |p| >= 32 && |p| % 16 == 0
            && p[0] == msg[0] && LengthField(p[..32]) == buflen
            && 20 + buflen <= |p| && p[20..20 + buflen] == msg[20..20 + buflen]
            && BytesToInt(p, 4, 4) == c.crc32(msg[20..20 + buflen])
  {
    hide Boundary;
    var p := Sealed(c, msg, buflen);
    var padded := Padded(msg);
    var crc := c.crc32(msg[20..20 + buflen]);
    assert |U32Bytes(crc)| == 4;
    assert p[4..8] == U32Bytes(crc);
    U32RoundTrip(p, 4, crc);
    assert forall i :: 0 <= i < |p| && !(4 <= i < 8) ==> p[i] == padded[i];
    assert |p| >= 32 by { BoundaryAtLeast(|msg|); }
    SameLengthField(p[..32], padded);
  }

  lemma {:induction false} PacketParts(c: Crypto, k: AesKey, ucrc: Ucrc, msg: seq<byte>, buflen: nat, rest: seq<byte>, m: nat)
    requires Fits(msg, buflen) && Invertible(c) && 32 <= m <= Boundary(|msg|) && m % 16 == 0
    ensures var s := Packet(c, k, ucrc, msg, buflen) + rest;
            && s[..4] == ucrc && |s| >= 4 + m
            && Decrypt(c, k, s[4..36]) == Sealed(c, msg, buflen)[..32]
            && Decrypt(c, k, s[36..4 + m]) == Sealed(c, msg, buflen)[32..m]
  {
    hide Blocks, Boundary, Sealed, Invertible, LengthField;
    var p := Sealed(c, msg, buflen);
    var s := Packet(c, k, ucrc, msg, buflen) + rest;
    var a, b, z := p[..32], p[32..m], p[m..];
    assert p == (a + b) + z;
    BlocksAppend(c.enc(k), a + b, z);
    BlocksAppend(c.enc(k), a, b);
    var ea, eb, ez := Encrypt(c, k, a), Encrypt(c, k, b), Encrypt(c, k, z);
    assert s == ucrc + ((ea + eb) + ez) + rest;
    assert s[4..36] == ea;
    assert s[36..4 + m] == eb;
    DecryptsBack(c, k, a);
    DecryptsBack(c, k, b);
  }

  /** A packet comes back as the sealed message, with its size, and is taken off the stream
      exactly, whatever follows it. */
  lemma {:induction false} PacketReadsBack(env: Env, peer: Peer, k: AesKey, ucrc: Ucrc, msg: seq<byte>, buflen: nat, rest: seq<byte>)
    requires WellFormed(msg, buflen) && msg[0] != 4 && Invertible(env.c)
    requires AuthClient(env, peer, ucrc).rc == 0 && AuthClient(env, peer, ucrc).peer.key == k
    ensures ReadPacket(env, peer, Packet(env.c, k, ucrc, msg, buflen) + rest) ==
            Returned(Boundary(|msg|), Sealed(env.c, msg, buflen), 4 + Boundary(|msg|),
                     AuthClient(env, peer, ucrc).peer)
  {
    hide Encrypt, Decrypt, Sealed, Packet, AuthClient, LengthField, Invertible, BytesToInt;
    var p := Sealed(env.c, msg, buflen);
    SealedFacts(env.c, msg, buflen);
    PacketParts(env.c, k, ucrc, msg, buflen, rest, |p|);
    assert Size(p[..32]) == |p|;
    assert p[..32] + p[32..|p|] == p;
  }

  /** A well-formed packet is taken off the stream exactly if its command is not 4. The sender
      makes commands 3 and 4 longer by 0x34 bytes, the receiver only expects that of 3. */
  lemma {:induction false} ConsumedExactly(env: Env, peer: Peer, k: AesKey, ucrc: Ucrc, msg: seq<byte>, buflen: nat, rest: seq<byte>)
    requires WellFormed(msg, buflen) && Invertible(env.c)
    requires AuthClient(env, peer, ucrc).rc == 0 && AuthClient(env, peer, ucrc).peer.key == k
    ensures var p := Packet(env.c, k, ucrc, msg, buflen);
            ReadPacket(env, peer, p + rest).consumed == |p| <==> msg[0] != 4
  {
    if msg[0] != 4 {
      hide Encrypt, Decrypt, Sealed, Packet, ReadPacket;
      PacketReadsBack(env, peer, k, ucrc, msg, buflen, rest);
    } else {
      hide Encrypt, Decrypt, Sealed, Packet, AuthClient, LengthField, Invertible, BytesToInt;
      var p := Sealed(env.c, msg, buflen);
      SealedFacts(env.c, msg, buflen);
      var m := Boundary(20 + buflen);
      PacketParts(env.c, k, ucrc, msg, buflen, rest, m);
      assert Size(p[..32]) == m;
    }
  }

  /** The size a receiver reads off a message. */
  function SizeRead(msg: seq<byte>): nat
    requires |msg| >= 20
  {
    BoundaryAtLeast(|msg|);
    Size(Padded(msg)[..32])
  }

  /** Sealing changes neither the command nor the length field. */
  lemma {:induction false} SealedHead(c: Crypto, msg: seq<byte>, buflen: nat)
    requires Fits(msg, buflen)
    ensures |Sealed(c, msg, buflen)| >= 32 && Size(Sealed(c, msg, buflen)[..32]) == SizeRead(msg)
  {
    hide Boundary;
    BoundaryAtLeast(|msg|);
    var p, padded := Sealed(c, msg, buflen), Padded(msg);
    assert |U32Bytes(c.crc32(msg[20..20 + buflen]))| == 4;
    assert forall i :: 0 <= i < |p| && !(4 <= i < 8) ==> p[i] == padded[i];
    SameLengthField(p[..32], padded[..32]);
  }

  /** Whatever its length field says: with enough bytes behind it, a packet is taken off the
      stream exactly if the size that is read off it is the size it has. */
  lemma {:induction false} ConsumedIfSized(env: Env, peer: Peer, k: AesKey, ucrc: Ucrc, msg: seq<byte>, buflen: nat, rest: seq<byte>)
    requires Fits(msg, buflen) && Invertible(env.c)
    requires AuthClient(env, peer, ucrc).rc == 0 && AuthClient(env, peer, ucrc).peer.key == k
    requires |Packet(env.c, k, ucrc, msg, buflen) + rest| >= 4 + SizeRead(msg)
    ensures var p := Packet(env.c, k, ucrc, msg, buflen);
            ReadPacket(env, peer, p + rest).consumed == |p| <==> SizeRead(msg) == Boundary(|msg|)
  {
    hide Encrypt, Decrypt, Packet, AuthClient, LengthField, Invertible, BytesToInt, Boundary;
    BoundaryAtLeast(|msg|);
    var p := Sealed(env.c, msg, buflen);
    PacketParts(env.c, k, ucrc, msg, buflen, rest, 32);
    SealedHead(env.c, msg, buflen);
  }

  /** So a cache push sent with the default length is taken off exactly if it has less than 256
      bytes of data: of a longer one the receiver waits for bytes that are not there. */
  lemma {:induction false} DefaultPushSized(msg: seq<byte>)
    requires |msg| >= 20 && IsCacheExPush(msg[0]) && Fits(msg, DefaultLength(msg))
    ensures SizeRead(msg) == Boundary(|msg|) + 256 * (msg[2] as int)
    ensures SizeRead(msg) == Boundary(|msg|) <==> msg[2] == 0
  {
    var padded := Padded(msg);
    assert padded[0] == msg[0] && padded[1] == msg[1] && padded[2] == msg[2];
  }

  // ---------------------------------------------------------------- the stream

  datatype Message = Message(msg: seq<byte>, buflen: nat)

  datatype Many = Many(messages: seq<seq<byte>>, rest: seq<byte>, peer: Peer)

  /** n calls of camd35_recv. */
  function ReadMany(env: Env, peer: Peer, stream: seq<byte>, n: nat): Many {
    if n == 0 then Many([], stream, peer)
    else
      var m := ReadMany(env, peer, stream, n - 1);
      var r := ReadPacket(env, m.peer, m.rest);
      Many(m.messages + [r.message], m.rest[r.consumed..], r.peer)
  }

  predicate AllSendable(ms: seq<Message>) {
    forall i :: 0 <= i < |ms| ==> WellFormed(ms[i].msg, ms[i].buflen) && ms[i].msg[0] != 4
  }

  function Packets(c: Crypto, k: AesKey, ucrc: Ucrc, ms: seq<Message>): (ps: seq<seq<byte>>)
    requires AllSendable(ms)
    ensures |ps| == |ms|
  {
    seq(|ms|, i requires 0 <= i < |ms| => Packet(c, k, ucrc, ms[i].msg, ms[i].buflen))
  }

  function SealedAll(c: Crypto, ms: seq<Message>): (ps: seq<seq<byte>>)
    requires AllSendable(ms)
    ensures |ps| == |ms|
  {
    seq(|ms|, i requires 0 <= i < |ms| => Sealed(c, ms[i].msg, ms[i].buflen))
  }

  lemma {:induction false} NoneFlat(ps: seq<seq<byte>>)
    requires ps == []
    ensures Flatten(ps) == []
  {
  }

  lemma {:induction false} LastOfAll(c: Crypto, k: AesKey, ucrc: Ucrc, ms: seq<Message>)
    requires ms != [] && AllSendable(ms)
    ensures var n := |ms| - 1;
            var ps := Packets(c, k, ucrc, ms);
            && AllSendable(ms[..n]) && WellFormed(ms[n].msg, ms[n].buflen)
            && ps[n] == Packet(c, k, ucrc, ms[n].msg, ms[n].buflen)
            && ps[..n] == Packets(c, k, ucrc, ms[..n])
            && Flatten(ps) == Flatten(ps[..n]) + ps[n]
            && SealedAll(c, ms) == SealedAll(c, ms[..n]) + [Sealed(c, ms[n].msg, ms[n].buflen)]
  {
    hide Packet, Sealed, LengthField;
  }

  /** Any packets sent back to back come out in order, each with its checksum right, and
      nothing of what follows is touched. */
  lemma {:induction false} StreamDelivers(env: Env, peer: Peer, k: AesKey, ucrc: Ucrc, ms: seq<Message>, rest: seq<byte>)
    requires AllSendable(ms) && Invertible(env.c)
    requires AuthClient(env, peer, ucrc).rc == 0 && AuthClient(env, peer, ucrc).peer.key == k
    ensures ReadMany(env, peer, Flatten(Packets(env.c, k, ucrc, ms)) + rest, |ms|) ==
            Many(SealedAll(env.c, ms), rest, if ms == [] then peer else AuthClient(env, peer, ucrc).peer)
    decreases |ms|
  {
    hide ReadPacket, Packets, SealedAll, Packet, Sealed, Invertible, AuthClient, WellFormed, Flatten;
    LetInAgain(env, peer, ucrc);
    var ps := Packets(env.c, k, ucrc, ms);
    if ms == [] {
      assert Flatten(ps) + rest == rest by { NoneFlat(ps); }
    } else {
      var n := |ms| - 1;
      LastOfAll(env.c, k, ucrc, ms);
      var behind := ps[n] + rest;
      StreamDelivers(env, peer, k, ucrc, ms[..n], behind);
      assert Flatten(ps) + rest == Flatten(ps[..n]) + behind;
      PacketReadsBack(env, if n == 0 then peer else AuthClient(env, peer, ucrc).peer, k, ucrc, ms[n].msg, ms[n].buflen, rest);
      assert behind[|ps[n]|..] == rest;
    }
  }

  // ---------------------------------------------------------------- the program

  /** A buffer of which i bytes from start on have been through the cipher. */
  ghost function Done(f: Block -> Block, s: seq<byte>, start: nat, i: nat): (d: seq<byte>)
    requires start + i <= |s|
    ensures i % 16 == 0 ==> |d| == |s|
  {
    s[..start] + Blocks(f, s[start..start + i]) + s[start + i..]
  }

  lemma {:induction false} DoneNext(f: Block -> Block, s: seq<byte>, start: nat, i: nat)
    requires i % 16 == 0 && start + i + 16 <= |s|
    ensures var d, at := Done(f, s, start, i), start + i;
            && d[at..at + 16] == s[at..at + 16]
            && Done(f, s, start, i + 16) == d[..at] + f(s[at..at + 16]) + d[at + 16..]
  {
    hide Blocks;
    var at := start + i;
    var a, b := s[start..at], s[at..at + 16];
    assert s[start..at + 16] == a + b;
    BlocksLast(f, a, b);
    var x, y, z := s[..start], Blocks(f, a), s[at..];
    assert z[16..] == s[at + 16..] && z[..16] == b;
    assert (x + y + z)[..at] == x + y && (x + y + z)[at..] == z;
  }

  lemma {:induction false} DoneParts(f: Block -> Block, s: seq<byte>, start: nat, n: nat)
    requires n % 16 == 0 && start + n <= |s|
    ensures var d := Done(f, s, start, n);
            d[..start] == s[..start] && d[start..start + n] == Blocks(f, s[start..start + n]) && d[start + n..] == s[start + n..]
  {
  }

  lemma {:induction false} NothingDone(f: Block -> Block, s: seq<byte>, start: nat)
    requires start <= |s|
    ensures Done(f, s, start, 0) == s
  {
  }

  method PutBlock(buf: array<byte>, at: nat, b: Block)
    requires at + 16 <= buf.Length
    modifies buf
    ensures buf[..] == old(buf[..at]) + b + old(buf[at + 16..])
  {
    forall j | 0 <= j < 16 {
      buf[at + j] := b[j];
    }
  }

  /** aes_encrypt_idx and aes_decrypt: whole blocks, in place. */
  method AesInPlace(f: Block -> Block, buf: array<byte>, start: nat, n: nat)
    requires start + n <= buf.Length && n % 16 == 0
    modifies buf
    ensures buf[..start] == old(buf[..start])
    ensures buf[start..start + n] == Blocks(f, old(buf[start..start + n]))
    ensures buf[start + n..] == old(buf[start + n..])
  {
    hide Blocks, Done;
    ghost var before := buf[..];
    var i := 0;
    assert buf[..] == Done(f, before, start, 0) by { NothingDone(f, before, start); }
    while i < n
      invariant 0 <= i <= n && (n - i) % 16 == 0 && i % 16 == 0
      invariant buf[..] == Done(f, before, start, i)
    {
      DoneNext(f, before, start, i);
      var at := start + i;
      var b := f(buf[at..at + 16]);
      PutBlock(buf, at, b);
      i := i + 16;
    }
    DoneParts(f, before, start, n);
    assert buf[..][start..start + n] == buf[start..start + n];
  }

  /** What the operating system does on one call: hand over at most so many bytes, ask to try
      again, or fail. */
  datatype Outcome = Chunk(n: nat) | Again | Fail

  class Socket {
    var pending: seq<byte>
    var outcomes: seq<Outcome>

    constructor (pending: seq<byte>, outcomes: seq<Outcome>)
      ensures this.pending == pending && this.outcomes == outcomes
    {
      this.pending, this.outcomes := pending, outcomes;
    }

    /** recv: bytes read; 0 at the end of the stream; -1 to try again; -2 on an error. */
    method Recv(buf: array<byte>, at: nat, max: nat) returns (r: int)
      requires 0 < max && at + max <= buf.Length
      modifies this, buf
      ensures -2 <= r <= max
      ensures outcomes == if old(outcomes) == [] then [] else old(outcomes)[1..]
      ensures r < 0 ==> old(outcomes) != [] && pending == old(pending) && buf[..] == old(buf[..])
      ensures r == -2 ==> Fail in old(outcomes)
      ensures r == 0 ==> pending == old(pending) == [] && buf[..] == old(buf[..])
      ensures r > 0 ==> r <= |old(pending)| && pending == old(pending)[r..]
      ensures r > 0 ==> forall i :: 0 <= i < buf.Length ==>
                                      buf[i] == if at <= i < at + r then old(pending)[i - at] else old(buf[i])
    {
      var n := max;
      if outcomes != [] {
        var o := outcomes[0];
        outcomes := outcomes[1..];
        if o.Again? {
          return -1;
        }
        if o.Fail? {
          return -2;
        }
        n := if o.n == 0 then 1 else if o.n < max then o.n else max;
      }
      if |pending| < n {
        n := |pending|;
      }
      forall i | 0 <= i < n {
        buf[at + i] := pending[i];
      }
      pending := pending[n..];
      return n;
    }

    /** Reads until tot bytes are there, the stream ends, or an error occurs. */
    method ReadFully(buf: array<byte>, at: nat, tot: nat) returns (got: nat, failed: bool)
      requires at + tot <= buf.Length
      modifies this, buf
      ensures got <= tot && got <= |old(pending)| && pending == old(pending)[got..]
      ensures forall i :: 0 <= i < buf.Length ==>
                            buf[i] == if at <= i < at + got then old(pending)[i - at] else old(buf[i])
      ensures buf[at..at + got] == old(pending)[..got]
      ensures !failed ==> got == if tot <= |old(pending)| then tot else |old(pending)|
      ensures Fail !in old(outcomes) ==> !failed && Fail !in outcomes
      ensures failed ==> got < tot
    {
      got, failed := 0, false;
      while got != tot
        invariant got <= tot && got <= |old(pending)| && pending == old(pending)[got..] && !failed
        invariant forall i :: 0 <= i < buf.Length ==>
                                buf[i] == if at <= i < at + got then old(pending)[i - at] else old(buf[i])
        invariant Fail !in old(outcomes) ==> Fail !in outcomes
        decreases |outcomes|, tot - got
      {
        var readed := Recv(buf, at + got, tot - got);
        if readed == -1 {
          continue;
        }
        if readed <= 0 {
          failed := readed < 0;
          break;
        }
        got := got + readed;
      }
    }
  }

  lemma {:induction false} NextPiece(s: seq<byte>, at: nat, n: nat)
    requires at + n <= |s|
    ensures s[at..][..n] == s[at..at + n] && s[at..][n..] == s[at + n..]
  {
  }

  /** The receive buffer is as large as any length field can ask for. */
  const BUFFER_SIZE := 0x1_0100

  lemma {:induction false} SizeFits(head: seq<byte>)
    requires |head| >= 32
    ensures Size(head) + 4 <= BUFFER_SIZE
  {
  }

  lemma {:induction false} FrontOfPrefix(env: Env, peer: Peer, stream: seq<byte>, k: nat)
    requires 36 <= k <= |stream|
    ensures ReadFront(env, peer, stream[..k]) == ReadFront(env, peer, stream)
  {
    assert stream[..k][..4] == stream[..4] && stream[..k][4..36] == stream[4..36];
  }

  class Client {
    const env: Env
    var peer: Peer

    constructor (env: Env, peer: Peer)
      ensures this.env == env && this.peer == peer
    {
      this.env, this.peer := env, peer;
    }

    method Authenticate(ucrc: Ucrc) returns (rc: int)
      modifies this
      ensures Auth(rc, peer) == AuthClient(env, old(peer), ucrc)
    {
      if peer.Known? && peer.settled {
        return if peer.ucrc == ucrc then 0 else 1;
      }
      rc := 1;
      var i := 0;
      while i < |env.accounts|
        invariant 0 <= i <= |env.accounts| && peer == old(peer)
        invariant TryAccounts(env.accounts, ucrc, 1) == TryAccounts(env.accounts[i..], ucrc, rc)
      {
        var account := env.accounts[i];
        assert env.accounts[i..][1..] == env.accounts[i + 1..];
        if account.crc == BytesToInt(ucrc, 0, 4) {
          rc := account.auth;
          if rc == 0 {
            peer := Known(ucrc, account.key, !account.blank);
            return;
          }
        }
        i := i + 1;
      }
    }

    /** The message behind the user's checksum, padded and signed. */
    method Prepare(msg: seq<byte>, buflen: nat) returns (rbuf: array<byte>)
      requires peer.Known? && Fits(msg, buflen)
      ensures fresh(rbuf) && rbuf.Length == 4 + |msg| + 15
      ensures rbuf[..4] == peer.ucrc && rbuf[4..4 + Boundary(|msg|)] == Sealed(env.c, msg, buflen)
    {
      hide Boundary;
      var l := |msg|;
      rbuf := new byte[4 + l + 15](_ => 0);
      forall i | 0 <= i < 4 { rbuf[i] := peer.ucrc[i]; }
      forall i | 0 <= i < l { rbuf[4 + i] := msg[i]; }
      forall i | 0 <= i < 15 { rbuf[4 + l + i] := 0xFF; }
      var crc := U32Bytes(env.c.crc32(msg[20..20 + buflen]));
      assert |crc| == 4;
      forall i | 0 <= i < 4 { rbuf[8 + i] := crc[i]; }
      ghost var n := Boundary(l);
      assert l <= n <= l + 15 by { BoundaryNear(l); }
      ghost var sealed := Sealed(env.c, msg, buflen);
      assert forall i :: 0 <= i < n ==> rbuf[4 + i] == sealed[i] by { SealedAt(env.c, msg, buflen); }
      assert rbuf[..4] == peer.ucrc;
    }

    /** Builds the packet in a buffer and encrypts it in place. */
    method Send(msg: seq<byte>, buflen0: int) returns (rbuf: array<byte>, size: nat)
      requires peer.Known? && |msg| >= 20
      requires buflen0 <= 0 && msg[0] == 0 ==> |msg| >= 23
      requires Fits(msg, if buflen0 <= 0 then DefaultLength(msg) else buflen0)
      ensures size == 4 + Boundary(|msg|) <= rbuf.Length
      ensures rbuf[..size] == Packet(env.c, peer.key, peer.ucrc, msg, if buflen0 <= 0 then DefaultLength(msg) else buflen0)
    {
      hide Blocks, Boundary, DefaultLength, Sealed;
      var buflen := if buflen0 <= 0 then DefaultLength(msg) else buflen0;
      rbuf := Prepare(msg, buflen);
      var n := Boundary(|msg|);
      AesInPlace(env.c.enc(peer.key), rbuf, 4, n);
      size := n + 4;
      assert rbuf[..size] == rbuf[..4] + rbuf[4..size];
    }

    /** Steps 0 and 1 and the first decryption. seen is the part of the stream that could be
        read: all of it, unless recv fails. */
    method ReceiveFront(sock: Socket, buf: array<byte>) returns (rc: int, ghost seen: nat)
      requires buf.Length == BUFFER_SIZE
      modifies this, sock, buf
      ensures rc <= 0 && (rc == 0 ==> peer.Known? && seen == |old(sock.pending)|)
      ensures seen <= |old(sock.pending)| && (Fail !in old(sock.outcomes) ==> seen == |old(sock.pending)|)
      ensures var f := ReadFront(env, old(peer), old(sock.pending)[..seen]);
              && (if f.rc == -5 then rc == -5 || rc == -1 else rc == f.rc)
              && (Fail !in old(sock.outcomes) ==> rc == f.rc)
              && peer == f.peer && sock.pending == old(sock.pending)[f.consumed..] && (rc == 0 ==> buf[..32] == f.head)
      ensures Fail !in old(sock.outcomes) ==> Fail !in sock.outcomes
    {
      hide Blocks, AuthClient, BytesToInt;
      ghost var stream := sock.pending;
      var rs, failed := sock.ReadFully(buf, 0, 36);
      if rs < 36 {
        return if failed then -1 else -5, rs;
      }
      seen := |stream|;
      assert stream[..seen] == stream;
      assert buf[..4] == stream[..4];
      var auth := Authenticate(buf[..4]);
      if auth != 0 {
        rc := if auth == 1 then -2 else -9;
        return;
      }
      forall i | 0 <= i < 32 {
        buf[i] := buf[i + 4];
      }
      assert buf[0..32] == stream[4..36];
      AesInPlace(env.c.dec(peer.key), buf, 0, 32);
      assert buf[..32] == buf[0..32];
      rc := 0;
    }

    /** camd35_recv: an error of recv acts like the end of the stream where it occurs, except
        that an error in the first piece is reported as -1. */
    method Receive(sock: Socket, buf: array<byte>) returns (rc: int, ghost seen: nat)
      requires buf.Length == BUFFER_SIZE
      modifies this, sock, buf
      ensures seen <= |old(sock.pending)| && (Fail !in old(sock.outcomes) ==> seen == |old(sock.pending)|)
      ensures var r := ReadPacket(env, old(peer), old(sock.pending)[..seen]);
              && (if r.rc == -5 then rc == -5 || rc == -1 else rc == r.rc)
              && (Fail !in old(sock.outcomes) ==> rc == r.rc)
              && peer == r.peer && sock.pending == old(sock.pending)[r.consumed..]
              && (rc > 0 ==> rc <= buf.Length && buf[..rc] == r.message)
      ensures Fail !in old(sock.outcomes) ==> Fail !in sock.outcomes
    {
      hide Blocks, ReadFront, LengthField, BytesToInt, Size;
      ghost var stream := sock.pending;
      rc, seen := ReceiveFront(sock, buf);
      if rc != 0 {
        return;
      }
      assert stream[..seen] == stream;
      ghost var head := buf[..32];
      var n := Size(buf[..32]);
      SizeFits(buf[..32]);
      var buflen := LengthField(buf[..32]);
      var len, failed := sock.ReadFully(buf, 32, n - 32);
      if len < n - 32 {
        seen := 36 + len;
        FrontOfPrefix(env, old(peer), stream, seen);
        rc := -3;
        return;
      }
      NextPiece(stream, 36, n - 32);
      assert buf[..32] == head;
      AesInPlace(env.c.dec(peer.key), buf, 32, n - 32);
      assert buf[..32] == head;
      assert buf[..n] == head + buf[32..n];
      if env.c.crc32(buf[..n][20..20 + buflen]) != BytesToInt(buf[..n], 4, 4) {
        rc := -4;
        return;
      }
      rc := n;
    }
  }
}
