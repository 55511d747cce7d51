/**
 The CCcam stream cipher. Block is the cipher state as a value, CryptData says what one
 run over a piece of data means, and CryptBlock is the structure the program updates in
 place. The state byte feeds the plaintext back into the key stream, in both directions.
 */
module CryptStream {
  import opened Bytes

  datatype Mode = DECRYPT | ENCRYPT

  type Table = t: seq<byte> | |t| == 256 witness seq(256, _ => 0)

  datatype Block = Block(keytable: Table, state: byte, counter: byte, sum: byte)

  datatype Run = Run(block: Block, data: seq<byte>)

  // ---------------------------------------------------------------- specification

  function Swap(t: Table, i: byte, j: byte): Table {
    t[i := t[j]][j := t[i]]
  }

  function Identity(): Table {
    seq(256, i requires 0 <= i < 256 => i as byte)
  }

  datatype Schedule = Schedule(table: Table, j: byte)

  /** Round i of the key schedule, with key byte k. */
  function Round(p: Schedule, i: byte, k: byte): Schedule {
    var j: byte := (p.j + k + p.table[i]) % 256;
    Schedule(Swap(p.table, i, j), j)
  }

  /** The key table after the first n rounds of the key schedule. */
  function KeySchedule(key: seq<byte>, n: nat): Schedule
    requires key != [] && n <= 256
  {
    if n == 0 then Schedule(Identity(), 0)
    else
      Round(KeySchedule(key, n - 1), n - 1, key[(n - 1) % |key|])
  }

  function InitBlock(key: seq<byte>): Block
    requires key != []
  {
    Block(KeySchedule(key, 256).table, key[0], 0, 0)
  }

  /** Counter, sum and table as they are just before one byte is processed. */
  function Advance(b: Block): Block {
    var c := (b.counter + 1) % 256;
    var s := (b.sum + b.keytable[c]) % 256;
    Block(Swap(b.keytable, c, s), b.state, c, s)
  }

  function Mask(b: Block): byte {
    var k: int := b.keytable[b.counter] as int + b.keytable[b.sum];
    b.keytable[k % 256]
  }

  function Cipher(b: Block, z: byte): byte {
    var a := Advance(b);
    Xor(Xor(z, Mask(a)), a.state)
  }

  /** The block after a byte whose plaintext is p has gone through. */
  function Feed(b: Block, p: byte): Block {
    var a := Advance(b);
    a.(state := Xor(a.state, p))
  }

  function CryptByte(b: Block, z: byte, mode: Mode): (r: Run)
    ensures |r.data| == 1
  {
    var out := Cipher(b, z);
    Run(Feed(b, if mode.ENCRYPT? then z else out), [out])
  }

  function CryptData(b: Block, data: seq<byte>, mode: Mode): (r: Run)
    ensures |r.data| == |data|
    decreases |data|
  {
    if data == [] then Run(b, [])
    else
      var p := CryptData(b, data[..|data| - 1], mode);
      var q := CryptByte(p.block, data[|data| - 1], mode);
      Run(q.block, p.data + q.data)
  }

  // ---------------------------------------------------------------- the key table stays a permutation

  /** Every value occurs exactly once. */
  ghost predicate IsPermutation(t: Table) {
    forall v: byte :: multiset(t)[v] == 1
  }

  lemma {:induction false} SwapKeepsValues(t: Table, i: byte, j: byte)
    ensures multiset(Swap(t, i, j)) == multiset(t)
  {
  }

  lemma {:induction false} CountingUp(n: nat, v: int)
    requires n <= 256
    ensures multiset(Identity()[..n])[v] == if 0 <= v < n then 1 else 0
  {
    if n == 0 {
    } else {
      CountingUp(n - 1, v);
      assert Identity()[..n] == Identity()[..n - 1] + [(n - 1) as byte];
    }
  }

  lemma {:induction false} SchedulePermutes(key: seq<byte>, n: nat)
    requires key != [] && n <= 256
    ensures IsPermutation(KeySchedule(key, n).table)
  {
    hide Swap;
    if n == 0 {
      forall v: byte ensures multiset(Identity())[v] == 1 {
        CountingUp(256, v);
        assert Identity()[..256] == Identity();
      }
    } else {
      var p := KeySchedule(key, n - 1);
      SchedulePermutes(key, n - 1);
      SwapKeepsValues(p.table, n - 1, (p.j + key[(n - 1) % |key|] + p.table[n - 1]) % 256);
    }
  }

  /** Over any session, from any key on, the table holds each byte value exactly once. */
  lemma {:induction false} SessionPermutes(b: Block, data: seq<byte>, mode: Mode)
    requires IsPermutation(b.keytable)
    ensures IsPermutation(CryptData(b, data, mode).block.keytable)
    decreases |data|
  {
    hide Swap, Cipher;
    if data == [] {
    } else {
      SessionPermutes(b, data[..|data| - 1], mode);
      var p := CryptData(b, data[..|data| - 1], mode).block;
      var c := (p.counter + 1) % 256;
      SwapKeepsValues(p.keytable, c, (p.sum + p.keytable[c]) % 256);
    }
  }

  lemma {:induction false} PermutationIsInjective(t: Table)
    requires IsPermutation(t)
    ensures NoDuplicates(t)
    ensures forall v: byte :: v in t
  {
    forall v: byte ensures v in t {
      assert multiset(t)[v] == 1;
      assert v in multiset(t);
    }
    forall i, j | 0 <= i < j < |t| ensures t[i] != t[j] {
      assert t == t[..j] + t[j..];
      assert t[..j][i] == t[i] && t[j..][0] == t[j];
      assert t[i] in multiset(t[..j]) && t[j] in multiset(t[j..]);
      assert multiset(t)[t[i]] == multiset(t[..j])[t[i]] + multiset(t[j..])[t[i]];
    }
  }

  // ---------------------------------------------------------------- what the key decides

  lemma {:induction false} ShiftsDiffer(x: nat, y: nat, z: nat)
    requires y < 256 && z < 256 && y != z
    ensures (x + y) % 256 != (x + z) % 256
  {
  }

  lemma {:induction false} RoundsDiffer(p: Schedule, i: byte, k: byte, l: byte)
    requires k != l
    ensures Round(p, i, k).j != Round(p, i, l).j
  {
    hide Swap;
    var x: int, y: int, z: int := p.j as int + p.table[i], k, l;
    ShiftsDiffer(x, y, z);
  }

  lemma {:induction false} DivMod(i: nat, l: nat)
    requires l > 0
    ensures i == l * (i / l) + i % l && 0 <= i % l < l && i / l >= 0
  {
  }

  lemma {:induction false} TimesMore(l: nat, q: nat)
    ensures l * (q + 1) == l * q + l
  {
  }

  lemma {:induction false} Spread(m: nat, a: nat, b: nat)
    requires a < b
    ensures m * a + m <= m * b
  {
    TimesMore(m, b - 1);
    if a < b - 1 {
      Spread(m, a, b - 1);
    }
  }

  lemma {:induction false} ModIs(x: nat, m: nat, q: nat, r: nat)
    requires r < m && x == m * q + r
    ensures x % m == r
  {
    DivMod(x, m);
    var d := x / m;
    if d < q {
      Spread(m, d, q);
    } else if q < d {
      Spread(m, q, d);
    }
  }

  /** Within the first pass over the key, its bytes come one after the other. */
  lemma {:induction false} FirstPass(key: seq<byte>, n: nat)
    requires n < |key| && n < 256
    ensures KeySchedule(key, n + 1) == Round(KeySchedule(key, n), n, key[n])
  {
    hide Round;
    ModIs(n, |key|, 0, n);
  }

  lemma {:induction false} ScheduledAlike(a: seq<byte>, b: seq<byte>, n: nat)
    requires |a| == |b| && a != [] && n <= |a| && n <= 256 && a[..n] == b[..n]
    ensures KeySchedule(a, n) == KeySchedule(b, n)
  {
    hide Round;
    if n == 0 {
    } else {
      assert a[..n - 1] == a[..n][..n - 1] && b[..n - 1] == b[..n][..n - 1];
      ScheduledAlike(a, b, n - 1);
      assert a[n - 1] == a[..n][n - 1] == b[..n][n - 1] == b[n - 1];
      FirstPass(a, n - 1);
      FirstPass(b, n - 1);
    }
  }

  /** Every byte of the key counts, in its turn: keys that first differ at byte i schedule alike
      up to round i, and not in the next. */
  lemma {:induction false} KeysDiffer(a: seq<byte>, b: seq<byte>, i: nat)
    requires |a| == |b| && i < |a| && i < 256 && a[i] != b[i] && a[..i] == b[..i]
    ensures KeySchedule(a, i) == KeySchedule(b, i)
    ensures KeySchedule(a, i + 1).j != KeySchedule(b, i + 1).j
  {
    hide KeySchedule, Round;
    ScheduledAlike(a, b, i);
    FirstPass(a, i);
    FirstPass(b, i);
    RoundsDiffer(KeySchedule(a, i), i, a[i], b[i]);
  }

  lemma {:induction false} Twice(l: nat, h: nat, r: nat, i: nat)
    requires i == l * (2 * h) + r
    ensures i == (2 * l) * h + r
  {
  }

  lemma {:induction false} Doubled(key: seq<byte>, i: nat)
    requires key != []
    ensures (key + key)[i % |key + key|] == key[i % |key|]
  {
    var l := |key|;
    var q, r := i / l, i % l;
    DivMod(i, l);
    var h := q / 2;
    if q == 2 * h {
      Twice(l, h, r, i);
      ModIs(i, 2 * l, h, r);
    } else {
      assert q == 2 * h + 1;
      Twice(l, h, l + r, i) by { assert i == l * (2 * h + 1) + r; TimesMore(l, 2 * h); }
      ModIs(i, 2 * l, h, l + r);
    }
  }

  /** A key that is used up starts over: writing it twice makes no difference. */
  lemma {:induction false} KeyStartsOver(key: seq<byte>, n: nat)
    requires key != [] && n <= 256
    ensures KeySchedule(key + key, n) == KeySchedule(key, n)
  {
    hide Round;
    if n == 0 {
    } else {
      KeyStartsOver(key, n - 1);
      Doubled(key, n - 1);
    }
  }

  // ---------------------------------------------------------------- the keystream

  /** RC4, as it is commonly described: a permutation and two indices. */
  datatype Rc4 = Rc4(s: Table, i: byte, j: byte)

  function Rc4Step(r: Rc4): Rc4 {
    var i: byte := (r.i + 1) % 256;
    var j: byte := (r.j + r.s[i]) % 256;
    Rc4(r.s[i := r.s[j]][j := r.s[i]], i, j)
  }

  function Rc4Byte(r: Rc4): byte {
    var k: int := r.s[r.i] as int + r.s[r.j];
    r.s[k % 256]
  }

  function Rc4After(r: Rc4, n: nat): Rc4 {
    if n == 0 then r else Rc4Step(Rc4After(r, n - 1))
  }

  /** A state byte into which data has been mixed. */
  function Mixed(state: byte, data: seq<byte>): byte
    decreases |data|
  {
    if data == [] then state else Xor(Mixed(state, data[..|data| - 1]), data[|data| - 1])
  }

  function Rc4Of(b: Block): Rc4 {
    Rc4(b.keytable, b.counter, b.sum)
  }

  lemma {:induction false} StepIsRc4(b: Block, z: byte, mode: Mode)
    ensures var r := CryptByte(b, z, mode);
            && Rc4Of(r.block) == Rc4Step(Rc4Of(b))
            && r.data == [Xor(Xor(z, Rc4Byte(Rc4Step(Rc4Of(b)))), b.state)]
            && r.block.state == Xor(b.state, if mode.ENCRYPT? then z else r.data[0])
  {
    hide Xor;
  }

  /** The byte that comes out for byte n. */
  function FedByte(b: Block, data: seq<byte>, plain: seq<byte>, n: nat): byte
    requires n < |data| && n <= |plain|
  {
    Xor(Xor(data[n], Rc4Byte(Rc4After(Rc4Of(b), n + 1))), Mixed(b.state, plain[..n]))
  }

  lemma {:induction false} FedLonger(b: Block, data: seq<byte>, plain: seq<byte>, k: nat, n: nat)
    requires n < k <= |data| && k <= |plain|
    ensures FedByte(b, data[..k], plain[..k], n) == FedByte(b, data, plain, n)
  {
    hide Xor, Rc4After, Rc4Byte, Mixed;
    assert plain[..k][..n] == plain[..n];
  }

  /** The cipher is RC4 with plaintext feedback: byte n of the output is the byte of the input
      with the n-th byte of the RC4 keystream and with all the plaintext before it mixed in,
      and the tables never depend on the data. */
  lemma {:induction false} IsRc4WithFeedback(b: Block, data: seq<byte>, mode: Mode)
    ensures var r := CryptData(b, data, mode);
            var plain := if mode.ENCRYPT? then data else r.data;
            && Rc4Of(r.block) == Rc4After(Rc4Of(b), |data|)
            && r.block.state == Mixed(b.state, plain)
            && forall n: nat :: n < |data| ==> r.data[n] == FedByte(b, data, plain, n)
    decreases |data|
  {
    hide Xor, CryptByte, Rc4Step, Rc4Byte, Rc4Of;
    if data == [] {
    } else {
      var k := |data| - 1;
      IsRc4WithFeedback(b, data[..k], mode);
      var p, r := CryptData(b, data[..k], mode), CryptData(b, data, mode);
      StepIsRc4(p.block, data[k], mode);
      var before := if mode.ENCRYPT? then data[..k] else p.data;
      var plain := if mode.ENCRYPT? then data else r.data;
      assert plain[..k] == before;
      forall n: nat | n < |data| ensures r.data[n] == FedByte(b, data, plain, n) {
        if n < k {
          assert r.data[n] == p.data[n];
          FedLonger(b, data, plain, k, n);
        }
      }
    }
  }

  // ---------------------------------------------------------------- chunking and round trip

  lemma {:induction false} CryptAppend(b: Block, x: seq<byte>, y: seq<byte>, mode: Mode)
    ensures CryptData(b, x + y, mode) ==
            var p := CryptData(b, x, mode);
            var q := CryptData(p.block, y, mode);
            Run(q.block, p.data + q.data)
    decreases |y|
  {
    hide CryptByte;
    var p := CryptData(b, x, mode);
    if y == [] {
      assert x + y == x;
      assert p.data + [] == p.data;
    } else {
      var n := |y| - 1;
      CryptAppend(b, x, y[..n], mode);
      assert (x + y)[..|x + y| - 1] == x + y[..n];
      var q := CryptData(p.block, y[..n], mode);
      var last := CryptByte(q.block, y[n], mode);
      assert (p.data + q.data) + last.data == p.data + (q.data + last.data);
    }
  }

  /** One byte: decrypting and encrypting are undone by each other, with the same block after. */
  lemma {:induction false} ByteRoundTrip(b: Block, z: byte)
    ensures CryptByte(b, CryptByte(b, z, ENCRYPT).data[0], DECRYPT) == Run(CryptByte(b, z, ENCRYPT).block, [z])
    ensures CryptByte(b, CryptByte(b, z, DECRYPT).data[0], ENCRYPT) == Run(CryptByte(b, z, DECRYPT).block, [z])
  {
    hide Advance, Mask, Xor;
    var a := Advance(b);
    XorTwiceCancels(z, Mask(a), a.state);
  }

  lemma {:induction false} CryptLast(b: Block, data: seq<byte>, z: byte, mode: Mode)
    ensures CryptData(b, data + [z], mode) ==
            var p := CryptData(b, data, mode);
            var q := CryptByte(p.block, z, mode);
            Run(q.block, p.data + q.data)
  {
    hide CryptByte;
    assert (data + [z])[..|data|] == data;
  }

  lemma {:induction false} NothingCrypted(b: Block, mode: Mode)
    ensures CryptData(b, [], mode) == Run(b, [])
  {
  }

  lemma {:induction false} RoundTrip(b: Block, data: seq<byte>)
    ensures CryptData(b, CryptData(b, data, ENCRYPT).data, DECRYPT) ==
            Run(CryptData(b, data, ENCRYPT).block, data)
    decreases |data|
  {
    hide CryptByte;
    if data == [] {
    } else {
      var n := |data| - 1;
      RoundTrip(b, data[..n]);
      var p := CryptData(b, data[..n], ENCRYPT);
      ByteRoundTrip(p.block, data[n]);
      CryptLast(b, p.data, CryptByte(p.block, data[n], ENCRYPT).data[0], DECRYPT);
      assert data == data[..n] + [data[n]];
    }
  }

  /** Decrypting and encrypting are each undone by the other. */
  lemma {:induction false} RoundTripBack(b: Block, wire: seq<byte>)
    ensures CryptData(b, CryptData(b, wire, DECRYPT).data, ENCRYPT) ==
            Run(CryptData(b, wire, DECRYPT).block, wire)
    decreases |wire|
  {
    hide CryptByte;
    if wire == [] {
    } else {
      var n := |wire| - 1;
      RoundTripBack(b, wire[..n]);
      var p := CryptData(b, wire[..n], DECRYPT);
      ByteRoundTrip(p.block, wire[n]);
      CryptLast(b, p.data, CryptByte(p.block, wire[n], DECRYPT).data[0], ENCRYPT);
      assert wire == wire[..n] + [wire[n]];
    }
  }

  datatype ChunkRun = ChunkRun(block: Block, parts: seq<seq<byte>>)

  /** The data handed to the cipher in successive calls. */
  function CryptChunks(b: Block, parts: seq<seq<byte>>, mode: Mode): (r: ChunkRun)
    ensures |r.parts| == |parts|
    decreases |parts|
  {
    if parts == [] then ChunkRun(b, [])
    else
      var p := CryptChunks(b, parts[..|parts| - 1], mode);
      var q := CryptData(p.block, parts[|parts| - 1], mode);
      ChunkRun(q.block, p.parts + [q.data])
  }

  /** How the data is cut into calls does not matter. */
  lemma {:induction false} ChunksAreOneRun(b: Block, parts: seq<seq<byte>>, mode: Mode)
    ensures CryptChunks(b, parts, mode).block == CryptData(b, Flatten(parts), mode).block
    ensures Flatten(CryptChunks(b, parts, mode).parts) == CryptData(b, Flatten(parts), mode).data
    decreases |parts|
  {
    if parts == [] {
    } else {
      var n := |parts| - 1;
      ChunksAreOneRun(b, parts[..n], mode);
      CryptAppend(b, Flatten(parts[..n]), parts[n], mode);
      var p := CryptChunks(b, parts[..n], mode);
      var q := CryptData(p.block, parts[n], mode);
      assert (p.parts + [q.data])[..n] == p.parts;
    }
  }

  /** Two equal blocks: whatever one encrypts in any pieces, the other reads back from
      the same bytes cut into any other pieces, and the blocks end equal. */
  lemma {:induction false} AnyChunking(b: Block, sent: seq<seq<byte>>, received: seq<seq<byte>>)
    requires Flatten(received) == Flatten(CryptChunks(b, sent, ENCRYPT).parts)
    ensures Flatten(CryptChunks(b, received, DECRYPT).parts) == Flatten(sent)
    ensures CryptChunks(b, received, DECRYPT).block == CryptChunks(b, sent, ENCRYPT).block
  {
    ChunksAreOneRun(b, sent, ENCRYPT);
    ChunksAreOneRun(b, received, DECRYPT);
    RoundTrip(b, Flatten(sent));
  }

  // ---------------------------------------------------------------- the structure updated in place

  ghost function Overwritten(was: seq<byte>, from: nat, done: seq<byte>): (now: seq<byte>)
    requires from + |done| <= |was|
    ensures |now| == |was|
    ensures forall k :: from + |done| <= k < |was| ==> now[k] == was[k]
  {
    was[..from] + done + was[from + |done|..]
  }

  lemma {:induction false} OneMoreDone(was: seq<byte>, from: nat, done: seq<byte>, z: byte)
    requires from + |done| < |was|
    ensures Overwritten(was, from, done)[from + |done| := z] == Overwritten(was, from, done + [z])
  {
  }

  lemma {:induction false} AllDone(was: seq<byte>, from: nat, done: seq<byte>)
    requires from + |done| <= |was|
    ensures Overwritten(was, from, done) == was[..from] + done + was[from + |done|..]
  {
  }

  lemma {:induction false} NothingDone(was: seq<byte>, from: nat)
    requires from <= |was|
    ensures Overwritten(was, from, []) == was
  {
  }

  lemma {:induction false} NoRounds(key: seq<byte>)
    requires key != []
    ensures KeySchedule(key, 0) == Schedule(Identity(), 0)
  {
  }

  lemma {:induction false} OneMoreRound(key: seq<byte>, n: nat)
    requires key != [] && n < 256
    ensures KeySchedule(key, n + 1) == Round(KeySchedule(key, n), n, key[n % |key|])
  {
  }

  class CryptBlock {
    const keytable: array<byte>
    var state: byte
    var counter: byte
    var sum: byte

    ghost predicate Valid()
      reads this
    {
      keytable.Length == 256
    }

    ghost function View(): Block
      reads this, keytable
      requires Valid()
    {
      Block(keytable[..], state, counter, sum)
    }

    constructor ()
      ensures Valid() && fresh(keytable)
    {
      keytable := new byte[256];
      state, counter, sum := 0, 0, 0;
    }

    method SwapCells(i: byte, j: byte)
      requires Valid()
      modifies keytable
      ensures keytable[..] == Swap(old(keytable[..]), i, j)
    {
      var p := keytable[i];
      keytable[i] := keytable[j];
      keytable[j] := p;
    }

    method FillTable()
      requires Valid()
      modifies keytable
      ensures keytable[..] == Identity()
    {
      var i := 0;
      while i < 256
        invariant 0 <= i <= 256
        invariant forall k :: 0 <= k < i ==> keytable[k] == k
      {
        keytable[i] := i;
        i := i + 1;
      }
    }

    method Init(key: array<byte>, len: nat)
      requires Valid() && 0 < len <= key.Length && key != keytable
      modifies this, keytable
      ensures View() == InitBlock(key[..len])
    {
      hide KeySchedule, Identity, Swap;
      ghost var bytes := key[..len];
      FillTable();
      NoRounds(bytes);
      var j: byte := 0;
      var i := 0;
      while i < 256
        invariant 0 <= i <= 256
        invariant Schedule(keytable[..], j) == KeySchedule(bytes, i)
      {
        OneMoreRound(bytes, i);
        assert key[i % len] == bytes[i % len] && keytable[i] == keytable[..][i];
        j := (j + key[i % len] + keytable[i]) % 256;
        SwapCells(i, j);
        i := i + 1;
      }
      state := key[0];
      counter := 0;
      sum := 0;
    }

    /** Copies a saved block back. */
    method Restore(table: seq<byte>, st: byte, c: byte, s: byte)
      requires Valid() && |table| == 256
      modifies this, keytable
      ensures View() == Block(table, st, c, s)
    {
      forall i | 0 <= i < 256 {
        keytable[i] := table[i];
      }
      state, counter, sum := st, c, s;
    }

    /** The body of the cipher loop: one byte, in place. */
    method CryptCell(data: array<byte>, at: nat, mode: Mode)
      requires Valid() && at < data.Length && data != keytable
      modifies this, keytable, data
      ensures View() == CryptByte(old(View()), old(data[at]), mode).block
      ensures data[..] == old(data[..])[at := CryptByte(old(View()), old(data[at]), mode).data[0]]
    {
      counter := (counter + 1) % 256;
      sum := (sum + keytable[counter]) % 256;
      SwapCells(counter, sum);
      assert View() == Advance(old(View()));
      var z := data[at];
      var k: int := keytable[counter] as int + keytable[sum];
      data[at] := Xor(z, keytable[k % 256]);
      data[at] := Xor(data[at], state);
      assert data[at] == Cipher(old(View()), old(data[at]));
      if mode == DECRYPT {
        z := data[at];
      }
      state := Xor(state, z);
    }

    method Crypt(data: array<byte>, from: nat, len: nat, mode: Mode)
      requires Valid() && from + len <= data.Length && data != keytable
      modifies this, keytable, data
      ensures View() == CryptData(old(View()), old(data[from..from + len]), mode).block
      ensures data[..] == old(data[..from]) + CryptData(old(View()), old(data[from..from + len]), mode).data +
                          old(data[from + len..])
    {
      hide CryptByte, CryptData, Overwritten;
      ghost var was := data[..];
      ghost var b0 := View();
      ghost var input := data[from..from + len];
      ghost var done: seq<byte> := [];
      assert CryptData(b0, input[..0], mode) == Run(b0, []) by { NothingCrypted(b0, mode); }
      NothingDone(was, from);
      var i := 0;
      while i < len
        invariant 0 <= i <= len == |input| && |done| == i
        invariant CryptData(b0, input[..i], mode) == Run(View(), done)
        invariant data[..] == Overwritten(was, from, done)
      {
        var z := data[from + i];
        assert z == data[..][from + i] == input[i];
        assert input[..i + 1] == input[..i] + [z];
        CryptLast(b0, input[..i], z, mode);
        ghost var out := CryptByte(View(), z, mode).data;
        CryptCell(data, from + i, mode);
        OneMoreDone(was, from, done, out[0]);
        assert out == [out[0]];
        done := done + out;
        i := i + 1;
      }
      assert input[..len] == input;
      assert Overwritten(was, from, done) == was[..from] + done + was[from + len..] by { AllDone(was, from, done); }
    }
  }

  /** Runs a copy of the bytes through the cipher. */
  method CryptBytes(block: CryptBlock, bytes: seq<byte>, mode: Mode) returns (out: seq<byte>)
    requires block.Valid()
    modifies block, block.keytable
    ensures Run(block.View(), out) == CryptData(old(block.View()), bytes, mode)
    ensures |out| == |bytes|
  {
    hide CryptData;
    var data := new byte[|bytes|](i requires 0 <= i < |bytes| => bytes[i]);
    assert data[..] == data[0..0 + |bytes|] == bytes;
    block.Crypt(data, 0, |bytes|, mode);
    out := data[..];
  }
}
