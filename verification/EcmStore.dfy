/**
 The emulator's request database. In RAM mode the lines of a channel's file go into a hash
 table whose entries point into one growing pool of bytes; in direct mode every query scans
 the file. The table must answer like the scan.

 Lines are taken as already parsed, and the hash function is a parameter.
 */
module EcmStore {
  import opened Bytes

  type Cw = b: seq<byte> | |b| == 16 witness seq(16, _ => 0)

  const MAX_ECM_LEN := 256
  const HASH_SIZE := 8192
  const MAX_SEEN := 50000
  const FIRST_POOL := 0x20_0000
  const POOL_LIMIT := 100 * 1024 * 1024

  /** The largest size that doubling from FIRST_POOL reaches without passing POOL_LIMIT. */
  const LAST_POOL := 0x400_0000

  /** A line that parses: a request of 1 to 256 bytes and its word. */
  datatype Record = Record(ecm: seq<byte>, cw: Cw)

  /** Anything else in the file is skipped. */
  datatype Line = Skipped | Parsed(rec: Record)

  type Hash = seq<byte> -> u32

  predicate Usable(line: Line, expected: u16): (u: bool)
    ensures u ==> line.Parsed?
  {
    line.Parsed? && 0 < |line.rec.ecm| <= MAX_ECM_LEN && |line.rec.ecm| == expected
  }

  // ---------------------------------------------------------------- the scan

  /** search_ecm_direct: the first line with the request. */
  function Scan(lines: seq<Line>, expected: u16, q: seq<byte>): Option<Cw>
    decreases |lines|
  {
    if lines == [] then None
    else
      var n := |lines| - 1;
      var before := Scan(lines[..n], expected, q);
      if before.Some? then before
      else if Usable(lines[n], expected) && lines[n].rec.ecm == q then Some(lines[n].rec.cw)
      else None
  }

  lemma {:induction false} ScanStays(lines: seq<Line>, i: nat, expected: u16, q: seq<byte>)
    requires i <= |lines| && Scan(lines[..i], expected, q).Some?
    ensures Scan(lines, expected, q) == Scan(lines[..i], expected, q)
    decreases |lines|
  {
    if i == |lines| {
      assert lines[..i] == lines;
    } else {
      var n := |lines| - 1;
      assert lines[..n][..i] == lines[..i];
      ScanStays(lines[..n], i, expected, q);
    }
  }

  /** The scan finds exactly the requests of usable lines. */
  lemma {:induction false} ScanFinds(lines: seq<Line>, expected: u16, q: seq<byte>)
    ensures Scan(lines, expected, q).Some? <==>
            exists i :: 0 <= i < |lines| && Usable(lines[i], expected) && lines[i].rec.ecm == q
    ensures Scan(lines, expected, q).Some? <==>
            |q| == expected && 0 < |q| <= 256 && exists i :: 0 <= i < |lines| && lines[i].Parsed? && lines[i].rec.ecm == q
    decreases |lines|
  {
    if lines == [] {
    } else {
      var n := |lines| - 1;
      ScanFinds(lines[..n], expected, q);
      forall i | 0 <= i < n ensures lines[..n][i] == lines[i] {}
    }
  }

  // ---------------------------------------------------------------- loading

  /** What loading a file leads to: the accepted records, and whether it gave up early. */
  datatype Loaded = Loaded(acc: seq<Record>, stopped: bool)

  function Total(acc: seq<Record>): nat {
    if acc == [] then 0 else Total(acc[..|acc| - 1]) + |acc[|acc| - 1].ecm|
  }

  function Hashes(h: Hash, acc: seq<Record>): (s: seq<u32>)
    ensures |s| == |acc|
  {
    seq<u32>(|acc|, i requires 0 <= i < |acc| => h(acc[i].ecm))
  }

  /** The hashes that the duplicate check knows: the first 50000. */
  function Seen(h: Hash, acc: seq<Record>): seq<u32> {
    Hashes(h, acc[..if |acc| < MAX_SEEN then |acc| else MAX_SEEN])
  }

  function LoadLine(h: Hash, s: Loaded, line: Line, expected: u16): Loaded {
    if s.stopped || !Usable(line, expected) || h(line.rec.ecm) in Seen(h, s.acc) then s
    else if Total(s.acc) + |line.rec.ecm| > LAST_POOL then s.(stopped := true)
    else s.(acc := s.acc + [line.rec])
  }

  function Load(h: Hash, lines: seq<Line>, expected: u16): Loaded
    decreases |lines|
  {
    if lines == [] then Loaded([], false)
    else LoadLine(h, Load(h, lines[..|lines| - 1], expected), lines[|lines| - 1], expected)
  }

  /** search_ecm_ram: a chain holds later records first. */
  function LastOf(acc: seq<Record>, q: seq<byte>): Option<Cw>
    decreases |acc|
  {
    if acc == [] then None
    else if acc[|acc| - 1].ecm == q then Some(acc[|acc| - 1].cw)
    else LastOf(acc[..|acc| - 1], q)
  }

  lemma {:induction false} LastOfIn(acc: seq<Record>, q: seq<byte>)
    ensures LastOf(acc, q).Some? ==> exists i :: 0 <= i < |acc| && acc[i] == Record(q, LastOf(acc, q).value)
    ensures (exists i :: 0 <= i < |acc| && acc[i].ecm == q) ==> LastOf(acc, q).Some?
    decreases |acc|
  {
    if acc == [] {
    } else {
      LastOfIn(acc[..|acc| - 1], q);
      forall i | 0 <= i < |acc| - 1 ensures acc[..|acc| - 1][i] == acc[i] {}
    }
  }

  // ---------------------------------------------------------------- what loading keeps

  ghost predicate FromLines(acc: seq<Record>, lines: seq<Line>, expected: u16) {
    forall r :: r in acc ==> exists i :: 0 <= i < |lines| && Usable(lines[i], expected) && lines[i].rec == r
  }

  ghost predicate AllSeen(h: Hash, acc: seq<Record>, lines: seq<Line>, expected: u16) {
    forall i :: 0 <= i < |lines| && Usable(lines[i], expected) ==> h(lines[i].rec.ecm) in Hashes(h, acc)
  }

  ghost predicate FirstOnes(acc: seq<Record>, lines: seq<Line>, expected: u16) {
    forall r :: r in acc ==> Scan(lines, expected, r.ecm) == Some(r.cw)
  }

  lemma {:induction false} FromMore(acc: seq<Record>, lines: seq<Line>, expected: u16)
    requires lines != [] && FromLines(acc, lines[..|lines| - 1], expected)
    ensures FromLines(acc, lines, expected)
    ensures Usable(lines[|lines| - 1], expected) ==> FromLines(acc + [lines[|lines| - 1].rec], lines, expected)
  {
  }

  lemma {:induction false} SeenIn(h: Hash, acc: seq<Record>, x: u32)
    requires x in Seen(h, acc)
    ensures x in Hashes(h, acc)
  {
    var k := if |acc| < MAX_SEEN then |acc| else MAX_SEEN;
    var i :| 0 <= i < k && Hashes(h, acc[..k])[i] == x;
    assert Hashes(h, acc)[i] == x;
  }

  lemma {:induction false} SeenAll(h: Hash, acc: seq<Record>)
    requires |acc| <= MAX_SEEN
    ensures Seen(h, acc) == Hashes(h, acc)
  {
  }

  lemma {:induction false} HashesGrow(h: Hash, acc: seq<Record>, r: Record)
    ensures Hashes(h, acc + [r]) == Hashes(h, acc) + [h(r.ecm)]
  {
  }

  lemma {:induction false} NothingFrom(lines: seq<Line>, expected: u16)
    ensures FromLines([], lines, expected)
  {
  }

  lemma {:induction false} CoversLine(h: Hash, s: Loaded, lines: seq<Line>, expected: u16)
    requires lines != []
    requires !s.stopped ==> AllSeen(h, s.acc, lines[..|lines| - 1], expected)
    ensures var after := LoadLine(h, s, lines[|lines| - 1], expected);
            !after.stopped ==> AllSeen(h, after.acc, lines, expected)
  {
    hide Usable, Seen, Total, Hashes;
    var n := |lines| - 1;
    assert forall i :: 0 <= i < n ==> lines[..n][i] == lines[i];
    if Usable(lines[n], expected) {
      var x := h(lines[n].rec.ecm);
      if x in Seen(h, s.acc) {
        SeenIn(h, s.acc, x);
      }
      HashesGrow(h, s.acc, lines[n].rec);
    }
  }

  /** Nothing is accepted that is not in the file; until loading gives up, nothing is left
      out whose hash is not there already. */
  lemma {:induction false} LoadCovers(h: Hash, lines: seq<Line>, expected: u16)
    ensures FromLines(Load(h, lines, expected).acc, lines, expected)
    ensures !Load(h, lines, expected).stopped ==> AllSeen(h, Load(h, lines, expected).acc, lines, expected)
    decreases |lines|
  {
    hide FromLines, Seen, Hashes, Usable, Total;
    if lines != [] {
      var n := |lines| - 1;
      LoadCovers(h, lines[..n], expected);
      var s := Load(h, lines[..n], expected);
      FromMore(s.acc, lines, expected);
      CoversLine(h, s, lines, expected);
    } else {
      assert FromLines([], lines, expected) by { NothingFrom(lines, expected); }
    }
  }

  lemma {:induction false} LoadGrows(h: Hash, lines: seq<Line>, i: nat, expected: u16)
    requires i <= |lines|
    ensures Load(h, lines[..i], expected).acc <= Load(h, lines, expected).acc
    ensures Load(h, lines[..i], expected).stopped ==> Load(h, lines, expected) == Load(h, lines[..i], expected)
    decreases |lines|
  {
    hide Seen, Usable, Total;
    if i == |lines| {
      assert lines[..i] == lines;
    } else {
      var n := |lines| - 1;
      assert lines[..n][..i] == lines[..i];
      LoadGrows(h, lines[..n], i, expected);
    }
  }

  lemma {:induction false} AcceptedIsFirst(h: Hash, lines: seq<Line>, expected: u16)
    requires lines != [] && |Load(h, lines[..|lines| - 1], expected).acc| <= MAX_SEEN
    requires Load(h, lines, expected).acc != Load(h, lines[..|lines| - 1], expected).acc
    ensures var r := lines[|lines| - 1].rec; Scan(lines, expected, r.ecm) == Some(r.cw)
  {
    hide Seen, Total, Hashes;
    var n := |lines| - 1;
    var s := Load(h, lines[..n], expected);
    var r := lines[n].rec;
    LoadCovers(h, lines[..n], expected);
    SeenAll(h, s.acc);
    ScanFinds(lines[..n], expected, r.ecm);
    assert h(r.ecm) !in Hashes(h, s.acc);
  }

  /** Up to 50001 accepted records, the last of which is still compared with all the others:
      each is the first line with its request. */
  lemma {:induction false} AcceptedAreFirst(h: Hash, lines: seq<Line>, expected: u16)
    requires |Load(h, lines, expected).acc| <= MAX_SEEN + 1
    ensures FirstOnes(Load(h, lines, expected).acc, lines, expected)
    decreases |lines|
  {
    hide Seen, Usable, Total, Hashes, Scan;
    if lines == [] {
    } else {
      var n := |lines| - 1;
      var s := Load(h, lines[..n], expected);
      LoadGrows(h, lines, n, expected);
      AcceptedAreFirst(h, lines[..n], expected);
      forall r | r in s.acc ensures Scan(lines, expected, r.ecm) == Some(r.cw) {
        ScanStays(lines, n, expected, r.ecm);
      }
      if Load(h, lines, expected).acc != s.acc {
        AcceptedIsFirst(h, lines, expected);
      }
    }
  }

  ghost predicate Distinct(h: Hash, acc: seq<Record>) {
    forall i, j :: 0 <= i < j < |acc| ==> h(acc[i].ecm) != h(acc[j].ecm)
  }

  /** Up to 50001 accepted records: their hashes differ. */
  lemma {:induction false} AcceptedDiffer(h: Hash, lines: seq<Line>, expected: u16)
    requires |Load(h, lines, expected).acc| <= MAX_SEEN + 1
    ensures Distinct(h, Load(h, lines, expected).acc)
    decreases |lines|
  {
    hide Seen, Usable, Total;
    if lines == [] {
    } else {
      var n := |lines| - 1;
      var s := Load(h, lines[..n], expected);
      LoadGrows(h, lines, n, expected);
      AcceptedDiffer(h, lines[..n], expected);
      if Load(h, lines, expected).acc != s.acc {
        SeenAll(h, s.acc);
        var x := h(lines[n].rec.ecm);
        assert x !in Hashes(h, s.acc);
        forall i | 0 <= i < |s.acc| ensures h(s.acc[i].ecm) != x {
          assert Hashes(h, s.acc)[i] == h(s.acc[i].ecm);
        }
      }
    }
  }

  // ---------------------------------------------------------------- table and scan agree

  /** A hit in the table is what the scan finds, even where loading gave up early. */
  lemma {:induction false} HitsAgree(h: Hash, lines: seq<Line>, expected: u16, q: seq<byte>)
    requires |Load(h, lines, expected).acc| <= MAX_SEEN + 1
    ensures var found := LastOf(Load(h, lines, expected).acc, q);
            found.Some? ==> found == Scan(lines, expected, q)
  {
    hide Load, Scan;
    AcceptedAreFirst(h, lines, expected);
    LastOfIn(Load(h, lines, expected).acc, q);
  }

  /** No two usable lines with different requests have the same hash. */
  ghost predicate Injective(h: Hash, lines: seq<Line>, expected: u16) {
    forall i, j ::
      (0 <= i < |lines| && 0 <= j < |lines| && Usable(lines[i], expected) && Usable(lines[j], expected) &&
       h(lines[i].rec.ecm) == h(lines[j].rec.ecm)) ==> lines[i].rec.ecm == lines[j].rec.ecm
  }

  ghost predicate Agree(acc: seq<Record>, lines: seq<Line>, expected: u16) {
    forall q :: LastOf(acc, q) == Scan(lines, expected, q)
  }

  lemma {:induction false} SeparationAgrees(h: Hash, lines: seq<Line>, expected: u16)
    requires |Load(h, lines, expected).acc| <= MAX_SEEN + 1 && !Load(h, lines, expected).stopped
    requires Injective(h, lines, expected)
    ensures Agree(Load(h, lines, expected).acc, lines, expected)
  {
    hide Load, Scan, LastOf, Usable;
    var acc := Load(h, lines, expected).acc;
    LoadCovers(h, lines, expected);
    forall q ensures LastOf(acc, q) == Scan(lines, expected, q) {
      HitsAgree(h, lines, expected, q);
      ScanFinds(lines, expected, q);
      if Scan(lines, expected, q).Some? {
        var i :| 0 <= i < |lines| && Usable(lines[i], expected) && lines[i].rec.ecm == q;
        assert h(q) in Hashes(h, acc);
        var k :| 0 <= k < |acc| && Hashes(h, acc)[k] == h(q);
        assert acc[k] in acc;
        var j :| 0 <= j < |lines| && Usable(lines[j], expected) && lines[j].rec == acc[k];
        assert h(lines[j].rec.ecm) == h(lines[i].rec.ecm);
        assert acc[k].ecm == q;
        LastOfIn(acc, q);
      }
    }
  }

  lemma {:induction false} AgreementSeparates(h: Hash, lines: seq<Line>, expected: u16)
    requires |Load(h, lines, expected).acc| <= MAX_SEEN + 1
    requires Agree(Load(h, lines, expected).acc, lines, expected)
    ensures Injective(h, lines, expected)
  {
    hide Load, Scan, LastOf, Usable;
    var acc := Load(h, lines, expected).acc;
    AcceptedDiffer(h, lines, expected);
    forall i, j | 0 <= i < |lines| && 0 <= j < |lines| && Usable(lines[i], expected) && Usable(lines[j], expected) &&
                  h(lines[i].rec.ecm) == h(lines[j].rec.ecm)
      ensures lines[i].rec.ecm == lines[j].rec.ecm
    {
      var a, b := lines[i].rec.ecm, lines[j].rec.ecm;
      ScanFinds(lines, expected, a);
      ScanFinds(lines, expected, b);
      assert LastOf(acc, a).Some? && LastOf(acc, b).Some?;
      LastOfIn(acc, a);
      LastOfIn(acc, b);
      var x :| 0 <= x < |acc| && acc[x].ecm == a;
      var y :| 0 <= y < |acc| && acc[y].ecm == b;
      assert h(acc[x].ecm) == h(acc[y].ecm);
    }
  }

  /** If loading went through, table and scan agree on every query, misses too, exactly if
      the hash tells the file's requests apart. */
  lemma {:induction false} AgreeExactly(h: Hash, lines: seq<Line>, expected: u16)
    requires |Load(h, lines, expected).acc| <= MAX_SEEN + 1 && !Load(h, lines, expected).stopped
    ensures Agree(Load(h, lines, expected).acc, lines, expected) <==> Injective(h, lines, expected)
  {
    hide Load, Scan, LastOf, Usable, Agree, Injective;
    var acc := Load(h, lines, expected).acc;
    if Agree(acc, lines, expected) {
      AgreementSeparates(h, lines, expected);
    }
    if Injective(h, lines, expected) {
      SeparationAgrees(h, lines, expected);
    }
  }

  /** The 50001 is exact: once so many records have been accepted, a later line that repeats the
      last request goes in again, and its word shadows the first one. */
  lemma {:induction false} LateDuplicateShadows(h: Hash, lines: seq<Line>, expected: u16, cw: Cw)
    requires var s := Load(h, lines, expected);
             && |s.acc| > MAX_SEEN && !s.stopped && lines != []
             && |Load(h, lines[..|lines| - 1], expected).acc| == |s.acc| - 1
             && Total(s.acc) + expected <= LAST_POOL
             && Scan(lines, expected, lines[|lines| - 1].rec.ecm) != Some(cw)
    ensures var q := lines[|lines| - 1].rec.ecm;
            var more := lines + [Parsed(Record(q, cw))];
            LastOf(Load(h, more, expected).acc, q) == Some(cw) && Scan(more, expected, q) == Scan(lines, expected, q) != Some(cw)
  {
    hide Total, Scan, Hashes;
    var n := |lines| - 1;
    var before, s := Load(h, lines[..n], expected), Load(h, lines, expected);
    var r := lines[n].rec;
    var more := lines + [Parsed(Record(r.ecm, cw))];
    assert s.acc == before.acc + [r];
    assert s.acc[..MAX_SEEN] == before.acc[..MAX_SEEN];
    assert Seen(h, s.acc) == Seen(h, before.acc);
    assert more[..|lines|] == lines;
    assert Load(h, more, expected).acc == s.acc + [Record(r.ecm, cw)];
    ScanFinds(lines, expected, r.ecm);
    ScanStays(more, |lines|, expected, r.ecm);
  }

  function U32Of(b: seq<byte>): u32
    requires |b| >= 4
  {
    BytesToIntValues(b, 0);
    BytesToInt(b, 0, 4)
  }

  /** Four bytes as a number: a hash that tells requests of four bytes apart. */
  function CountOf(b: seq<byte>): u32 {
    if |b| >= 4 then U32Of(b) else 0
  }

  function Counters(n: nat, cw: Cw): (rs: seq<Record>)
    requires n <= 0x100_0000
    ensures |rs| == n
  {
    seq(n, i requires 0 <= i < n => Record(U32Bytes(i), cw))
  }

  /** A file of n lines whose requests count from 0. */
  function CounterFile(n: nat, cw: Cw): (lines: seq<Line>)
    requires n <= 0x100_0000
    ensures |lines| == n
  {
    seq(n, i requires 0 <= i < n => Parsed(Record(U32Bytes(i), cw)))
  }

  lemma {:induction false} CountReadsBack(i: u32)
    ensures |U32Bytes(i)| == 4 && CountOf(U32Bytes(i)) == i
  {
    var b := U32Bytes(i);
    assert b[0..4] == b;
    U32RoundTrip(b, 0, i);
  }

  lemma {:induction false} CountersTotal(n: nat, cw: Cw)
    requires n <= 0x100_0000
    ensures Total(Counters(n, cw)) == 4 * n
  {
    if n == 0 {
    } else {
      CountersTotal(n - 1, cw);
      CountReadsBack(n - 1);
      assert Counters(n, cw)[..n - 1] == Counters(n - 1, cw);
    }
  }

  lemma {:induction false} CounterIsNew(n: nat, cw: Cw)
    requires n < 0x100_0000
    ensures CountOf(U32Bytes(n)) !in Seen(CountOf, Counters(n, cw))
  {
    hide CountOf, U32Bytes, Seen;
    CountReadsBack(n);
    if CountOf(U32Bytes(n)) in Seen(CountOf, Counters(n, cw)) {
      SeenIn(CountOf, Counters(n, cw), n);
      var i :| 0 <= i < n && Hashes(CountOf, Counters(n, cw))[i] == n;
      CountReadsBack(i);
    }
  }

  /** All of it is loaded. */
  lemma {:induction false} CountersLoad(n: nat, cw: Cw)
    requires n <= 0x100_0000
    ensures Load(CountOf, CounterFile(n, cw), 4) == Loaded(Counters(n, cw), false)
  {
    hide Total, CountOf, U32Bytes;
    if n == 0 {
    } else {
      var lines, acc := CounterFile(n - 1, cw), Counters(n - 1, cw);
      CountersLoad(n - 1, cw);
      CountersTotal(n - 1, cw);
      CountReadsBack(n - 1);
      assert CounterFile(n, cw)[..n - 1] == lines;
      assert Counters(n, cw) == acc + [Record(U32Bytes(n - 1), cw)];
      CounterIsNew(n - 1, cw);
    }
  }

  lemma {:induction false} AcceptedDiffersFrom(n: nat, cw: Cw)
    requires n < 0x100_0000
    ensures Counters(n + 1, cw) != Counters(n, cw)
  {
    assert |Counters(n + 1, cw)| == n + 1;
  }

  /** A file that is shadowed: 50001 counters, and the last of them once more with another word. The table
      answers with the second word, the scan with the first. */
  lemma {:induction false} CounterIsShadowed(cw: Cw, other: Cw)
    requires cw != other
    ensures var q := U32Bytes(MAX_SEEN);
            var lines := CounterFile(MAX_SEEN + 1, cw) + [Parsed(Record(q, other))];
            && LastOf(Load(CountOf, lines, 4).acc, q) == Some(other)
            && Scan(lines, 4, q) == Some(cw)
  {
    hide Load, Scan, LastOf, CountOf, U32Bytes, Total;
    var file := CounterFile(MAX_SEEN + 1, cw);
    CountersLoad(MAX_SEEN + 1, cw);
    CountersLoad(MAX_SEEN, cw);
    CountersTotal(MAX_SEEN + 1, cw);
    CountersTotal(MAX_SEEN, cw);
    assert file[..MAX_SEEN] == CounterFile(MAX_SEEN, cw);
    var q := U32Bytes(MAX_SEEN);
    assert file[MAX_SEEN].rec == Record(q, cw);
    assert Scan(file, 4, q) == Some(cw) by {
      AcceptedDiffersFrom(MAX_SEEN, cw);
      AcceptedIsFirst(CountOf, file, 4);
    }
    LateDuplicateShadows(CountOf, file, 4, other);
  }

  // ---------------------------------------------------------------- files of any length

  /** The last usable line with the request. */
  function LastLine(lines: seq<Line>, expected: u16, q: seq<byte>): Option<Cw>
    decreases |lines|
  {
    if lines == [] then None
    else
      var n := |lines| - 1;
      if Usable(lines[n], expected) && lines[n].rec.ecm == q then Some(lines[n].rec.cw)
      else LastLine(lines[..n], expected, q)
  }

  predicate IsNew(h: Hash, known: seq<u32>, line: Line, expected: u16) {
    Usable(line, expected) && h(line.rec.ecm) !in known
  }

  /** The hashes that the duplicate check comes to know: each new hash of a usable line, as
      long as fewer than 50000 are known. */
  function FirstHashes(h: Hash, lines: seq<Line>, expected: u16): (known: seq<u32>)
    ensures |known| <= MAX_SEEN
    decreases |lines|
  {
    if lines == [] then []
    else
      var n := |lines| - 1;
      var known := FirstHashes(h, lines[..n], expected);
      if |known| < MAX_SEEN && IsNew(h, known, lines[n], expected) then known + [h(lines[n].rec.ecm)] else known
  }

  /** How many lines there are whose hash is not known when they come. */
  function NewLines(h: Hash, lines: seq<Line>, expected: u16): (k: nat)
    decreases |lines|
  {
    if lines == [] then 0
    else
      var n := |lines| - 1;
      NewLines(h, lines[..n], expected) + (if IsNew(h, FirstHashes(h, lines[..n], expected), lines[n], expected) then 1 else 0)
  }

  /** How many lines come before the first new one whose request finds no room: all requests
      have the same length, and 64 MB are there for them. */
  function LinesWithRoom(h: Hash, lines: seq<Line>, expected: u16): (n: nat)
    ensures n <= |lines|
    decreases |lines|
  {
    if lines == [] then 0
    else
      var n := |lines| - 1;
      var before := lines[..n];
      var k := LinesWithRoom(h, before, expected);
      if k < n then k
      else if IsNew(h, FirstHashes(h, before, expected), lines[n], expected) &&
              (NewLines(h, before, expected) + 1) * expected > LAST_POOL then n
      else |lines|
  }

  /** Requests whose hash the duplicate check does not know come last with the word they come
      first with. */
  ghost predicate LateRepeatsAgree(h: Hash, seen: seq<u32>, lines: seq<Line>, expected: u16) {
    forall q :: h(q) !in seen ==> LastLine(lines, expected, q) == Scan(lines, expected, q)
  }

  ghost predicate HitsAgreeOn(acc: seq<Record>, lines: seq<Line>, expected: u16) {
    forall q :: LastOf(acc, q).Some? ==> LastOf(acc, q) == Scan(lines, expected, q)
  }

  lemma {:induction false} LastLineFinds(lines: seq<Line>, expected: u16, q: seq<byte>)
    ensures LastLine(lines, expected, q).Some? <==> Scan(lines, expected, q).Some?
    decreases |lines|
  {
    if lines == [] {
    } else {
      LastLineFinds(lines[..|lines| - 1], expected, q);
    }
  }

  lemma {:induction false} LoadStep(h: Hash, lines: seq<Line>, expected: u16)
    requires lines != []
    ensures Load(h, lines, expected) == LoadLine(h, Load(h, lines[..|lines| - 1], expected), lines[|lines| - 1], expected)
  {
    hide LoadLine;
  }

  lemma {:induction false} LastOfMore(acc: seq<Record>, r: Record, q: seq<byte>)
    ensures LastOf(acc + [r], q) == if r.ecm == q then Some(r.cw) else LastOf(acc, q)
  {
    assert (acc + [r])[..|acc|] == acc;
  }

  lemma {:induction false} LoadNothing(h: Hash, expected: u16)
    ensures Load(h, [], expected) == Loaded([], false)
  {
  }

  lemma {:induction false} NoneLast(q: seq<byte>)
    ensures LastOf([], q) == None
  {
  }

  lemma {:induction false} SeenGrows(h: Hash, acc: seq<Record>, r: Record)
    ensures Seen(h, acc + [r]) == if |acc| < MAX_SEEN then Seen(h, acc) + [h(r.ecm)] else Seen(h, acc)
  {
  }

  /** Of requests with an unknown hash every line goes in, so the last one is found. */
  lemma {:induction false} UnseenFindLast(h: Hash, lines: seq<Line>, expected: u16, q: seq<byte>)
    requires !Load(h, lines, expected).stopped && h(q) !in Seen(h, Load(h, lines, expected).acc)
    ensures LastOf(Load(h, lines, expected).acc, q) == LastLine(lines, expected, q)
    decreases |lines|
  {
    hide Load, Seen, Hashes, Total, LastOf;
    if lines == [] {
      assert Load(h, lines, expected) == Loaded([], false) by { LoadNothing(h, expected); }
      NoneLast(q);
    } else {
      var n := |lines| - 1;
      var s := Load(h, lines[..n], expected);
      LoadStep(h, lines, expected);
      if Usable(lines[n], expected) {
        var r := lines[n].rec;
        SeenGrows(h, s.acc, r);
        LastOfMore(s.acc, r, q);
      }
      UnseenFindLast(h, lines[..n], expected, q);
    }
  }

  lemma {:induction false} HitIsSeen(h: Hash, acc: seq<Record>, q: seq<byte>)
    requires |acc| <= MAX_SEEN && LastOf(acc, q).Some?
    ensures h(q) in Seen(h, acc)
  {
    hide LastOf;
    SeenAll(h, acc);
    LastOfIn(acc, q);
    var i :| 0 <= i < |acc| && acc[i] == Record(q, LastOf(acc, q).value);
    assert Hashes(h, acc)[i] == h(q);
  }

  /** One record more among the known ones. */
  lemma {:induction false} AcceptedSeen(h: Hash, lines: seq<Line>, expected: u16, q: seq<byte>)
    requires lines != []
    requires var s := Load(h, lines[..|lines| - 1], expected);
             && Load(h, lines, expected).acc != s.acc
             && h(q) in Seen(h, Load(h, lines, expected).acc) && LastOf(Load(h, lines, expected).acc, q).Some?
    ensures Usable(lines[|lines| - 1], expected)
    ensures var s := Load(h, lines[..|lines| - 1], expected);
            var r := lines[|lines| - 1].rec;
            && LastOf(Load(h, lines, expected).acc, q) == (if r.ecm == q then Some(r.cw) else LastOf(s.acc, q))
            && (r.ecm == q ==> Scan(lines, expected, q) == Some(r.cw))
            && (r.ecm != q ==> h(q) in Seen(h, s.acc))
  {
    hide Load, Hashes, Total, LastOf, Scan, Seen;
    var n := |lines| - 1;
    var s := Load(h, lines[..n], expected);
    LoadStep(h, lines, expected);
    var r := lines[n].rec;
    LastOfMore(s.acc, r, q);
    SeenGrows(h, s.acc, r);
    if r.ecm == q {
      assert |s.acc| < MAX_SEEN;
      AcceptedIsFirst(h, lines, expected);
    } else if |s.acc| < MAX_SEEN {
      HitIsSeen(h, s.acc, q);
    }
  }

  /** A hit whose hash is known is the first line with its request. */
  lemma {:induction false} SeenFindFirst(h: Hash, lines: seq<Line>, expected: u16, q: seq<byte>)
    requires h(q) in Seen(h, Load(h, lines, expected).acc) && LastOf(Load(h, lines, expected).acc, q).Some?
    ensures LastOf(Load(h, lines, expected).acc, q) == Scan(lines, expected, q)
    decreases |lines|
  {
    hide Load, Seen, Hashes, Total, LastOf, Scan;
    if lines == [] {
      LoadNothing(h, expected);
      NoneLast(q);
    } else {
      var n := |lines| - 1;
      var s := Load(h, lines[..n], expected);
      LoadStep(h, lines, expected);
      if Load(h, lines, expected).acc == s.acc {
        SeenFindFirst(h, lines[..n], expected, q);
        ScanStays(lines, n, expected, q);
      } else {
        AcceptedSeen(h, lines, expected, q);
        if q != lines[n].rec.ecm {
          SeenFindFirst(h, lines[..n], expected, q);
          ScanStays(lines, n, expected, q);
        }
      }
    }
  }

  /** Every hit is the first line with its request, for a file of any length that is read to
      its end, exactly if repeats of requests with unknown hashes bring no other word. */
  lemma {:induction false} WholeHitsAgree(h: Hash, lines: seq<Line>, expected: u16)
    requires !Load(h, lines, expected).stopped
    ensures var acc := Load(h, lines, expected).acc;
            HitsAgreeOn(acc, lines, expected) <==> LateRepeatsAgree(h, Seen(h, acc), lines, expected)
  {
    hide Load, LastOf, Scan, LastLine, Seen;
    var acc := Load(h, lines, expected).acc;
    forall q
      ensures h(q) !in Seen(h, acc) ==> LastOf(acc, q) == LastLine(lines, expected, q)
      ensures LastLine(lines, expected, q).Some? <==> Scan(lines, expected, q).Some?
      ensures h(q) in Seen(h, acc) && LastOf(acc, q).Some? ==> LastOf(acc, q) == Scan(lines, expected, q)
    {
      LastLineFinds(lines, expected, q);
      if h(q) !in Seen(h, acc) {
        UnseenFindLast(h, lines, expected, q);
      } else if LastOf(acc, q).Some? {
        SeenFindFirst(h, lines, expected, q);
      }
    }
  }

  /** What loading knows and has taken, read off the lines. */
  ghost predicate ReadOff(h: Hash, lines: seq<Line>, expected: u16) {
    var acc := Load(h, lines, expected).acc;
    && FirstHashes(h, lines, expected) == Seen(h, acc)
    && NewLines(h, lines, expected) == |acc|
    && Total(acc) == |acc| * expected
  }

  lemma {:induction false} NothingTotal(h: Hash)
    ensures Total([]) == 0 && Seen(h, []) == []
  {
  }

  lemma {:induction false} SeenCounts(h: Hash, acc: seq<Record>)
    ensures |Seen(h, acc)| == if |acc| < MAX_SEEN then |acc| else MAX_SEEN
  {
  }

  lemma {:induction false} TotalMore(acc: seq<Record>, line: Line, expected: u16)
    requires Usable(line, expected) && Total(acc) == |acc| * expected
    ensures Total(acc + [line.rec]) == (|acc| + 1) * expected
  {
    assert (acc + [line.rec])[..|acc|] == acc;
  }

  lemma {:induction false} LoadReadsOff(h: Hash, lines: seq<Line>, expected: u16)
    requires !Load(h, lines, expected).stopped
    ensures ReadOff(h, lines, expected)
    decreases |lines|
  {
    hide Load, Seen, Hashes, Usable, Total;
    if lines == [] {
      LoadNothing(h, expected);
      NothingTotal(h);
    } else {
      var n := |lines| - 1;
      var s := Load(h, lines[..n], expected);
      LoadStep(h, lines, expected);
      LoadReadsOff(h, lines[..n], expected);
      if IsNew(h, Seen(h, s.acc), lines[n], expected) {
        SeenGrows(h, s.acc, lines[n].rec);
        SeenCounts(h, s.acc);
        TotalMore(s.acc, lines[n], expected);
      }
    }
  }

  lemma {:induction false} LineStops(h: Hash, lines: seq<Line>, line: Line, expected: u16)
    requires !Load(h, lines, expected).stopped && ReadOff(h, lines, expected)
    ensures var s := Load(h, lines, expected);
            var after := LoadLine(h, s, line, expected);
            && (after.stopped <==> IsNew(h, FirstHashes(h, lines, expected), line, expected) &&
                                   (NewLines(h, lines, expected) + 1) * expected > LAST_POOL)
            && (after.stopped ==> after.acc == s.acc)
  {
    hide Load, Seen, Total, FirstHashes, NewLines;
    assert (|Load(h, lines, expected).acc| + 1) * expected == |Load(h, lines, expected).acc| * expected + expected;
  }

  /** Loading stops where the pool arithmetic says so. */
  lemma {:induction false} LoadStopsThere(h: Hash, lines: seq<Line>, expected: u16)
    ensures var n := LinesWithRoom(h, lines, expected);
            && (Load(h, lines, expected).stopped <==> n < |lines|)
            && !Load(h, lines[..n], expected).stopped
            && Load(h, lines, expected).acc == Load(h, lines[..n], expected).acc
    decreases |lines|
  {
    hide Load, Seen, Total, Usable, FirstHashes, NewLines;
    if lines == [] {
      LoadNothing(h, expected);
      assert lines[..0] == lines;
    } else {
      var n := |lines| - 1;
      var before := lines[..n];
      var k := LinesWithRoom(h, before, expected);
      LoadStopsThere(h, before, expected);
      LoadStep(h, lines, expected);
      assert lines[..|lines|] == lines;
      if k < n {
        assert lines[..k] == before[..k];
      } else {
        assert before[..k] == before;
        LoadReadsOff(h, before, expected);
        LineStops(h, before, lines[n], expected);
      }
    }
  }

  lemma {:induction false} HitIsThere(h: Hash, lines: seq<Line>, expected: u16, q: seq<byte>)
    requires LastOf(Load(h, lines, expected).acc, q).Some?
    ensures Scan(lines, expected, q).Some?
  {
    hide Load, LastOf, Scan, Usable;
    var acc := Load(h, lines, expected).acc;
    LastOfIn(acc, q);
    LoadCovers(h, lines, expected);
    var i :| 0 <= i < |acc| && acc[i] == Record(q, LastOf(acc, q).value);
    assert acc[i] in acc;
    ScanFinds(lines, expected, q);
  }

  lemma {:induction false} SameHits(h: Hash, lines: seq<Line>, n: nat, expected: u16)
    requires n <= |lines|
    ensures var acc := Load(h, lines[..n], expected).acc;
            HitsAgreeOn(acc, lines, expected) <==> HitsAgreeOn(acc, lines[..n], expected)
  {
    hide Load, LastOf, Scan;
    var acc := Load(h, lines[..n], expected).acc;
    forall q | LastOf(acc, q).Some? ensures Scan(lines, expected, q) == Scan(lines[..n], expected, q) {
      HitIsThere(h, lines[..n], expected, q);
      ScanStays(lines, n, expected, q);
    }
  }

  /** For every file: each hit is what the scan finds exactly if, among the lines there is room
      for, repeats of requests outside the first 50000 hashes bring no other word. */
  lemma {:induction false} HitsAgreeExactly(h: Hash, lines: seq<Line>, expected: u16)
    ensures var read := lines[..LinesWithRoom(h, lines, expected)];
            HitsAgreeOn(Load(h, lines, expected).acc, lines, expected) <==>
            LateRepeatsAgree(h, FirstHashes(h, read, expected), read, expected)
  {
    hide Load, LastOf, Scan, LastLine, Seen, LinesWithRoom, LateRepeatsAgree, HitsAgreeOn, FirstHashes;
    var n := LinesWithRoom(h, lines, expected);
    var read := lines[..n];
    LoadStopsThere(h, lines, expected);
    LoadReadsOff(h, read, expected);
    WholeHitsAgree(h, read, expected);
    SameHits(h, lines, n, expected);
  }

  /** No two usable lines with different requests share a hash the duplicate check knows. */
  ghost predicate KnownApart(h: Hash, seen: seq<u32>, lines: seq<Line>, expected: u16) {
    forall i, j ::
      (0 <= i < |lines| && 0 <= j < |lines| && Usable(lines[i], expected) && Usable(lines[j], expected) &&
       h(lines[i].rec.ecm) == h(lines[j].rec.ecm) && h(lines[i].rec.ecm) in seen) ==> lines[i].rec.ecm == lines[j].rec.ecm
  }

  /** Every request after the first n lines is one of theirs. */
  ghost predicate RestRepeats(lines: seq<Line>, n: nat, expected: u16)
    requires n <= |lines|
  {
    forall i :: n <= i < |lines| && Usable(lines[i], expected) ==>
                  exists j :: 0 <= j < n && Usable(lines[j], expected) && lines[j].rec.ecm == lines[i].rec.ecm
  }

  ghost predicate NothingNew(lines: seq<Line>, n: nat, expected: u16)
    requires n <= |lines|
  {
    forall q :: Scan(lines, expected, q).Some? ==> Scan(lines[..n], expected, q).Some?
  }

  lemma {:induction false} NothingNewIsRepeats(lines: seq<Line>, n: nat, expected: u16)
    requires n <= |lines|
    ensures NothingNew(lines, n, expected) <==> RestRepeats(lines, n, expected)
  {
    hide Scan, Usable;
    var read := lines[..n];
    if NothingNew(lines, n, expected) {
      forall i | n <= i < |lines| && Usable(lines[i], expected)
        ensures exists j :: 0 <= j < n && Usable(lines[j], expected) && lines[j].rec.ecm == lines[i].rec.ecm
      {
        var q := lines[i].rec.ecm;
        ScanFinds(lines, expected, q);
        ScanFinds(read, expected, q);
        var j :| 0 <= j < n && Usable(read[j], expected) && read[j].rec.ecm == q;
        assert lines[j] == read[j];
      }
    }
    if RestRepeats(lines, n, expected) {
      forall q | Scan(lines, expected, q).Some? ensures Scan(read, expected, q).Some? {
        ScanFinds(lines, expected, q);
        ScanFinds(read, expected, q);
        var i :| 0 <= i < |lines| && Usable(lines[i], expected) && lines[i].rec.ecm == q;
        var j :| 0 <= j < n && Usable(lines[j], expected) && lines[j].rec.ecm == q;
        assert read[j] == lines[j];
      }
    }
  }

  /** The rest of a file changes the agreement only by new requests. */
  lemma {:induction false} AgreeOnRest(h: Hash, lines: seq<Line>, n: nat, expected: u16)
    requires n <= |lines|
    ensures var acc := Load(h, lines[..n], expected).acc;
            Agree(acc, lines, expected) <==> Agree(acc, lines[..n], expected) && RestRepeats(lines, n, expected)
  {
    hide Load, LastOf, Scan, Usable;
    var acc := Load(h, lines[..n], expected).acc;
    forall q
      ensures Scan(lines[..n], expected, q).Some? ==> Scan(lines, expected, q) == Scan(lines[..n], expected, q)
      ensures LastOf(acc, q).Some? ==> Scan(lines[..n], expected, q).Some?
    {
      if Scan(lines[..n], expected, q).Some? {
        ScanStays(lines, n, expected, q);
      }
      if LastOf(acc, q).Some? {
        HitIsThere(h, lines[..n], expected, q);
      }
    }
    NothingNewIsRepeats(lines, n, expected);
    assert Agree(acc, lines, expected) ==> NothingNew(lines, n, expected);
  }

  lemma {:induction false} AgreementHits(acc: seq<Record>, lines: seq<Line>, expected: u16)
    requires Agree(acc, lines, expected)
    ensures HitsAgreeOn(acc, lines, expected)
  {
  }

  lemma {:induction false} KnownIsFound(h: Hash, lines: seq<Line>, expected: u16, q: seq<byte>)
    requires var acc := Load(h, lines, expected).acc;
             KnownApart(h, Seen(h, acc), lines, expected) && h(q) in Seen(h, acc)
    requires Scan(lines, expected, q).Some?
    ensures LastOf(Load(h, lines, expected).acc, q).Some?
  {
    hide Load, LastOf, Scan, Seen, Usable;
    var acc := Load(h, lines, expected).acc;
    ScanFinds(lines, expected, q);
    LoadCovers(h, lines, expected);
    SeenIn(h, acc, h(q));
    var i :| 0 <= i < |lines| && Usable(lines[i], expected) && lines[i].rec.ecm == q;
    var k :| 0 <= k < |acc| && Hashes(h, acc)[k] == h(q);
    assert acc[k] in acc;
    var j :| 0 <= j < |lines| && Usable(lines[j], expected) && lines[j].rec == acc[k];
    assert h(lines[j].rec.ecm) == h(lines[i].rec.ecm);
    LastOfIn(acc, q);
  }

  lemma {:induction false} KnownApartAgrees(h: Hash, lines: seq<Line>, expected: u16)
    requires !Load(h, lines, expected).stopped
    requires var acc := Load(h, lines, expected).acc;
             KnownApart(h, Seen(h, acc), lines, expected) && LateRepeatsAgree(h, Seen(h, acc), lines, expected)
    ensures Agree(Load(h, lines, expected).acc, lines, expected)
  {
    hide Load, LastOf, Scan, LastLine, Seen, KnownApart;
    var acc := Load(h, lines, expected).acc;
    forall q ensures LastOf(acc, q) == Scan(lines, expected, q) {
      if h(q) !in Seen(h, acc) {
        UnseenFindLast(h, lines, expected, q);
      } else if LastOf(acc, q).Some? {
        SeenFindFirst(h, lines, expected, q);
      } else if Scan(lines, expected, q).Some? {
        KnownIsFound(h, lines, expected, q);
      }
    }
  }

  lemma {:induction false} LateIsNew(h: Hash, s: Loaded, r: Record, i: nat, j: nat)
    requires h(r.ecm) !in Seen(h, s.acc)
    requires i < j < |s.acc + [r]| && h((s.acc + [r])[i].ecm) == h((s.acc + [r])[j].ecm)
    requires j < |s.acc| ==> h(s.acc[i].ecm) !in Seen(h, s.acc)
    ensures h((s.acc + [r])[i].ecm) !in Seen(h, s.acc + [r])
  {
    hide Seen;
    SeenGrows(h, s.acc, r);
    if |s.acc| <= MAX_SEEN {
      SeenAll(h, s.acc);
      assert Hashes(h, s.acc)[i] == h(s.acc[i].ecm);
    }
  }

  /** A known hash belongs to one record. */
  lemma {:induction false} KnownOnce(h: Hash, lines: seq<Line>, expected: u16, i: nat, j: nat)
    requires var acc := Load(h, lines, expected).acc;
             i < j < |acc| && h(acc[i].ecm) == h(acc[j].ecm)
    ensures var acc := Load(h, lines, expected).acc; h(acc[i].ecm) !in Seen(h, acc)
    decreases |lines|
  {
    hide Load, Seen, Hashes, Total, Usable;
    if lines == [] {
      LoadNothing(h, expected);
      assert false;
    } else {
      var n := |lines| - 1;
      var s, t := Load(h, lines[..n], expected), Load(h, lines, expected);
      LoadStep(h, lines, expected);
      if j < |s.acc| {
        KnownOnce(h, lines[..n], expected, i, j);
      }
      if t.acc != s.acc {
        LateIsNew(h, s, lines[n].rec, i, j);
      }
    }
  }

  lemma {:induction false} AgreementKnowsApart(h: Hash, lines: seq<Line>, expected: u16)
    requires Agree(Load(h, lines, expected).acc, lines, expected)
    ensures KnownApart(h, Seen(h, Load(h, lines, expected).acc), lines, expected)
  {
    hide Load, LastOf, Scan, Seen, Usable;
    var acc := Load(h, lines, expected).acc;
    forall i, j | 0 <= i < |lines| && 0 <= j < |lines| && Usable(lines[i], expected) && Usable(lines[j], expected) &&
                  h(lines[i].rec.ecm) == h(lines[j].rec.ecm) && h(lines[i].rec.ecm) in Seen(h, acc)
      ensures lines[i].rec.ecm == lines[j].rec.ecm
    {
      var a, b := lines[i].rec.ecm, lines[j].rec.ecm;
      ScanFinds(lines, expected, a);
      ScanFinds(lines, expected, b);
      assert LastOf(acc, a).Some? && LastOf(acc, b).Some?;
      LastOfIn(acc, a);
      LastOfIn(acc, b);
      var x :| 0 <= x < |acc| && acc[x].ecm == a;
      var y :| 0 <= y < |acc| && acc[y].ecm == b;
      if x < y {
        KnownOnce(h, lines, expected, x, y);
      } else if y < x {
        KnownOnce(h, lines, expected, y, x);
      }
    }
  }

  /** For a file that is read to its end. */
  lemma {:induction false} ReadAgrees(h: Hash, lines: seq<Line>, expected: u16)
    requires !Load(h, lines, expected).stopped
    ensures var acc := Load(h, lines, expected).acc;
            Agree(acc, lines, expected) <==>
            KnownApart(h, Seen(h, acc), lines, expected) && LateRepeatsAgree(h, Seen(h, acc), lines, expected)
  {
    hide Load, LastOf, Scan, LastLine, Seen, KnownApart, LateRepeatsAgree, Agree;
    var acc := Load(h, lines, expected).acc;
    if Agree(acc, lines, expected) {
      assert HitsAgreeOn(acc, lines, expected) by { AgreementHits(acc, lines, expected); }
      WholeHitsAgree(h, lines, expected);
      AgreementKnowsApart(h, lines, expected);
    }
    if KnownApart(h, Seen(h, acc), lines, expected) && LateRepeatsAgree(h, Seen(h, acc), lines, expected) {
      KnownApartAgrees(h, lines, expected);
    }
  }

  /** For every file: table and scan agree on every query, misses too, exactly if, among the
      lines there is room for, the first 50000 hashes tell requests apart and repeats outside
      them bring no other word, and the lines behind them bring no other request. */
  lemma {:induction false} AllAgreeExactly(h: Hash, lines: seq<Line>, expected: u16)
    ensures var n := LinesWithRoom(h, lines, expected);
            var known := FirstHashes(h, lines[..n], expected);
            Agree(Load(h, lines, expected).acc, lines, expected) <==>
            KnownApart(h, known, lines[..n], expected) && LateRepeatsAgree(h, known, lines[..n], expected) &&
            RestRepeats(lines, n, expected)
  {
    hide Load, Seen, LinesWithRoom, LateRepeatsAgree, KnownApart, FirstHashes, RestRepeats, Agree;
    var n := LinesWithRoom(h, lines, expected);
    LoadStopsThere(h, lines, expected);
    LoadReadsOff(h, lines[..n], expected);
    ReadAgrees(h, lines[..n], expected);
    AgreeOnRest(h, lines, n, expected);
  }

  // ---------------------------------------------------------------- the pool

  function Ecms(acc: seq<Record>): (parts: seq<seq<byte>>)
    ensures |parts| == |acc|
  {
    seq(|acc|, i requires 0 <= i < |acc| => acc[i].ecm)
  }

  lemma {:induction false} TotalIsLength(acc: seq<Record>)
    ensures |Flatten(Ecms(acc))| == Total(acc)
    decreases |acc|
  {
    if acc == [] {
    } else {
      TotalIsLength(acc[..|acc| - 1]);
      assert Ecms(acc)[..|acc| - 1] == Ecms(acc[..|acc| - 1]);
    }
  }

  /** An entry of the table: where its request lies in the pool, its hash and its word. */
  datatype Entry = Entry(offset: nat, len: nat, hash: u32, cw: Cw)

  function EntryFor(h: Hash, acc: seq<Record>, i: nat): Entry
    requires i < |acc|
  {
    Entry(Total(acc[..i]), |acc[i].ecm|, h(acc[i].ecm), acc[i].cw)
  }

  /** The chain of one bucket, head first. */
  function Bucket(h: Hash, acc: seq<Record>, b: nat): seq<Entry>
    decreases |acc|
  {
    if acc == [] then []
    else
      var n := |acc| - 1;
      (if h(acc[n].ecm) as int % HASH_SIZE == b then [EntryFor(h, acc, n)] else []) + Bucket(h, acc[..n], b)
  }

  lemma {:induction false} TotalGrows(acc: seq<Record>, i: nat)
    requires i < |acc|
    ensures Total(acc[..i]) + |acc[i].ecm| <= Total(acc)
    decreases |acc|
  {
    var n := |acc| - 1;
    if i == n {
    } else {
      TotalGrows(acc[..n], i);
      assert acc[..n][..i] == acc[..i];
    }
  }

  /** The ranges of any two records in the pool are apart, and within what is used. */
  lemma {:induction false} RangesApart(h: Hash, acc: seq<Record>, i: nat, j: nat)
    requires i < j < |acc|
    ensures var a, b := EntryFor(h, acc, i), EntryFor(h, acc, j);
            a.offset + a.len <= b.offset && b.offset + b.len <= Total(acc)
    decreases |acc|
  {
    var n := |acc| - 1;
    if j == n {
      TotalGrows(acc[..n], i);
      assert acc[..n][..i] == acc[..i];
    } else {
      RangesApart(h, acc[..n], i, j);
      assert acc[..n][..i] == acc[..i] && acc[..n][..j] == acc[..j];
    }
  }

  predicate Matches(e: Entry, pool: seq<byte>, q: seq<byte>, hash: u32) {
    e.hash == hash && e.len == |q| && e.offset + e.len <= |pool| && pool[e.offset..e.offset + e.len] == q
  }

  function Walk(chain: seq<Entry>, pool: seq<byte>, q: seq<byte>, hash: u32): Option<Cw> {
    if chain == [] then None
    else if Matches(chain[0], pool, q, hash) then Some(chain[0].cw)
    else Walk(chain[1..], pool, q, hash)
  }

  lemma {:induction false} LastBytes(acc: seq<Record>)
    requires acc != []
    ensures Flatten(Ecms(acc)) == Flatten(Ecms(acc[..|acc| - 1])) + acc[|acc| - 1].ecm
  {
    assert Ecms(acc)[..|acc| - 1] == Ecms(acc[..|acc| - 1]);
  }

  lemma {:induction false} PrefixTail(a: seq<byte>, b: seq<byte>, ab: seq<byte>, pool: seq<byte>, x: nat, y: nat)
    requires ab == a + b && ab <= pool && |a| == x && |ab| == y
    ensures a <= pool && x <= y <= |pool| && pool[x..y] == b
  {
  }

  lemma {:induction false} LastInPool(acc: seq<Record>, pool: seq<byte>)
    requires acc != [] && Flatten(Ecms(acc)) <= pool
    ensures Total(acc[..|acc| - 1]) <= Total(acc) <= |pool| && Flatten(Ecms(acc[..|acc| - 1])) <= pool
    ensures pool[Total(acc[..|acc| - 1])..Total(acc)] == acc[|acc| - 1].ecm
  {
    hide Ecms, Flatten, Total;
    var n := |acc| - 1;
    LastBytes(acc);
    TotalIsLength(acc);
    TotalIsLength(acc[..n]);
    PrefixTail(Flatten(Ecms(acc[..n])), acc[n].ecm, Flatten(Ecms(acc)), pool, Total(acc[..n]), Total(acc));
  }

  lemma {:induction false} NoWalk(h: Hash, pool: seq<byte>, q: seq<byte>, b: nat)
    ensures Walk(Bucket(h, [], b), pool, q, h(q)) == None
  {
  }

  lemma {:induction false} BucketHead(h: Hash, acc: seq<Record>, b: nat)
    requires acc != []
    ensures var n := |acc| - 1;
            Bucket(h, acc, b) ==
            if h(acc[n].ecm) as int % HASH_SIZE == b then [EntryFor(h, acc, n)] + Bucket(h, acc[..n], b)
            else Bucket(h, acc[..n], b)
  {
  }

  lemma {:induction false} WalkHead(e: Entry, rest: seq<Entry>, pool: seq<byte>, q: seq<byte>, hash: u32)
    ensures Walk([e] + rest, pool, q, hash) == if Matches(e, pool, q, hash) then Some(e.cw) else Walk(rest, pool, q, hash)
  {
  }

  lemma {:induction false} LastMatches(h: Hash, acc: seq<Record>, pool: seq<byte>, q: seq<byte>)
    requires acc != [] && Total(acc) <= |pool|
    requires pool[Total(acc[..|acc| - 1])..Total(acc)] == acc[|acc| - 1].ecm
    ensures Matches(EntryFor(h, acc, |acc| - 1), pool, q, h(q)) <==> acc[|acc| - 1].ecm == q
    ensures EntryFor(h, acc, |acc| - 1).cw == acc[|acc| - 1].cw
  {
  }

  /** Walking the chain of the query's bucket finds the last record with its request. */
  lemma {:induction false} WalkFindsLast(h: Hash, acc: seq<Record>, pool: seq<byte>, q: seq<byte>)
    requires Flatten(Ecms(acc)) <= pool
    ensures Walk(Bucket(h, acc, h(q) as int % HASH_SIZE), pool, q, h(q)) == LastOf(acc, q)
    decreases |acc|
  {
    hide Ecms, Flatten, Total, Walk, Bucket, Matches, EntryFor;
    if acc == [] {
      NoWalk(h, pool, q, h(q) as int % HASH_SIZE);
    } else {
      var n := |acc| - 1;
      var b := h(q) as int % HASH_SIZE;
      LastInPool(acc, pool);
      WalkFindsLast(h, acc[..n], pool, q);
      BucketHead(h, acc, b);
      WalkHead(EntryFor(h, acc, n), Bucket(h, acc[..n], b), pool, q, h(q));
      LastMatches(h, acc, pool, q);
    }
  }

  // ---------------------------------------------------------------- the program

  /** The sizes a pool goes through. */
  predicate PoolSize(n: nat) {
    n == FIRST_POOL || n == 2 * FIRST_POOL || n == 4 * FIRST_POOL || n == 8 * FIRST_POOL || n == 16 * FIRST_POOL ||
    n == LAST_POOL
  }

  lemma {:induction false} PoolSizes(n: nat)
    requires PoolSize(n)
    ensures 2 * n > POOL_LIMIT <==> n == LAST_POOL
    ensures n < LAST_POOL ==> PoolSize(2 * n)
    ensures n >= MAX_ECM_LEN
  {
  }

  lemma {:induction false} SlicedMatch(pool: array<byte>, used: nat, e: Entry, q: seq<byte>, h: u32)
    requires used <= pool.Length && e.offset + e.len <= used
    ensures Matches(e, pool[..used], q, h) <==> e.hash == h && e.len == |q| && pool[e.offset..e.offset + e.len] == q
  {
  }

  lemma {:induction false} ChainInPool(h: Hash, acc: seq<Record>, b: nat)
    ensures forall e :: e in Bucket(h, acc, b) ==> e.offset + e.len <= Total(acc)
    decreases |acc|
  {
    if acc == [] {
    } else {
      ChainInPool(h, acc[..|acc| - 1], b);
    }
  }

  /** One record more: its bytes come last in the pool, its entry first in its bucket, and the
      other buckets stay. */
  lemma {:induction false} InsertedRecord(h: Hash, acc: seq<Record>, r: Record)
    ensures Total(acc + [r]) == Total(acc) + |r.ecm|
    ensures Flatten(Ecms(acc + [r])) == Flatten(Ecms(acc)) + r.ecm
    ensures forall b :: 0 <= b < HASH_SIZE ==>
                          Bucket(h, acc + [r], b) ==
                          (if h(r.ecm) as int % HASH_SIZE == b then [Entry(Total(acc), |r.ecm|, h(r.ecm), r.cw)] else []) + Bucket(h, acc, b)
  {
    var more := acc + [r];
    assert more[..|acc|] == acc;
    assert Ecms(more)[..|acc|] == Ecms(acc);
  }

  class Channel {
    const hash: Hash
    var table: array<seq<Entry>>
    var pool: array<byte>
    var used: nat
    var count: nat
    ghost var acc: seq<Record>

    ghost predicate Valid()
      reads this, table, pool
    {
      && table.Length == HASH_SIZE
      && (forall b :: 0 <= b < HASH_SIZE ==> table[b] == Bucket(hash, acc, b))
      && used == Total(acc) <= pool.Length <= LAST_POOL
      && PoolSize(pool.Length)
      && pool[..used] == Flatten(Ecms(acc))
      && count == |acc|
    }

    constructor (hash: Hash)
      ensures Valid() && acc == [] && this.hash == hash && fresh(table) && fresh(pool)
    {
      this.hash := hash;
      table := new seq<Entry>[HASH_SIZE](_ => []);
      pool := new byte[FIRST_POOL](_ => 0);
      used, count, acc := 0, 0, [];
    }

    /** realloc to twice the size; false where that is too much. */
    method Grow() returns (ok: bool)
      requires Valid()
      modifies this`pool
      ensures Valid() && (fresh(pool) || pool == old(pool))
      ensures ok <==> old(pool).Length < LAST_POOL
      ensures if ok then pool.Length == 2 * old(pool).Length else pool == old(pool)
      ensures pool[..used] == old(pool[..used])
    {
      var newSize := pool.Length * 2;
      PoolSizes(pool.Length);
      if newSize > POOL_LIMIT {
        return false;
      }
      var old_, n := pool, pool.Length;
      var newPool := new byte[newSize](_ => 0);
      forall i | 0 <= i < n {
        newPool[i] := old_[i];
      }
      pool := newPool;
      assert pool[..used] == old_[..used];
      return true;
    }

    /** Sees to it that n more bytes fit, if they may. */
    method Reserve(n: nat) returns (ok: bool)
      requires Valid() && n <= MAX_ECM_LEN
      modifies this`pool
      ensures Valid() && (fresh(pool) || pool == old(pool))
      ensures ok <==> used + n <= LAST_POOL
      ensures ok ==> used + n <= pool.Length
      ensures pool[..used] == old(pool[..used])
    {
      ok := used + n <= pool.Length;
      if !ok {
        PoolSizes(pool.Length);
        ok := Grow();
      }
    }

    /** The record is put behind the others, its entry in front of its chain. */
    method Insert(r: Record)
      requires Valid() && used + |r.ecm| <= pool.Length
      modifies this`used, this`count, this`acc, table, pool
      ensures Valid() && acc == old(acc) + [r]
      ensures pool[..old(used)] == old(pool[..used])
    {
      hide Bucket, Ecms, Flatten, EntryFor;
      InsertedRecord(hash, acc, r);
      var h := hash(r.ecm);
      var entry := Entry(used, |r.ecm|, h, r.cw);
      forall i | 0 <= i < |r.ecm| {
        pool[used + i] := r.ecm[i];
      }
      var idx := h as int % HASH_SIZE;
      table[idx] := [entry] + table[idx];
      assert pool[..used + |r.ecm|] == old(pool[..used]) + r.ecm;
      used := used + |r.ecm|;
      count := count + 1;
      acc := acc + [r];
    }

    method SearchRam(q: seq<byte>) returns (cw: Option<Cw>)
      requires Valid()
      ensures cw == LastOf(acc, q)
    {
      hide Matches, Bucket, Ecms, Flatten;
      var h := hash(q);
      var chain := table[h as int % HASH_SIZE];
      ghost var bytes := pool[..used];
      WalkFindsLast(hash, acc, bytes, q);
      ChainInPool(hash, acc, h as int % HASH_SIZE);
      var i := 0;
      while i < |chain|
        invariant 0 <= i <= |chain|
        invariant Walk(chain, bytes, q, h) == Walk(chain[i..], bytes, q, h)
      {
        var e := chain[i];
        assert e in chain;
        assert Matches(e, bytes, q, h) <==> e.hash == h && e.len == |q| && pool[e.offset..e.offset + e.len] == q by {
          SlicedMatch(pool, used, e, q, h);
        }
        if e.hash == h && e.len == |q| && pool[e.offset..e.offset + e.len] == q {
          return Some(e.cw);
        }
        assert chain[i..][1..] == chain[i + 1..];
        i := i + 1;
      }
      return None;
    }
  }

  /** The duplicate check over the hashes kept so far. */
  method IsDuplicate(seen: array<u32>, seenCount: nat, h: u32) returns (dup: bool)
    requires seenCount <= seen.Length
    ensures dup <==> h in seen[..seenCount]
  {
    var i := 0;
    while i < seenCount
      invariant 0 <= i <= seenCount && h !in seen[..i]
    {
      if seen[i] == h {
        return true;
      }
      i := i + 1;
    }
    return false;
  }

  /** The hashes the duplicate check knows, in an array. */
  ghost predicate Remembers(seen: array<u32>, seenCount: nat, ch: Channel)
    reads seen, ch
  {
    && seen.Length == MAX_SEEN
    && seenCount == (if |ch.acc| < MAX_SEEN then |ch.acc| else MAX_SEEN)
    && seen[..seenCount] == Seen(ch.hash, ch.acc)
  }

  lemma {:induction false} UsableLength(line: Line, expected: u16)
    requires Usable(line, expected)
    ensures |line.rec.ecm| <= MAX_ECM_LEN
  {
  }

  /** One line of the file; stop says that the pool is full. */
  method AddLine(ch: Channel, seen: array<u32>, seenCount: nat, line: Line, expected: u16) returns (n: nat, stop: bool)
    requires ch.Valid() && Remembers(seen, seenCount, ch) && (seen as object) != (ch.pool as object)
    modifies ch`pool, ch`used, ch`count, ch`acc, ch.table, ch.pool, seen
    ensures ch.Valid() && ch.table == old(ch.table) && (fresh(ch.pool) || ch.pool == old(ch.pool))
    ensures Loaded(ch.acc, stop) == LoadLine(ch.hash, Loaded(old(ch.acc), false), line, expected)
    ensures Remembers(seen, n, ch)
  {
    hide Bucket, Ecms, Flatten, Hashes, Usable, Seen, Total;
    n, stop := seenCount, false;
    if !Usable(line, expected) {
      return;
    }
    UsableLength(line, expected);
    var h := ch.hash(line.rec.ecm);
    var dup := IsDuplicate(seen, seenCount, h);
    if dup {
      return;
    }
    var room := ch.Reserve(|line.rec.ecm|);
    if !room {
      stop := true;
      return;
    }
    SeenGrows(ch.hash, ch.acc, line.rec);
    ch.Insert(line.rec);
    if n < MAX_SEEN {
      seen[n] := h;
      n := n + 1;
    }
  }

  /** load_channel_ram: reads the file line by line into a channel. */
  method LoadChannelRam(hash: Hash, lines: seq<Line>, expected: u16) returns (ch: Channel, ok: bool)
    ensures fresh(ch) && fresh(ch.table) && fresh(ch.pool) && ch.Valid() && ch.hash == hash
    ensures ch.acc == Load(hash, lines, expected).acc
    ensures ok <==> ch.acc != []
  {
    hide Bucket, Ecms, Flatten, Hashes, Usable, LoadLine, Seen, Total;
    ch := new Channel(hash);
    var seen := new u32[MAX_SEEN](_ => 0);
    var seenCount := 0;
    var i := 0;
    assert Seen(hash, []) == [] by { SeenAll(hash, []); }
    while i < |lines|
      invariant 0 <= i <= |lines| && ch.Valid() && ch.hash == hash
      invariant fresh(ch) && fresh(ch.table) && fresh(ch.pool) && fresh(seen) && (seen as object) != (ch.pool as object)
      invariant Load(hash, lines[..i], expected) == Loaded(ch.acc, false)
      invariant Remembers(seen, seenCount, ch)
    {
      LoadGrows(hash, lines, i + 1, expected);
      assert lines[..i + 1][..i] == lines[..i];
      var stop: bool;
      seenCount, stop := AddLine(ch, seen, seenCount, lines[i], expected);
      if stop {
        break;
      }
      i := i + 1;
    }
    assert i == |lines| ==> lines[..i] == lines;
    ok := ch.count > 0;
  }

  /** search_ecm_direct. */
  method SearchDirect(lines: seq<Line>, q: seq<byte>, expected: u16) returns (cw: Option<Cw>)
    ensures cw == Scan(lines, expected, q)
  {
    hide Usable;
    var i := 0;
    while i < |lines|
      invariant 0 <= i <= |lines| && Scan(lines[..i], expected, q) == None
    {
      assert lines[..i + 1][..i] == lines[..i];
      if Usable(lines[i], expected) && lines[i].rec.ecm == q {
        ScanStays(lines, i + 1, expected, q);
        return Some(lines[i].rec.cw);
      }
      i := i + 1;
    }
    assert lines[..i] == lines;
    return None;
  }
}
