/**
 The control-word cycle checker. Each channel's entry learns how often its word changes and
 which half changes next (stages 0 to 2, or 4 after a gap), and then checks every new word
 against that (stage 3). Entries are copied, changed, and pushed on top of a list.
 */
module CwCycle {
  import opened Bytes

  type Word = w: seq<byte> | |w| == 16 witness seq(16, _ => 0)

  /** One remembered answer: hash of the request and the word. */
  datatype Answer = Answer(md5: Word, cspHash: u32, cw: Word)

  const NO_ANSWER := Answer(seq(16, _ => 0), 0, seq(16, _ => 0))

  const RING := 15

  type Ring = s: seq<Answer> | |s| == RING witness seq(RING, _ => NO_ANSWER)

  type Slot = k: nat | k < RING

  datatype Entry = Entry(
    cw: Word, time: int, locktime: int, caid: u16, sid: u16, chid: u16, provid: u32, ecmlen: int,
    stage: int, cycletime: int, dyncycletime: int, nextcyclecw: int,
    ring: Ring, histEntry: Slot, isOld: bool, stage4Repeat: int)

  datatype Config = Config(useCwcFromCe: bool, dropOld: bool, sensitive: int, allowBadFromFfb: bool,
                           keepCycleTime: int, maxCycleList: int, fallbackTimeout: u16 -> nat)

  /** The request with the word to check. fallback: the answering reader is a fixed fallback. */
  datatype Request = Request(
    caid: u16, prid: u32, srvid: u16, chid: u16, ecmlen: int, ecmd5: Word, cspHash: u32, cw: Word, now: int,
    notFound: bool, fallback: bool, cycletime: byte, nextCwCycle: byte)

  // ---------------------------------------------------------------- words

  predicate NonZero(s: seq<byte>) {
    exists i :: 0 <= i < |s| && s[i] != 0
  }

  /** Half 0 or half 1 of a word. */
  function Half(w: Word, h: int): (s: seq<byte>)
    ensures |s| == 8
  {
    if h == 0 then w[..8] else w[8..]
  }

  /** memcmp as the difference of the first bytes that differ, cut to a signed byte. */
  function Memcmp(a: seq<byte>, b: seq<byte>): int
    requires |a| == |b|
  {
    if a == [] then 0
    else if a[0] != b[0] then (a[0] as int - b[0] as int + 128) % 256 - 128
    else Memcmp(a[1..], b[1..])
  }

  lemma {:induction false} MemcmpZero(a: seq<byte>, b: seq<byte>)
    requires |a| == |b|
    ensures Memcmp(a, b) == 0 <==> a == b
  {
    if a == [] {
    } else {
      if a[0] == b[0] {
        MemcmpZero(a[1..], b[1..]);
        assert a == [a[0]] + a[1..] && b == [b[0]] + b[1..];
      } else {
        var d := a[0] as int - b[0] as int;
        assert -256 < d < 256 && d != 0;
      }
    }
  }

  function SameBytes(a: seq<byte>, b: seq<byte>): nat
    requires |a| == |b|
    decreases |a|
  {
    if a == [] then 0
    else SameBytes(a[..|a| - 1], b[..|a| - 1]) + (if a[|a| - 1] == b[|a| - 1] then 1 else 0)
  }

  /** The words agree on half h and differ in the other half. */
  ghost predicate AgreeOnHalf(a: Word, b: Word, h: int) {
    Half(a, h) == Half(b, h) && Half(a, 1 - h) != Half(b, 1 - h)
  }

  // ---------------------------------------------------------------- checking one entry

  predicate IsBiss(caid: u16) { caid / 256 == 0x26 }

  predicate IsVideoguard(caid: u16) { caid / 256 == 0x09 }

  /** checkvalidCW. */
  predicate WorthChecking(r: Request) {
    if r.notFound || (!NonZero(r.cw) && !IsBiss(r.caid)) then false
    else if NonZero(Half(r.cw, 0)) && NonZero(Half(r.cw, 1)) then true
    else !IsVideoguard(r.caid)
  }

  predicate HasCycleInfo(r: Request) {
    r.cycletime > 0 && r.nextCwCycle < 2
  }

  predicate SameChannel(e: Entry, r: Request) {
    && e.caid == r.caid && e.provid == r.prid && e.sid == r.srvid && e.chid == r.chid
    && (r.ecmlen != 0 && e.ecmlen != 0 ==> e.ecmlen == r.ecmlen)
  }

  /** What a check does: its return code, whether the copy is stored, the copy, and the
      cycle information written into the request. */
  datatype Verdict = Verdict(ret: int, store: bool, entry: Entry, next: Option<int>, cycletime: Option<int>)

  function SameWordRet(cfg: Config, e: Entry, r: Request): int {
    if r.now - e.time >= e.cycletime - e.dyncycletime then (if cfg.dropOld then 2 else 4) else 4
  }

  predicate Remembered(a: Answer, r: Request) {
    || (NonZero(r.ecmd5) && NonZero(a.md5) && r.ecmd5 == a.md5)
    || (r.cspHash != 0 && a.cspHash != 0 && r.cspHash == a.cspHash)
  }

  function FindRemembered(ring: seq<Answer>, r: Request): (k: nat)
    ensures k <= |ring|
    ensures k < |ring| ==> Remembered(ring[k], r)
    ensures forall i :: 0 <= i < k ==> !Remembered(ring[i], r)
  {
    First(ring, (a: Answer) => Remembered(a, r))
  }

  /** The half that must stay does stay, and the other one differs enough. */
  predicate CycleOk(cfg: Config, e: Entry, r: Request) {
    && 0 <= e.nextcyclecw < 2
    && Half(e.cw, e.nextcyclecw) == Half(r.cw, e.nextcyclecw)
    && !(cfg.sensitive != 0 && SameBytes(Half(e.cw, 1 - e.nextcyclecw), Half(r.cw, 1 - e.nextcyclecw)) >= cfg.sensitive)
  }

  /** A word that breaks the cycle. */
  function BadCycle(cfg: Config, e: Entry, r: Request): Verdict {
    var k := FindRemembered(e.ring, r);
    if k < |e.ring| then Verdict(if !cfg.dropOld && e.ring[k].cw == r.cw then 4 else 2, false, e, None, None)
    else if cfg.allowBadFromFfb && r.fallback then Verdict(5, true, e.(stage := 4, nextcyclecw := 2), None, None)
    else Verdict(1, false, e, None, None)
  }

  function CycleTimeShown(e: Entry): Option<int> {
    if e.cycletime < 128 && !(e.caid == 0x0100 && e.provid == 0x6A) then Some(e.cycletime) else None
  }

  /** Which half changes next, from a stored word and the next one: only if exactly one half
      changed. Where nothing is learned the former value may stay. */
  function LearnNext(e: Entry, r: Request): int {
    var n, m := Memcmp(Half(e.cw, 0), Half(r.cw, 0)), Memcmp(Half(e.cw, 1), Half(r.cw, 1));
    if n == m || !NonZero(r.cw) then 2
    else if m == 0 then 0
    else if n == 0 then 1
    else e.nextcyclecw
  }

  function ToInt16(v: int): int {
    (v + 0x8000) % 0x1_0000 - 0x8000
  }

  predicate Steady(e: Entry, r: Request) {
    -2 < ToInt16(r.now - e.time - e.cycletime) < 2
  }

  /** Stages 0 to 4 once the lock has expired; stage 3 passes through. */
  function Advance(e: Entry, r: Request): Entry {
    if e.stage <= 0 then
      (if Steady(e, r) then e.(cycletime := r.now - e.time, stage := e.stage + 1) else e)
    else if e.stage == 1 then
      (if Steady(e, r) then e.(cycletime := r.now - e.time, stage := 2) else e.(stage := 0))
    else if e.stage == 2 then
      (if Steady(e, r) && e.cycletime > 0 then
         var next := LearnNext(e, r);
         e.(cycletime := r.now - e.time, nextcyclecw := next, stage := if next < 2 then 3 else 1)
       else e.(stage := 1))
    else if e.stage == 4 then
      var next := LearnNext(e, r);
      e.(nextcyclecw := next, stage := if next < 2 then 3 else if e.stage4Repeat > 12 then 1 else 4,
         stage4Repeat := ToInt8(e.stage4Repeat + 1))
    else e
  }

  function Relock(cfg: Config, e: Entry, r: Request): Entry {
    if e.stage == 3 then e.(locktime := 0, stage4Repeat := 0)
    else e.(cycletime := if e.stage < 3 then r.now - e.time else e.cycletime,
            locktime := r.now + cfg.fallbackTimeout(e.caid) / 1000)
  }

  function TrackDelay(e: Entry, r: Request): Entry {
    if e.stage == 3 then
      e.(dyncycletime := if r.now - e.time > e.cycletime then r.now - e.time - e.cycletime else 0)
    else e
  }

  /** The learning part. */
  function Learn(cfg: Config, e: Entry, r: Request, ret: int): Verdict {
    if r.now > e.locktime then
      var e1 := Relock(cfg, Advance(e, r), r);
      Verdict(if e.stage == 4 then (if ret == 3 then 3 else 7) else ret, true, TrackDelay(e1, r), None, None)
    else Verdict(ret, e.stage == 3, TrackDelay(e, r), None, None)
  }

  /** Stage 3 is left: for stage 4 within the keep time, otherwise back to stage 2. */
  function FallBack(cfg: Config, e: Entry, r: Request): Entry {
    e.(stage := if cfg.keepCycleTime > 0 && r.now - e.time < cfg.keepCycleTime * 60 then 4 else 2,
       cw := seq(16, _ => 0), nextcyclecw := 2)
  }

  predicate InCycleWindow(e: Entry, r: Request) {
    e.stage == 3 && e.nextcyclecw < 2 && r.now - e.time < e.cycletime * 2 - e.dyncycletime - 1
  }

  function CheckEntry(cfg: Config, e: Entry, r: Request): Verdict {
    if cfg.useCwcFromCe && HasCycleInfo(r) then
      var e1 := e.(stage := 3, cycletime := r.cycletime, nextcyclecw := r.nextCwCycle);
      if e.cw == r.cw then Verdict(SameWordRet(cfg, e1, r), false, e1, None, None)
      else Verdict(8, true, e1, None, None)
    else if InCycleWindow(e, r) then
      if e.cw == r.cw then Verdict(SameWordRet(cfg, e, r), false, e, None, None)
      else if !CycleOk(cfg, e, r) then BadCycle(cfg, e, r)
      else
        var next := 1 - e.nextcyclecw;
        Learn(cfg, e.(nextcyclecw := next), r, 0).(next := Some(next), cycletime := CycleTimeShown(e))
    else if e.stage == 3 then Learn(cfg, FallBack(cfg, e, r), r, 3)
    else Learn(cfg, e, r, 6)
  }

  // ---------------------------------------------------------------- the list

  datatype State = State(list: seq<Entry>, size: int, lastCleaning: int)

  /** The state after a check, its return code, and the cycle information for the request. */
  datatype Result = Result(state: State, ret: int, next: Option<int>, cycletime: Option<int>)

  function AnswerOf(r: Request): Answer {
    Answer(r.ecmd5, r.cspHash, r.cw)
  }

  function NewEntry(cfg: Config, r: Request): Entry {
    var info := cfg.useCwcFromCe && HasCycleInfo(r);
    Entry(r.cw, r.now, r.now + cfg.fallbackTimeout(r.caid) / 1000, r.caid, r.srvid, r.chid, r.prid, r.ecmlen,
          if info then 3 else 0, if info then r.cycletime else 99, 0, if info then r.nextCwCycle else 2,
          seq(RING, _ => NO_ANSWER)[0 := AnswerOf(r)], 0, false, 0)
  }

  /** The copy as it is pushed on the list. */
  function Stored(e: Entry, r: Request): Entry
  {
    var h := if e.histEntry + 1 > 14 then 0 else e.histEntry + 1;
    e.(isOld := false, cw := r.cw, time := r.now, histEntry := h, ring := e.ring[h := AnswerOf(r)], ecmlen := r.ecmlen)
  }

  function FindChannel(list: seq<Entry>, r: Request): (i: nat)
    ensures i <= |list|
    ensures i < |list| ==> SameChannel(list[i], r)
    ensures forall k :: 0 <= k < i ==> !SameChannel(list[k], r)
  {
    First(list, (e: Entry) => SameChannel(e, r))
  }

  function Check(cfg: Config, s: State, r: Request): Result
  {
    if !WorthChecking(r) then Result(s, 3, None, None)
    else
      var i := FindChannel(s.list, r);
      if i == |s.list| then
        if s.size <= cfg.maxCycleList then
          Result(State([NewEntry(cfg, r)] + s.list, s.size + 1, s.lastCleaning), if HasCycleInfo(r) then 8 else 6, None, None)
        else Result(s, 6, None, None)
      else
        var e := s.list[i];
        var v := CheckEntry(cfg, e, r);
        var size := if e.isOld then s.size else s.size - 1;
        var list := s.list[i := e.(isOld := true)];
        if v.store then Result(State([Stored(v.entry, r)] + list, size + 1, s.lastCleaning), v.ret, v.next, v.cycletime)
        else Result(State(list, size, s.lastCleaning), v.ret, v.next, v.cycletime)
  }

  /** How many nodes at the end are not marked old. */
  function Current(list: seq<Entry>): nat {
    if list == [] then 0 else (if list[0].isOld then 0 else 1) + Current(list[1..])
  }

  /** The first node that has been kept too long. */
  function FirstExpired(list: seq<Entry>, now: int, kct: int): (i: nat)
    ensures i <= |list|
    ensures i < |list| ==> now - list[i].time > kct
    ensures forall k :: 0 <= k < i ==> now - list[k].time <= kct
  {
    First(list, (e: Entry) => now - e.time > kct)
  }

  function KeepTime(cfg: Config): int {
    cfg.keepCycleTime * 60 + 30
  }

  function Cleanup(cfg: Config, s: State, now: int): State {
    if s.lastCleaning + 120 > now then s
    else
      var i := FirstExpired(s.list, now, KeepTime(cfg));
      State(s.list[..i], s.size - Current(s.list[i..]), now)
  }

  // ---------------------------------------------------------------- one entry: stages and halves

  /** Stages 0 to 4; which half changes next is known exactly in stage 3. */
  ghost predicate StageOk(e: Entry) {
    && 0 <= e.stage <= 4
    && 0 <= e.nextcyclecw <= 2
    && (e.nextcyclecw < 2 <==> e.stage == 3)
  }

  lemma {:induction false} LearnNextRange(e: Entry, r: Request)
    requires e.nextcyclecw == 2
    ensures 0 <= LearnNext(e, r) <= 2
    ensures LearnNext(e, r) < 2 <==>
            NonZero(r.cw) && (Half(e.cw, 0) == Half(r.cw, 0)) != (Half(e.cw, 1) == Half(r.cw, 1))
  {
    MemcmpZero(Half(e.cw, 0), Half(r.cw, 0));
    MemcmpZero(Half(e.cw, 1), Half(r.cw, 1));
  }

  lemma {:induction false} LearnKeepsStage(cfg: Config, e: Entry, r: Request, ret: int)
    requires StageOk(e)
    ensures var v := Learn(cfg, e, r, ret);
            StageOk(v.entry) && v.entry.ring == e.ring && v.entry.histEntry == e.histEntry
    ensures var v := Learn(cfg, e, r, ret); v.entry.caid == e.caid && v.entry.provid == e.provid &&
                                            v.entry.sid == e.sid && v.entry.chid == e.chid
  {
    hide LearnNext, Steady;
    if e.stage != 3 {
      LearnNextRange(e, r);
    }
  }

  lemma {:induction false} WindowStage(e: Entry, r: Request)
    requires InCycleWindow(e, r)
    ensures e.stage == 3
  {
  }

  lemma {:induction false} CheckKeepsStage(cfg: Config, e: Entry, r: Request)
    requires StageOk(e)
    ensures var v := CheckEntry(cfg, e, r);
            && StageOk(v.entry) && v.entry.ring == e.ring && v.entry.histEntry == e.histEntry
            && v.entry.caid == e.caid && v.entry.provid == e.provid && v.entry.sid == e.sid && v.entry.chid == e.chid
  {
    hide Learn, FindRemembered, CycleOk, InCycleWindow;
    if !(cfg.useCwcFromCe && HasCycleInfo(r)) {
      if InCycleWindow(e, r) {
        assert e.stage == 3 by { WindowStage(e, r); }
        LearnKeepsStage(cfg, e.(nextcyclecw := 1 - e.nextcyclecw), r, 0);
      } else if e.stage == 3 {
        LearnKeepsStage(cfg, FallBack(cfg, e, r), r, 3);
      } else {
        LearnKeepsStage(cfg, e, r, 6);
      }
    }
  }

  /** "Cycle OK" means: the half that had to stay stayed, the other one changed, and it is the
      other half's turn next. The result is stored. */
  lemma {:induction false} OkMeansAlternation(cfg: Config, e: Entry, r: Request)
    requires StageOk(e) && CheckEntry(cfg, e, r).ret == 0
    ensures var v := CheckEntry(cfg, e, r);
            && AgreeOnHalf(e.cw, r.cw, e.nextcyclecw)
            && v.store && v.entry.stage == 3 && v.entry.nextcyclecw == 1 - e.nextcyclecw
            && e.stage == 3
  {
  }

  /** A word is checked exactly if it was found and is not all zero, BISS words excepted;
      a Videoguard word only if neither half is. */
  lemma {:induction false} CheckedExactly(r: Request)
    ensures WorthChecking(r) <==>
            && !r.notFound
            && (r.caid / 256 == 0x26 || exists i :: 0 <= i < 16 && r.cw[i] != 0)
            && (r.caid / 256 == 0x09 ==>
                  (exists i :: 0 <= i < 8 && r.cw[i] != 0) && (exists i :: 8 <= i < 16 && r.cw[i] != 0))
  {
    var a, b := Half(r.cw, 0), Half(r.cw, 1);
    if NonZero(a) {
      var i :| 0 <= i < 8 && a[i] != 0;
      assert r.cw[i] != 0;
    }
    if NonZero(b) {
      var i :| 0 <= i < 8 && b[i] != 0;
      assert r.cw[8 + i] != 0;
    }
    if i :| 0 <= i < 8 && r.cw[i] != 0 {
      assert a[i] != 0;
    }
    if i :| 8 <= i < 16 && r.cw[i] != 0 {
      assert b[i - 8] != 0;
    }
  }

  /** Inside the cycle window, without byte counting, "cycle OK" is exactly that: the half due
      to stay stays and the other one changes. */
  lemma {:induction false} OkExactlyOnAlternation(cfg: Config, e: Entry, r: Request)
    requires StageOk(e) && InCycleWindow(e, r) && !(cfg.useCwcFromCe && HasCycleInfo(r)) && cfg.sensitive == 0
    ensures CheckEntry(cfg, e, r).ret == 0 <==>
            if e.nextcyclecw == 0 then e.cw[..8] == r.cw[..8] && e.cw[8..] != r.cw[8..]
            else e.cw[..8] != r.cw[..8] && e.cw[8..] == r.cw[8..]
  {
  }

  /** The request learns which half changes next exactly on "cycle OK", and a cycle time
      only if it leaves the top bit of its byte free. */
  lemma {:induction false} ShownExactlyWhenOk(cfg: Config, e: Entry, r: Request)
    requires StageOk(e)
    ensures var v := CheckEntry(cfg, e, r);
            && (v.next.Some? <==> v.ret == 0)
            && (v.next.Some? ==> v.next.value == v.entry.nextcyclecw)
            && (v.cycletime.Some? <==> v.ret == 0 && e.cycletime < 128 && !(e.caid == 0x0100 && e.provid == 0x00006A))
            && (v.cycletime.Some? ==> v.cycletime.value == e.cycletime)
  {
  }

  // ---------------------------------------------------------------- every answer inside the window

  /** How many bytes two words share. */
  ghost function Shared(a: seq<byte>, b: seq<byte>): nat
    requires |a| == |b|
  {
    |set i | 0 <= i < |a| && a[i] == b[i]|
  }

  lemma {:induction false} SameBytesCounts(a: seq<byte>, b: seq<byte>)
    requires |a| == |b|
    ensures SameBytes(a, b) == Shared(a, b)
    decreases |a|
  {
    if a == [] {
    } else {
      var n := |a| - 1;
      SameBytesCounts(a[..n], b[..n]);
      var before := set i | 0 <= i < |a[..n]| && a[..n][i] == b[..n][i];
      var after := set i | 0 <= i < |a| && a[i] == b[i];
      assert after == if a[n] == b[n] then before + {n} else before;
    }
  }

  /** The word is not the next one of the cycle: the half due to stay changed, or too many bytes
      of the other one stayed, where they are counted. */
  ghost predicate Breaks(cfg: Config, e: Entry, r: Request) {
    || Half(e.cw, e.nextcyclecw) != Half(r.cw, e.nextcyclecw)
    || (cfg.sensitive != 0 && Shared(Half(e.cw, 1 - e.nextcyclecw), Half(r.cw, 1 - e.nextcyclecw)) >= cfg.sensitive)
  }

  /** The remembered answer is one to this request, by one of its hashes. */
  ghost predicate AnswersRequest(a: Answer, r: Request) {
    (NonZero(r.ecmd5) && a.md5 == r.ecmd5) || (r.cspHash != 0 && a.cspHash == r.cspHash)
  }

  ghost predicate FirstAnswer(e: Entry, r: Request, k: nat) {
    k < RING && AnswersRequest(e.ring[k], r) && forall i :: 0 <= i < k ==> !AnswersRequest(e.ring[i], r)
  }

  /** Stage 3, the next half known, and less than two cycles since the last word. */
  ghost predicate InTimeForNext(cfg: Config, e: Entry, r: Request) {
    && e.stage == 3 && 0 <= e.nextcyclecw < 2 && r.now < e.time + 2 * e.cycletime - e.dyncycletime - 1
    && !(cfg.useCwcFromCe && r.cycletime > 0 && r.nextCwCycle < 2)
  }

  lemma {:induction false} InWindow(cfg: Config, e: Entry, r: Request)
    requires InTimeForNext(cfg, e, r)
    ensures InCycleWindow(e, r) && !(cfg.useCwcFromCe && HasCycleInfo(r))
    ensures CycleOk(cfg, e, r) <==> !Breaks(cfg, e, r)
    ensures forall k: nat :: k < RING ==> (Remembered(e.ring[k], r) <==> AnswersRequest(e.ring[k], r))
  {
    hide NonZero, Half;
    SameBytesCounts(Half(e.cw, 1 - e.nextcyclecw), Half(r.cw, 1 - e.nextcyclecw));
  }

  /** The same word again: 2 if it comes a whole cycle later and such words are dropped, else 4. */
  lemma {:induction false} SameWordAnswer(cfg: Config, e: Entry, r: Request)
    requires InTimeForNext(cfg, e, r) && r.cw == e.cw
    ensures CheckEntry(cfg, e, r).ret == if cfg.dropOld && r.now >= e.time + e.cycletime - e.dyncycletime then 2 else 4
    ensures !CheckEntry(cfg, e, r).store
  {
    hide CycleOk, BadCycle, Learn, Remembered;
    InWindow(cfg, e, r);
  }

  lemma {:induction false} OkIsZero(cfg: Config, e: Entry, r: Request)
    requires InTimeForNext(cfg, e, r) && r.cw != e.cw && CycleOk(cfg, e, r)
    ensures CheckEntry(cfg, e, r).ret == 0
  {
    hide CycleOk, BadCycle, Advance, LearnNext;
    InWindow(cfg, e, r);
  }

  /** Another word, inside the window. It is answered 0 exactly if it does not break the cycle.
      Otherwise a remembered answer to the request decides: 4 if it brought this word and old
      words are not dropped, else 2. Without one it is 5 from an allowed fallback, and 1, which
      refuses the word, from anywhere else. */
  lemma {:induction false} OtherWordAnswer(cfg: Config, e: Entry, r: Request)
    requires InTimeForNext(cfg, e, r) && r.cw != e.cw
    ensures var ret := CheckEntry(cfg, e, r).ret;
            var breaks := Breaks(cfg, e, r);
            var known := exists k: nat :: FirstAnswer(e, r, k);
            && (ret == 0 <==> !breaks)
            && (ret == 4 <==> breaks && !cfg.dropOld && exists k: nat :: FirstAnswer(e, r, k) && e.ring[k].cw == r.cw)
            && (ret == 2 <==> breaks && (exists k: nat :: FirstAnswer(e, r, k) && (cfg.dropOld || e.ring[k].cw != r.cw)))
            && (ret == 5 <==> breaks && !known && cfg.allowBadFromFfb && r.fallback)
            && (ret == 1 <==> breaks && !known && !(cfg.allowBadFromFfb && r.fallback))
    ensures Breaks(cfg, e, r) ==> (CheckEntry(cfg, e, r).store <==> CheckEntry(cfg, e, r).ret == 5)
  {
    hide CycleOk, Learn, Remembered, Breaks, AnswersRequest;
    InWindow(cfg, e, r);
    if !Breaks(cfg, e, r) {
      OkIsZero(cfg, e, r);
    }
    var k := FindRemembered(e.ring, r);
    if k < RING {
      assert FirstAnswer(e, r, k);
      forall i: nat | FirstAnswer(e, r, i) ensures i == k {
      }
    } else {
      forall i: nat ensures !FirstAnswer(e, r, i) {
      }
    }
  }

  // ---------------------------------------------------------------- runs

  datatype Event = Checking(request: Request) | Cleaning(now: int)

  function Happens(cfg: Config, s: State, e: Event): State {
    match e
    case Checking(r) => Check(cfg, s, r).state
    case Cleaning(now) => Cleanup(cfg, s, now)
  }

  function After(cfg: Config, s: State, events: seq<Event>): State
    decreases |events|
  {
    if events == [] then s else Happens(cfg, After(cfg, s, events[..|events| - 1]), events[|events| - 1])
  }

  const START := State([], 0, 0)

  ghost predicate StagesOk(list: seq<Entry>) {
    forall e :: e in list ==> StageOk(e)
  }

  lemma {:induction false} HappensStages(cfg: Config, s: State, e: Event)
    requires StagesOk(s.list)
    ensures StagesOk(Happens(cfg, s, e).list)
  {
    hide CheckEntry, WorthChecking;
    match e
    case Cleaning(now) =>
    case Checking(r) =>
      var i := FindChannel(s.list, r);
      if i < |s.list| {
        CheckKeepsStage(cfg, s.list[i], r);
      }
  }

  /** In every reachable list. */
  lemma {:induction false} StagesAlwaysOk(cfg: Config, events: seq<Event>)
    ensures StagesOk(After(cfg, START, events).list)
    decreases |events|
  {
    hide Happens, StageOk;
    if events == [] {
    } else {
      StagesAlwaysOk(cfg, events[..|events| - 1]);
      HappensStages(cfg, After(cfg, START, events[..|events| - 1]), events[|events| - 1]);
    }
  }

  // ---------------------------------------------------------------- alternation over a run

  /** What a request asks for. Length 0 stands for any length, so requests with other lengths
      are other channels where neither length is 0. */
  datatype Channel = Channel(caid: u16, prid: u32, srvid: u16, chid: u16, ecmlen: int)

  predicate Asks(c: Channel, r: Request) {
    && r.caid == c.caid && r.prid == c.prid && r.srvid == c.srvid && r.chid == c.chid
    && (r.ecmlen != 0 && c.ecmlen != 0 ==> r.ecmlen == c.ecmlen)
  }

  /** The check of the request pushes a node on the list. */
  predicate Stores(cfg: Config, s: State, r: Request) {
    |Check(cfg, s, r).state.list| > |s.list|
  }

  ghost predicate OkIfStored(cfg: Config, s: State, e: Event, c: Channel) {
    e.Checking? && Asks(c, e.request) && Stores(cfg, s, e.request) ==>
      e.request.ecmlen == c.ecmlen && Check(cfg, s, e.request).ret == 0
  }

  /** Every request that may be taken for the channel's, and is stored, has its length and is
      answered "cycle OK". Repeats of a word, and words that are refused, are not stored. */
  ghost predicate AllOk(cfg: Config, s: State, events: seq<Event>, c: Channel) {
    forall i :: 0 <= i < |events| ==> OkIfStored(cfg, After(cfg, s, events[..i]), events[i], c)
  }

  function StoredWord(cfg: Config, s: State, e: Event, c: Channel): seq<Word> {
    if e.Checking? && Asks(c, e.request) && Stores(cfg, s, e.request) then [e.request.cw] else []
  }

  /** The words stored for the channel, in order. */
  ghost function StoredWords(cfg: Config, s: State, events: seq<Event>, c: Channel): seq<Word>
    decreases |events|
  {
    if events == [] then []
    else
      var n := |events| - 1;
      StoredWords(cfg, s, events[..n], c) + StoredWord(cfg, After(cfg, s, events[..n]), events[n], c)
  }

  /** Neighbouring words agree on exactly one half: half first between the first two, the
      other half between the next two, and so on. */
  ghost predicate Alternates(words: seq<Word>, first: int) {
    forall i :: 0 <= i < |words| - 1 ==> AgreeOnHalf(words[i], words[i + 1], (first + i) % 2)
  }

  /** A request of the channel; FindChannel looks at nothing else of it. */
  function Probe(c: Channel): Request {
    var zero: Word := seq(16, _ => 0);
    Request(c.caid, c.prid, c.srvid, c.chid, c.ecmlen, zero, 0, zero, 0, false, false, 0, 0)
  }

  /** The channel's newest entry, unless it has been cleaned away. */
  ghost predicate NewestIs(list: seq<Entry>, c: Channel, word: Word, next: int) {
    var i := FindChannel(list, Probe(c));
    i < |list| ==> list[i].cw == word && list[i].nextcyclecw == next
  }

  lemma {:induction false} SameSearch(list: seq<Entry>, c: Channel, r: Request)
    requires Asks(c, r) && r.ecmlen == c.ecmlen
    ensures FindChannel(list, r) == FindChannel(list, Probe(c))
  {
  }

  /** The search stops at the first match. */
  lemma {:induction false} FoundFirst(list: seq<Entry>, i: nat, r: Request)
    requires i <= |list| && (i < |list| ==> SameChannel(list[i], r))
    requires forall k :: 0 <= k < i ==> !SameChannel(list[k], r)
    ensures FindChannel(list, r) == i
  {
  }

  lemma {:induction false} MarkingKeepsSearch(list: seq<Entry>, i: nat, c: Channel)
    requires i < |list|
    ensures FindChannel(list[i := list[i].(isOld := true)], Probe(c)) == FindChannel(list, Probe(c))
  {
    var after := list[i := list[i].(isOld := true)];
    assert forall x :: 0 <= x < |list| ==> (SameChannel(after[x], Probe(c)) <==> SameChannel(list[x], Probe(c)));
    FoundFirst(after, FindChannel(list, Probe(c)), Probe(c));
  }

  lemma {:induction false} PushedSearch(e: Entry, list: seq<Entry>, r: Request)
    ensures FindChannel([e] + list, r) == if SameChannel(e, r) then 0 else 1 + FindChannel(list, r)
  {
  }

  lemma {:induction false} PrefixKeepsSearch(list: seq<Entry>, n: nat, r: Request)
    requires n <= |list|
    ensures FindChannel(list[..n], r) == if FindChannel(list, r) < n then FindChannel(list, r) else n
  {
  }

  /** Checks of other channels and cleaning leave the channel's newest entry alone. */
  lemma {:induction false} OthersKeepNewest(cfg: Config, s: State, e: Event, c: Channel, word: Word, next: int)
    requires StagesOk(s.list) && NewestIs(s.list, c, word, next)
    requires e.Checking? ==> !Asks(c, e.request)
    ensures NewestIs(Happens(cfg, s, e).list, c, word, next)
  {
    hide CheckEntry, WorthChecking, FindChannel, StageOk;
    var after := Happens(cfg, s, e);
    match e {
      case Cleaning(now) =>
        PrefixKeepsSearch(s.list, |after.list|, Probe(c));
      case Checking(r) =>
        var i := FindChannel(s.list, r);
        if WorthChecking(r) {
          if i < |s.list| {
            MarkingKeepsSearch(s.list, i, c);
            CheckKeepsStage(cfg, s.list[i], r);
            PushedSearch(Stored(CheckEntry(cfg, s.list[i], r).entry, r), s.list[i := s.list[i].(isOld := true)], Probe(c));
          } else {
            PushedSearch(NewEntry(cfg, r), s.list, Probe(c));
          }
        }
    }
  }

  /** A check that stores nothing leaves the channel's newest entry alone, whatever it is answered. */
  lemma {:induction false} UnstoredKeepsNewest(cfg: Config, s: State, r: Request, c: Channel, word: Word, next: int)
    requires NewestIs(s.list, c, word, next) && !Stores(cfg, s, r)
    ensures NewestIs(Check(cfg, s, r).state.list, c, word, next)
  {
    hide CheckEntry, WorthChecking, FindChannel;
    var i := FindChannel(s.list, r);
    if WorthChecking(r) && i < |s.list| {
      MarkingKeepsSearch(s.list, i, c);
    }
  }

  lemma {:induction false} OkStep(cfg: Config, s: State, r: Request, c: Channel, word: Word, next: int)
    requires StagesOk(s.list) && NewestIs(s.list, c, word, next)
    requires Asks(c, r) && r.ecmlen == c.ecmlen && Check(cfg, s, r).ret == 0
    ensures AgreeOnHalf(word, r.cw, next) && 0 <= next < 2
    ensures NewestIs(Check(cfg, s, r).state.list, c, r.cw, 1 - next)
  {
    hide CheckEntry;
    SameSearch(s.list, c, r);
    var i := FindChannel(s.list, r);
    assert i < |s.list|;
    OkMeansAlternation(cfg, s.list[i], r);
    CheckKeepsStage(cfg, s.list[i], r);
    var list := Check(cfg, s, r).state.list;
    assert list[0] == Stored(CheckEntry(cfg, s.list[i], r).entry, r);
    assert SameChannel(list[0], Probe(c));
  }

  /** The words so far alternate, and the channel's newest entry is ready for the next one. */
  ghost predicate InPhase(s: State, c: Channel, words: seq<Word>, first: int) {
    && words != []
    && StagesOk(s.list)
    && Alternates(words, first)
    && NewestIs(s.list, c, words[|words| - 1], (first + |words| - 1) % 2)
  }

  lemma {:induction false} AlternatesLonger(words: seq<Word>, first: int, w: Word)
    requires words != [] && Alternates(words, first)
    requires AgreeOnHalf(words[|words| - 1], w, (first + |words| - 1) % 2)
    ensures Alternates(words + [w], first)
  {
  }

  lemma {:induction false} HappensIsCheck(cfg: Config, s: State, r: Request)
    ensures Happens(cfg, s, Checking(r)) == Check(cfg, s, r).state
  {
  }

  lemma {:induction false} PhaseStep(cfg: Config, s: State, e: Event, c: Channel, words: seq<Word>, first: int)
    requires InPhase(s, c, words, first) && OkIfStored(cfg, s, e, c)
    ensures InPhase(Happens(cfg, s, e), c, words + StoredWord(cfg, s, e, c), first)
  {
    hide Happens, Check, NewestIs, StagesOk, AgreeOnHalf, Alternates, Stores;
    var last := |words| - 1;
    HappensStages(cfg, s, e);
    if e.Checking? && Asks(c, e.request) {
      HappensIsCheck(cfg, s, e.request);
      if Stores(cfg, s, e.request) {
        OkStep(cfg, s, e.request, c, words[last], (first + last) % 2);
        AlternatesLonger(words, first, e.request.cw);
      } else {
        UnstoredKeepsNewest(cfg, s, e.request, c, words[last], (first + last) % 2);
        assert words + StoredWord(cfg, s, e, c) == words;
      }
    } else {
      OthersKeepNewest(cfg, s, e, c, words[last], (first + last) % 2);
      assert words + StoredWord(cfg, s, e, c) == words;
    }
  }

  lemma {:induction false} OneWordAlternates(word: Word, next: int)
    ensures Alternates([word], next)
  {
  }

  lemma {:induction false} EarlierAllOk(cfg: Config, s: State, events: seq<Event>, c: Channel)
    requires events != [] && AllOk(cfg, s, events, c)
    ensures var n := |events| - 1;
            AllOk(cfg, s, events[..n], c) && OkIfStored(cfg, After(cfg, s, events[..n]), events[n], c)
  {
    hide After, OkIfStored;
    var n := |events| - 1;
    assert forall i :: 0 <= i < n ==> events[..n][i] == events[i] && events[..n][..i] == events[..i];
  }

  /** The main result: over any run in which the requests stored for the channel are all
      answered "cycle OK", whatever other requests come in between and whenever the list is
      cleaned, the words stored for it agree on exactly one half from each to the next, and
      that half alternates. */
  lemma {:induction false} OkRunsAlternate(cfg: Config, s: State, events: seq<Event>, c: Channel, word: Word, next: int)
    requires StagesOk(s.list) && NewestIs(s.list, c, word, next) && 0 <= next < 2
    requires AllOk(cfg, s, events, c)
    ensures Alternates([word] + StoredWords(cfg, s, events, c), next)
    ensures InPhase(After(cfg, s, events), c, [word] + StoredWords(cfg, s, events, c), next)
    decreases |events|
  {
    hide Happens, NewestIs, StagesOk, Alternates, OkIfStored, AllOk, StoredWord;
    if events == [] {
      OneWordAlternates(word, next);
      assert [word] + StoredWords(cfg, s, events, c) == [word];
    } else {
      var n := |events| - 1;
      EarlierAllOk(cfg, s, events, c);
      OkRunsAlternate(cfg, s, events[..n], c, word, next);
      var words := [word] + StoredWords(cfg, s, events[..n], c);
      var before := After(cfg, s, events[..n]);
      PhaseStep(cfg, before, events[n], c, words, next);
      assert words + StoredWord(cfg, before, events[n], c) == [word] + StoredWords(cfg, s, events, c);
    }
  }

  // ---------------------------------------------------------------- age

  ghost predicate NewestFirst(list: seq<Entry>) {
    forall i, j :: 0 <= i < j < |list| ==> list[i].time >= list[j].time
  }

  ghost predicate NoneLater(list: seq<Entry>, now: int) {
    forall i :: 0 <= i < |list| ==> list[i].time <= now
  }

  /** Requests come in the order of their times. */
  ghost predicate InOrder(events: seq<Event>) {
    forall i, j :: 0 <= i < j < |events| && events[i].Checking? && events[j].Checking? ==>
                     events[i].request.now <= events[j].request.now
  }

  lemma {:induction false} CheckOrdered(cfg: Config, s: State, r: Request)
    requires NewestFirst(s.list) && NoneLater(s.list, r.now)
    ensures NewestFirst(Check(cfg, s, r).state.list) && NoneLater(Check(cfg, s, r).state.list, r.now)
  {
    hide CheckEntry, WorthChecking;
  }

  ghost predicate NoneAfter(events: seq<Event>, now: int) {
    forall i :: 0 <= i < |events| && events[i].Checking? ==> events[i].request.now <= now
  }

  ghost predicate NoneBefore(events: seq<Event>, list: seq<Entry>) {
    forall i :: 0 <= i < |events| && events[i].Checking? ==> NoneLater(list, events[i].request.now)
  }

  lemma {:induction false} StillNoneLater(list: seq<Entry>, upTo: int, now: int)
    requires NoneLater(list, upTo) && upTo <= now
    ensures NoneLater(list, now)
  {
  }

  lemma {:induction false} CleanupIsPrefix(cfg: Config, s: State, now: int)
    ensures Cleanup(cfg, s, now).list <= s.list
  {
  }

  lemma {:induction false} CleanupOrdered(cfg: Config, s: State, t: int, now: int)
    requires NewestFirst(s.list) && NoneLater(s.list, now)
    ensures NewestFirst(Cleanup(cfg, s, t).list) && NoneLater(Cleanup(cfg, s, t).list, now)
  {
    hide Cleanup;
    CleanupIsPrefix(cfg, s, t);
  }

  lemma {:induction false} RunKeepsOrder(cfg: Config, s: State, events: seq<Event>, now: int)
    requires NewestFirst(s.list) && NoneLater(s.list, now)
    requires InOrder(events) && NoneAfter(events, now) && NoneBefore(events, s.list)
    ensures NewestFirst(After(cfg, s, events).list) && NoneLater(After(cfg, s, events).list, now)
    decreases |events|
  {
    hide Check, Cleanup, NoneLater, NewestFirst;
    if events == [] {
    } else {
      var n := |events| - 1;
      var before := After(cfg, s, events[..n]);
      assert forall i :: 0 <= i < n ==> events[..n][i] == events[i];
      match events[n]
      case Checking(r) =>
        RunKeepsOrder(cfg, s, events[..n], r.now);
        CheckOrdered(cfg, before, r);
        StillNoneLater(Check(cfg, before, r).state.list, r.now, now);
      case Cleaning(t) =>
        RunKeepsOrder(cfg, s, events[..n], now);
        CleanupOrdered(cfg, before, t, now);
    }
  }

  /** With requests in order of time the list is newest first, and no entry is younger than
      the latest request. */
  lemma {:induction false} AlwaysNewestFirst(cfg: Config, events: seq<Event>, now: int)
    requires InOrder(events) && NoneAfter(events, now)
    ensures NewestFirst(After(cfg, START, events).list) && NoneLater(After(cfg, START, events).list, now)
  {
    RunKeepsOrder(cfg, START, events, now);
  }

  /** On a list that is newest first, a cleanup that runs keeps exactly the nodes that are
      not too old; it runs at most every two minutes. */
  lemma {:induction false} CleanupExact(cfg: Config, s: State, now: int)
    requires NewestFirst(s.list) && s.lastCleaning + 120 <= now
    ensures var after := Cleanup(cfg, s, now);
            && after.lastCleaning == now
            && (forall i :: 0 <= i < |s.list| ==> (i < |after.list| <==> now - s.list[i].time <= cfg.keepCycleTime * 60 + 30))
            && after.list == s.list[..|after.list|]
  {
  }

  /** Within two minutes of the last one that ran, a cleanup does nothing. */
  lemma {:induction false} CleanupRests(cfg: Config, s: State, now: int)
    requires now < s.lastCleaning + 120
    ensures Cleanup(cfg, s, now) == s
  {
  }

  // ---------------------------------------------------------------- learning a steady channel

  function RequestIn(e: Event, c: Channel): seq<Request> {
    if e.Checking? && Asks(c, e.request) then [e.request] else []
  }

  /** The channel's requests, in order. */
  ghost function RequestsOf(events: seq<Event>, c: Channel): seq<Request>
    decreases |events|
  {
    if events == [] then [] else RequestsOf(events[..|events| - 1], c) + RequestIn(events[|events| - 1], c)
  }

  /** Half h stays, and the other one changes in enough bytes where they are counted. */
  ghost predicate Changes(cfg: Config, a: Word, b: Word, h: int) {
    && AgreeOnHalf(a, b, h)
    && (cfg.sensitive != 0 ==> SameBytes(Half(a, 1 - h), Half(b, 1 - h)) < cfg.sensitive)
  }

  /** One channel, a new word every period seconds, halves alternating, half h staying first;
      the period is longer than the lock, and no peer says anything about the cycle. */
  ghost predicate SteadyRun(cfg: Config, rs: seq<Request>, c: Channel, period: int, h: int) {
    && 2 <= period && 0 <= h < 2
    && cfg.fallbackTimeout(c.caid) / 1000 < period
    && (forall i :: 0 <= i < |rs| ==>
          && Asks(c, rs[i]) && rs[i].ecmlen == c.ecmlen && 0 <= rs[i].now && WorthChecking(rs[i]) && NonZero(rs[i].cw)
          && !(cfg.useCwcFromCe && HasCycleInfo(rs[i])))
    && (forall i :: 0 < i < |rs| ==>
          rs[i].now == rs[i - 1].now + period && Changes(cfg, rs[i - 1].cw, rs[i].cw, (h + i - 1) % 2))
  }

  /** The entry was stored for the request, and its lock will have expired at the next one. */
  ghost predicate StoredFor(e: Entry, r: Request, period: int) {
    && SameChannel(e, r) && e.cw == r.cw && e.time == r.now && e.locktime < r.now + period && e.dyncycletime == 0
  }

  /** What is known after request i: from the second on the period, from the fifth on the
      half that stays next. */
  ghost predicate Learned(e: Entry, i: nat, period: int, h: int) {
    && StageOk(e)
    && (i == 0 ==> e.stage == 0)
    && (i > 0 ==> e.cycletime == period && e.stage >= (if i < 5 then i - 1 else 3) && e.stage != 4)
    && (e.stage == 3 ==> i > 0 && e.nextcyclecw == (h + i) % 2)
  }

  lemma {:induction false} AgreeingDiffers(a: Word, b: Word, h: int)
    requires AgreeOnHalf(a, b, h)
    ensures a != b && Half(a, h) == Half(b, h)
  {
  }

  lemma {:induction false} AgreementLearned(e: Entry, r: Request, h: int)
    requires 0 <= h < 2 && AgreeOnHalf(e.cw, r.cw, h) && NonZero(r.cw)
    ensures LearnNext(e, r) == 1 - h
  {
    MemcmpZero(Half(e.cw, 0), Half(r.cw, 0));
    MemcmpZero(Half(e.cw, 1), Half(r.cw, 1));
  }

  lemma {:induction false} LearnsOne(cfg: Config, e: Entry, last: Request, r: Request, i: nat, period: int, h: int)
    requires 2 <= period && 0 <= h < 2 && cfg.fallbackTimeout(r.caid) / 1000 < period
    requires StoredFor(e, last, period) && Learned(e, i, period, h)
    requires SameChannel(e, r) && 0 <= r.now == last.now + period && NonZero(r.cw)
    requires !(cfg.useCwcFromCe && HasCycleInfo(r)) && Changes(cfg, last.cw, r.cw, (h + i) % 2)
    ensures var v := CheckEntry(cfg, e, r);
            && v.store && (e.stage == 3 ==> v.ret == 0)
            && StoredFor(Stored(v.entry, r), r, period)
            && Learned(Stored(v.entry, r), i + 1, period, h)
  {
    hide NonZero, Half, Memcmp, WorthChecking, SameBytes, FindRemembered;
    CheckKeepsStage(cfg, e, r);
    if e.stage == 3 {
      var next := e.(nextcyclecw := 1 - e.nextcyclecw);
      assert InCycleWindow(e, r);
      assert CycleOk(cfg, e, r) && e.cw != r.cw by { AgreeingDiffers(last.cw, r.cw, (h + i) % 2); }
      assert Learn(cfg, next, r, 0).entry.stage == 3;
    } else {
      LearnNextRange(e, r);
      AgreementLearned(e, r, (h + i) % 2);
    }
  }

  /** The channel's newest entry, after request k of it. */
  ghost predicate NewestKnows(list: seq<Entry>, c: Channel, last: Request, k: nat, period: int, h: int) {
    var i := FindChannel(list, Probe(c));
    i < |list| && StoredFor(list[i], last, period) && Learned(list[i], k, period, h)
  }

  /** The first request of a channel is stored as long as the list has room. */
  lemma {:induction false} FirstIsStored(cfg: Config, s: State, r: Request, c: Channel, period: int, h: int)
    requires SteadyRun(cfg, [r], c, period, h)
    requires s.size <= cfg.maxCycleList && FindChannel(s.list, r) == |s.list|
    ensures NewestKnows(Check(cfg, s, r).state.list, c, r, 0, period, h)
  {
    hide WorthChecking, NonZero;
    assert [r][0] == r;
    PushedSearch(NewEntry(cfg, r), s.list, Probe(c));
  }

  lemma {:induction false} CheckNewest(cfg: Config, s: State, r: Request, i: nat)
    requires WorthChecking(r) && i == FindChannel(s.list, r) < |s.list|
    ensures var v := CheckEntry(cfg, s.list[i], r);
            && Check(cfg, s, r).ret == v.ret
            && (v.store ==> Check(cfg, s, r).state.list != [] && Check(cfg, s, r).state.list[0] == Stored(v.entry, r))
  {
    hide CheckEntry, WorthChecking, SameChannel, FindChannel;
  }

  lemma {:induction false} OwnStep(cfg: Config, s: State, rs: seq<Request>, c: Channel, period: int, h: int)
    requires |rs| > 1 && SteadyRun(cfg, rs, c, period, h) && NewestKnows(s.list, c, rs[|rs| - 2], |rs| - 2, period, h)
    ensures NewestKnows(Check(cfg, s, rs[|rs| - 1]).state.list, c, rs[|rs| - 1], |rs| - 1, period, h)
    ensures |rs| > 5 ==> Check(cfg, s, rs[|rs| - 1]).ret == 0
  {
    hide Check, CheckEntry, WorthChecking, NonZero, AgreeOnHalf;
    var n := |rs| - 1;
    var r := rs[n];
    SameSearch(s.list, c, r);
    var i := FindChannel(s.list, r);
    CheckNewest(cfg, s, r, i);
    LearnsOne(cfg, s.list[i], rs[n - 1], r, n - 1, period, h);
    CheckKeepsStage(cfg, s.list[i], r);
    var list := Check(cfg, s, r).state.list;
    assert SameChannel(list[0], Probe(c));
    FoundFirst(list, 0, Probe(c));
  }

  /** A check of another channel changes at most its mark. */
  lemma {:induction false} OtherStep(cfg: Config, s: State, r: Request, c: Channel)
    requires !Asks(c, r) && FindChannel(s.list, Probe(c)) < |s.list| && StagesOk(s.list)
    ensures var after := Check(cfg, s, r).state.list;
            var k := FindChannel(after, Probe(c));
            k < |after| && after[k] == s.list[FindChannel(s.list, Probe(c))].(isOld := after[k].isOld)
  {
    hide CheckEntry, WorthChecking, FindChannel, StageOk;
    var i := FindChannel(s.list, r);
    if WorthChecking(r) {
      if i < |s.list| {
        MarkingKeepsSearch(s.list, i, c);
        CheckKeepsStage(cfg, s.list[i], r);
        PushedSearch(Stored(CheckEntry(cfg, s.list[i], r).entry, r), s.list[i := s.list[i].(isOld := true)], Probe(c));
      } else {
        PushedSearch(NewEntry(cfg, r), s.list, Probe(c));
      }
    }
  }

  /** A cleanup keeps it while it is not too old. */
  lemma {:induction false} CleanupKeepsNewest(cfg: Config, s: State, now: int, c: Channel)
    requires NewestFirst(s.list) && FindChannel(s.list, Probe(c)) < |s.list|
    requires now - s.list[FindChannel(s.list, Probe(c))].time <= KeepTime(cfg)
    ensures var after := Cleanup(cfg, s, now).list;
            var k := FindChannel(s.list, Probe(c));
            FindChannel(after, Probe(c)) == k < |after| && after[k] == s.list[k]
  {
    hide FindChannel;
    PrefixKeepsSearch(s.list, |Cleanup(cfg, s, now).list|, Probe(c));
  }

  /** No cleanup comes later than the keep time after the latest request of the channel. */
  ghost predicate InTime(cfg: Config, e: Event, last: Request) {
    e.Cleaning? ==> e.now - last.now <= KeepTime(cfg)
  }

  lemma {:induction false} KnowsStep(cfg: Config, s: State, e: Event, rs: seq<Request>, c: Channel, period: int, h: int)
    requires StagesOk(s.list) && rs != [] && NewestFirst(s.list) && InTime(cfg, e, rs[|rs| - 1])
    requires SteadyRun(cfg, rs + RequestIn(e, c), c, period, h)
    requires NewestKnows(s.list, c, rs[|rs| - 1], |rs| - 1, period, h)
    ensures StagesOk(Happens(cfg, s, e).list)
    ensures var more := rs + RequestIn(e, c);
            NewestKnows(Happens(cfg, s, e).list, c, more[|more| - 1], |more| - 1, period, h)
  {
    hide Check, Cleanup, SteadyRun, StageOk, NewestFirst, FindChannel;
    HappensStages(cfg, s, e);
    if e.Cleaning? {
      assert rs + RequestIn(e, c) == rs;
      CleanupKeepsNewest(cfg, s, e.now, c);
    } else if Asks(c, e.request) {
      OwnStep(cfg, s, rs + [e.request], c, period, h);
    } else {
      assert rs + RequestIn(e, c) == rs;
      OtherStep(cfg, s, e.request, c);
    }
  }

  lemma {:induction false} SteadyPrefix(cfg: Config, a: seq<Request>, b: seq<Request>, c: Channel, period: int, h: int)
    requires SteadyRun(cfg, a + b, c, period, h)
    ensures SteadyRun(cfg, a, c, period, h)
  {
    hide WorthChecking, NonZero, AgreeOnHalf, Asks;
    assert forall i :: 0 <= i < |a| ==> (a + b)[i] == a[i];
  }

  /** The latest request of the channel. */
  ghost function LastOf(first: Request, events: seq<Event>, c: Channel): Request {
    var rs := [first] + RequestsOf(events, c);
    rs[|rs| - 1]
  }

  /** Requests come in the order of their times, and each cleanup in time for the channel. */
  ghost predicate Orderly(cfg: Config, first: Request, events: seq<Event>, c: Channel) {
    && InOrder([Checking(first)] + events)
    && forall i :: 0 <= i < |events| ==> InTime(cfg, events[i], LastOf(first, events[..i], c))
  }

  lemma {:induction false} OrderlyPrefix(cfg: Config, first: Request, events: seq<Event>, n: nat, c: Channel)
    requires Orderly(cfg, first, events, c) && n <= |events|
    ensures Orderly(cfg, first, events[..n], c)
  {
    hide InTime, LastOf;
    var all := [Checking(first)] + events;
    assert forall i :: 0 <= i <= n ==> ([Checking(first)] + events[..n])[i] == all[i];
    forall i | 0 <= i < n ensures InTime(cfg, events[..n][i], LastOf(first, events[..n][..i], c)) {
      assert events[..n][..i] == events[..i] && events[..n][i] == events[i];
    }
  }

  lemma {:induction false} OrderlyAt(cfg: Config, first: Request, events: seq<Event>, i: nat, c: Channel)
    requires Orderly(cfg, first, events, c) && i < |events|
    ensures InTime(cfg, events[i], LastOf(first, events[..i], c))
  {
  }

  /** The latest time of a request. */
  ghost function Latest(since: int, events: seq<Event>): (now: int)
    ensures since <= now && NoneAfter(events, now)
    decreases |events|
  {
    if events == [] then since
    else
      var n := |events| - 1;
      var l := Latest(since, events[..n]);
      assert forall i :: 0 <= i < n ==> events[i] == events[..n][i];
      if events[n].Checking? && events[n].request.now > l then events[n].request.now else l
  }

  lemma {:induction false} OrderlyKeepsOrder(cfg: Config, s: State, first: Request, events: seq<Event>, c: Channel)
    requires NewestFirst(s.list) && NoneLater(s.list, first.now) && Orderly(cfg, first, events, c)
    ensures NewestFirst(After(cfg, s, events).list)
  {
    hide NewestFirst, NoneLater, InTime, LastOf;
    var all := [Checking(first)] + events;
    forall i | 0 <= i < |events| && events[i].Checking? ensures NoneLater(s.list, events[i].request.now) {
      assert all[0] == Checking(first) && all[i + 1] == events[i];
      StillNoneLater(s.list, first.now, events[i].request.now);
    }
    assert InOrder(events) by {
      assert forall i :: 0 <= i < |events| ==> all[i + 1] == events[i];
    }
    var now := Latest(first.now, events);
    StillNoneLater(s.list, first.now, now);
    RunKeepsOrder(cfg, s, events, now);
  }

  lemma {:induction false} BreaksOrChanges(cfg: Config, e: Entry, r: Request)
    requires r.cw != e.cw && 0 <= e.nextcyclecw < 2
    ensures Breaks(cfg, e, r) <==> !Changes(cfg, e.cw, r.cw, e.nextcyclecw)
  {
    hide Shared, SameBytes;
    SameBytesCounts(Half(e.cw, 1 - e.nextcyclecw), Half(r.cw, 1 - e.nextcyclecw));
    assert e.cw == e.cw[..8] + e.cw[8..] && r.cw == r.cw[..8] + r.cw[8..];
  }

  /** A remembered answer either brought the word or did not. */
  lemma {:induction false} SomeAnswer(cfg: Config, e: Entry, r: Request)
    ensures (exists k: nat :: FirstAnswer(e, r, k)) ==>
            || (!cfg.dropOld && exists k: nat :: FirstAnswer(e, r, k) && e.ring[k].cw == r.cw)
            || (exists k: nat :: FirstAnswer(e, r, k) && (cfg.dropOld || e.ring[k].cw != r.cw))
  {
    hide AnswersRequest;
  }

  /** A word for a learned channel, in time: it is answered 0 exactly if it goes on alternating,
      and any other word is refused or ignored, or let pass for a repeat or a fallback. */
  lemma {:induction false} KnownJudges(cfg: Config, s: State, rs: seq<Request>, r: Request, c: Channel, period: int, h: int)
    requires |rs| > 4 && NewestKnows(s.list, c, rs[|rs| - 1], |rs| - 1, period, h)
    requires Asks(c, r) && r.ecmlen == c.ecmlen && WorthChecking(r) && !(cfg.useCwcFromCe && HasCycleInfo(r))
    requires r.now < rs[|rs| - 1].now + 2 * period - 1
    ensures var ret := Check(cfg, s, r).ret;
            && (ret == 0 <==> Changes(cfg, rs[|rs| - 1].cw, r.cw, (h + |rs| - 1) % 2))
            && (ret != 0 ==> ret == 1 || ret == 2 || ret == 4 || ret == 5)
  {
    hide Check, CheckEntry, WorthChecking, NonZero, Half, Shared, SameBytes;
    SameSearch(s.list, c, r);
    var i := FindChannel(s.list, r);
    CheckNewest(cfg, s, r, i);
    var e := s.list[i];
    assert InTimeForNext(cfg, e, r);
    if r.cw == e.cw {
      SameWordAnswer(cfg, e, r);
    } else {
      OtherWordAnswer(cfg, e, r);
      InWindow(cfg, e, r);
      BreaksOrChanges(cfg, e, r);
      SomeAnswer(cfg, e, r);
    }
  }

  /** From the first request of a steady channel on, whatever other channels do in between. */
  lemma {:induction false} SteadyRunKnows(cfg: Config, s: State, first: Request, events: seq<Event>, c: Channel, period: int, h: int)
    requires StagesOk(s.list) && NewestKnows(s.list, c, first, 0, period, h)
    requires NewestFirst(s.list) && NoneLater(s.list, first.now) && Orderly(cfg, first, events, c)
    requires SteadyRun(cfg, [first] + RequestsOf(events, c), c, period, h)
    ensures StagesOk(After(cfg, s, events).list)
    ensures var rs := [first] + RequestsOf(events, c);
            NewestKnows(After(cfg, s, events).list, c, rs[|rs| - 1], |rs| - 1, period, h)
    decreases |events|
  {
    hide Happens, SteadyRun, NewestKnows, StagesOk, RequestIn, Orderly, NewestFirst, NoneLater;
    if events == [] {
      assert [first] + RequestsOf(events, c) == [first];
    } else {
      var n := |events| - 1;
      var rs := [first] + RequestsOf(events[..n], c);
      assert rs + RequestIn(events[n], c) == [first] + RequestsOf(events, c);
      SteadyPrefix(cfg, rs, RequestIn(events[n], c), c, period, h);
      OrderlyPrefix(cfg, first, events, n, c);
      SteadyRunKnows(cfg, s, first, events[..n], c, period, h);
      OrderlyKeepsOrder(cfg, s, first, events[..n], c);
      OrderlyAt(cfg, first, events, n, c);
      KnowsStep(cfg, After(cfg, s, events[..n]), events[n], rs, c, period, h);
    }
  }

  /** The other main result: a channel whose word changes at a steady pace, with alternating
      halves, is learned within five requests, whatever other channels do in between and as
      long as no cleanup finds its newest entry too old, and from the sixth on every word of
      it is answered "cycle OK". */
  lemma {:induction false} SteadyChannelsAreLearned(cfg: Config, s: State, first: Request, events: seq<Event>, r: Request, c: Channel,
                                 period: int, h: int)
    requires StagesOk(s.list) && s.size <= cfg.maxCycleList && FindChannel(s.list, first) == |s.list|
    requires NewestFirst(s.list) && NoneLater(s.list, first.now) && Orderly(cfg, first, events, c)
    requires SteadyRun(cfg, [first] + RequestsOf(events, c) + [r], c, period, h)
    requires |RequestsOf(events, c)| >= 4
    ensures Check(cfg, After(cfg, Check(cfg, s, first).state, events), r).ret == 0
  {
    hide Check, SteadyRun, NewestKnows, StagesOk, NewestFirst, NoneLater, Orderly;
    var rs := [first] + RequestsOf(events, c);
    SteadyPrefix(cfg, rs, [r], c, period, h);
    SteadyPrefix(cfg, [first], RequestsOf(events, c), c, period, h);
    FirstIsStored(cfg, s, first, c, period, h);
    HappensStages(cfg, s, Checking(first));
    HappensIsCheck(cfg, s, first);
    CheckOrdered(cfg, s, first);
    SteadyRunKnows(cfg, Check(cfg, s, first).state, first, events, c, period, h);
    OwnStep(cfg, After(cfg, Check(cfg, s, first).state, events), rs + [r], c, period, h);
  }

  /** What learning is for: once a steady channel is learned, a word that comes in time is
      answered "cycle OK" exactly if it goes on alternating, and no other word is learned from,
      announced as new or left unchecked. */
  lemma {:induction false} LearnedChannelJudges(cfg: Config, s: State, first: Request, events: seq<Event>, r: Request, c: Channel,
                                                period: int, h: int)
    requires StagesOk(s.list) && s.size <= cfg.maxCycleList && FindChannel(s.list, first) == |s.list|
    requires NewestFirst(s.list) && NoneLater(s.list, first.now) && Orderly(cfg, first, events, c)
    requires SteadyRun(cfg, [first] + RequestsOf(events, c), c, period, h) && |RequestsOf(events, c)| >= 4
    requires Asks(c, r) && r.ecmlen == c.ecmlen && WorthChecking(r) && !(cfg.useCwcFromCe && HasCycleInfo(r))
    requires r.now < LastOf(first, events, c).now + 2 * period - 1
    ensures var ret := Check(cfg, After(cfg, Check(cfg, s, first).state, events), r).ret;
            && (ret == 0 <==> Changes(cfg, LastOf(first, events, c).cw, r.cw, (h + |RequestsOf(events, c)|) % 2))
            && (ret != 0 ==> ret == 1 || ret == 2 || ret == 4 || ret == 5)
  {
    hide Check, SteadyRun, NewestKnows, StagesOk, NewestFirst, NoneLater, Orderly, Changes, WorthChecking;
    var rs := [first] + RequestsOf(events, c);
    SteadyPrefix(cfg, [first], RequestsOf(events, c), c, period, h);
    FirstIsStored(cfg, s, first, c, period, h);
    HappensStages(cfg, s, Checking(first));
    HappensIsCheck(cfg, s, first);
    CheckOrdered(cfg, s, first);
    SteadyRunKnows(cfg, Check(cfg, s, first).state, first, events, c, period, h);
    KnownJudges(cfg, After(cfg, Check(cfg, s, first).state, events), rs, r, c, period, h);
  }

  // ---------------------------------------------------------------- accounting

  ghost predicate Counted(s: State) {
    s.size == Current(s.list)
  }

  lemma {:induction false} CurrentSplit(a: seq<Entry>, b: seq<Entry>)
    ensures Current(a + b) == Current(a) + Current(b)
  {
    if a == [] {
      assert a + b == b;
    } else {
      CurrentSplit(a[1..], b);
      assert (a + b)[1..] == a[1..] + b;
    }
  }

  lemma {:induction false} CurrentMarked(list: seq<Entry>, i: nat)
    requires i < |list|
    ensures Current(list[i := list[i].(isOld := true)]) == Current(list) - (if list[i].isOld then 0 else 1)
  {
    var after := list[i := list[i].(isOld := true)];
    if i > 0 {
      CurrentMarked(list[1..], i - 1);
      assert after[1..] == list[1..][i - 1 := list[1..][i - 1].(isOld := true)];
    } else {
      assert after[1..] == list[1..];
    }
  }

  /** A new node, and a node that is pushed, are not marked old. */
  lemma {:induction false} CurrentPushed(cfg: Config, list: seq<Entry>, e: Entry, r: Request)
    ensures Current([Stored(e, r)] + list) == 1 + Current(list)
    ensures Current([NewEntry(cfg, r)] + list) == 1 + Current(list)
  {
    assert ([Stored(e, r)] + list)[1..] == list && ([NewEntry(cfg, r)] + list)[1..] == list;
  }

  lemma {:induction false} CheckCounted(cfg: Config, s: State, r: Request)
    requires Counted(s)
    ensures Counted(Check(cfg, s, r).state)
  {
    hide CheckEntry, WorthChecking, Current, Stored, NewEntry, FindChannel;
    var i := FindChannel(s.list, r);
    if i < |s.list| {
      CurrentMarked(s.list, i);
      CurrentPushed(cfg, s.list[i := s.list[i].(isOld := true)], CheckEntry(cfg, s.list[i], r).entry, r);
    } else {
      CurrentPushed(cfg, s.list, NewEntry(cfg, r), r);
    }
  }

  lemma {:induction false} HappensCounted(cfg: Config, s: State, e: Event)
    requires Counted(s)
    ensures Counted(Happens(cfg, s, e))
  {
    hide Check, Current, FirstExpired;
    match e
    case Cleaning(now) =>
      var i := FirstExpired(s.list, now, KeepTime(cfg));
      CurrentSplit(s.list[..i], s.list[i..]);
      assert s.list == s.list[..i] + s.list[i..];
    case Checking(r) => CheckCounted(cfg, s, r);
  }

  /** cw_cc_list_size is always the number of nodes not marked old. */
  lemma {:induction false} SizeAlwaysCounts(cfg: Config, events: seq<Event>)
    ensures Counted(After(cfg, START, events))
    decreases |events|
  {
    hide Happens;
    if events == [] {
    } else {
      SizeAlwaysCounts(cfg, events[..|events| - 1]);
      HappensCounted(cfg, After(cfg, START, events[..|events| - 1]), events[|events| - 1]);
    }
  }

  // ---------------------------------------------------------------- the ring of answers

  function SlotOf(i: nat): Slot {
    i % RING
  }

  /** The ring holds the last 15 answers of the chain the entry ends. */
  ghost predicate RingHolds(e: Entry, chain: seq<Request>) {
    && chain != []
    && e.histEntry == SlotOf(|chain| - 1)
    && forall i :: 0 <= i < |chain| && |chain| - RING <= i ==> e.ring[SlotOf(i)] == AnswerOf(chain[i])
  }

  lemma {:induction false} StoringKeepsRing(e: Entry, chain: seq<Request>, r: Request)
    requires RingHolds(e, chain)
    ensures RingHolds(Stored(e, r), chain + [r])
  {
  }

  /** The chains of requests behind the nodes, kept in step with the list. */
  function Chains(cfg: Config, s: State, chains: seq<seq<Request>>, e: Event): seq<seq<Request>>
    requires |chains| == |s.list|
  {
    match e
    case Cleaning(now) => chains[..|Cleanup(cfg, s, now).list|]
    case Checking(r) =>
      if |Check(cfg, s, r).state.list| == |s.list| then chains
      else
        var i := FindChannel(s.list, r);
        [(if i < |chains| then chains[i] else []) + [r]] + chains
  }

  ghost predicate RingsHold(list: seq<Entry>, chains: seq<seq<Request>>) {
    |chains| == |list| && forall k :: 0 <= k < |list| ==> RingHolds(list[k], chains[k])
  }

  lemma {:induction false} StepLengths(cfg: Config, s: State, e: Event)
    ensures var after := Happens(cfg, s, e).list;
            if e.Checking? then |after| == |s.list| || |after| == |s.list| + 1 else |after| <= |s.list|
  {
  }

  function AllChains(cfg: Config, events: seq<Event>): (r: seq<seq<Request>>)
    ensures |r| == |After(cfg, START, events).list|
    decreases |events|
  {
    if events == [] then []
    else
      var n := |events| - 1;
      var s := After(cfg, START, events[..n]);
      StepLengths(cfg, s, events[n]);
      Chains(cfg, s, AllChains(cfg, events[..n]), events[n])
  }

  lemma {:induction false} FirstRing(cfg: Config, r: Request)
    ensures RingHolds(NewEntry(cfg, r), [r])
  {
  }

  lemma {:induction false} SameRing(e: Entry, f: Entry, chain: seq<Request>)
    requires RingHolds(e, chain) && f.ring == e.ring && f.histEntry == e.histEntry
    ensures RingHolds(f, chain)
  {
  }

  lemma {:induction false} MarkedSameRing(list: seq<Entry>, chains: seq<seq<Request>>, i: nat)
    requires i < |list| && RingsHold(list, chains)
    ensures RingsHold(list[i := list[i].(isOld := true)], chains)
  {
  }

  lemma {:induction false} StepRings(cfg: Config, s: State, chains: seq<seq<Request>>, e: Event)
    requires StagesOk(s.list) && RingsHold(s.list, chains)
    ensures RingsHold(Happens(cfg, s, e).list, Chains(cfg, s, chains, e))
  {
    hide CheckEntry, WorthChecking, RingHolds, Stored, NewEntry, StageOk;
    match e
    case Cleaning(now) =>
    case Checking(r) =>
      var i := FindChannel(s.list, r);
      if i < |s.list| {
        CheckKeepsStage(cfg, s.list[i], r);
        var v := CheckEntry(cfg, s.list[i], r);
        SameRing(s.list[i], v.entry, chains[i]);
        MarkedSameRing(s.list, chains, i);
        StoringKeepsRing(v.entry, chains[i], r);
      } else {
        FirstRing(cfg, r);
        assert [] + [r] == [r];
      }
  }

  /** In every reachable list, every node remembers the last 15 answers of its chain. */
  lemma {:induction false} RingsAlwaysHold(cfg: Config, events: seq<Event>)
    ensures RingsHold(After(cfg, START, events).list, AllChains(cfg, events))
    decreases |events|
  {
    hide Happens, RingHolds, StageOk, Chains;
    if events == [] {
    } else {
      var n := |events| - 1;
      RingsAlwaysHold(cfg, events[..n]);
      StagesAlwaysOk(cfg, events[..n]);
      StepRings(cfg, After(cfg, START, events[..n]), AllChains(cfg, events[..n]), events[n]);
    }
  }

  // ---------------------------------------------------------------- the program

  function Flag(next: int): int {
    if next == 0 then 0 else 1
  }

  /** How many bytes of the half that must change have stayed. */
  method CountCwPart(e: Entry, cw: Word) returns (n: nat)
    ensures n == SameBytes(Half(e.cw, 1 - Flag(e.nextcyclecw)), Half(cw, 1 - Flag(e.nextcyclecw)))
  {
    var eo := if e.nextcyclecw != 0 then 0 else 8;
    ghost var a, b := Half(e.cw, 1 - Flag(e.nextcyclecw)), Half(cw, 1 - Flag(e.nextcyclecw));
    var i := 0;
    n := 0;
    while i < 8
      invariant 0 <= i <= 8 && n == SameBytes(a[..i], b[..i])
    {
      assert a[..i + 1][..i] == a[..i] && b[..i + 1][..i] == b[..i];
      assert a[i] == e.cw[i + eo] && b[i] == cw[i + eo];
      if e.cw[i + eo] == cw[i + eo] {
        n := n + 1;
      }
      i := i + 1;
    }
    assert a[..8] == a && b[..8] == b;
  }

  /** The number of the half that was due to stay and did, or -1. */
  method HalfThatStays(e: Entry, cw: Word) returns (cycleok: int)
    ensures cycleok == if 0 <= e.nextcyclecw < 2 && Half(e.cw, e.nextcyclecw) == Half(cw, e.nextcyclecw)
                       then e.nextcyclecw else -1
  {
    cycleok := -1;
    if e.nextcyclecw != 0 && e.nextcyclecw != 1 {
      return;
    }
    var i := 0;
    while i < 8
      invariant 0 <= i <= 8
      invariant Half(e.cw, e.nextcyclecw)[..i] == Half(cw, e.nextcyclecw)[..i]
      invariant i > 0 ==> cycleok == e.nextcyclecw
    {
      var k := i + 8 * e.nextcyclecw;
      assert Half(e.cw, e.nextcyclecw)[i] == e.cw[k] && Half(cw, e.nextcyclecw)[i] == cw[k];
      if e.cw[k] != cw[k] {
        cycleok := -1;
        return;
      }
      cycleok := e.nextcyclecw;
      i := i + 1;
    }
    assert Half(e.cw, e.nextcyclecw)[..8] == Half(e.cw, e.nextcyclecw);
    assert Half(cw, e.nextcyclecw)[..8] == Half(cw, e.nextcyclecw);
  }

  method SearchRing(ring: Ring, r: Request) returns (k: nat)
    ensures k == FindRemembered(ring, r)
  {
    hide Remembered;
    k := 0;
    while k < RING
      invariant k <= RING
      invariant FindRemembered(ring, r) == k + FindRemembered(ring[k..], r)
    {
      if Remembered(ring[k], r) {
        return;
      }
      assert ring[k..][1..] == ring[k + 1..];
      k := k + 1;
    }
  }

  method CompareHalves(e: Entry, r: Request) returns (cwc: Entry)
    ensures cwc == e.(nextcyclecw := LearnNext(e, r))
  {
    cwc := e;
    var n, m := Memcmp(Half(e.cw, 0), Half(r.cw, 0)), Memcmp(Half(e.cw, 1), Half(r.cw, 1));
    if n == 0 {
      cwc := cwc.(nextcyclecw := 1);
    }
    if m == 0 {
      cwc := cwc.(nextcyclecw := 0);
    }
    if n == m || !NonZero(r.cw) {
      cwc := cwc.(nextcyclecw := 2);
    }
  }

  /** The learning stages, as assignments to the copy. */
  method RunStages(cfg: Config, e: Entry, r: Request, ret0: int) returns (cwc: Entry, upd: bool, ret: int)
    ensures Verdict(ret, upd, cwc, None, None) == Learn(cfg, e, r, ret0)
  {
    hide NonZero, Memcmp, Half;
    cwc, upd, ret := e, true, ret0;
    if r.now > cwc.locktime {
      var diff := ToInt16(r.now - cwc.time - cwc.cycletime);
      if cwc.stage <= 0 {
        if -2 < diff < 2 {
          cwc := cwc.(cycletime := r.now - cwc.time);
          cwc := cwc.(stage := cwc.stage + 1);
        }
      } else if cwc.stage == 1 {
        if -2 < diff < 2 {
          cwc := cwc.(cycletime := r.now - cwc.time);
          cwc := cwc.(stage := cwc.stage + 1);
        } else {
          cwc := cwc.(stage := cwc.stage - 1);
        }
      } else if cwc.stage == 2 {
        if -2 < diff < 2 && cwc.cycletime > 0 {
          cwc := cwc.(cycletime := r.now - cwc.time);
          cwc := CompareHalves(cwc, r);
          cwc := cwc.(stage := if cwc.nextcyclecw < 2 then 3 else 1);
        } else {
          cwc := cwc.(stage := 1);
        }
      } else if cwc.stage == 4 {
        cwc := CompareHalves(cwc, r);
        if cwc.nextcyclecw < 2 {
          cwc := cwc.(stage := 3);
        } else if cwc.stage4Repeat > 12 {
          cwc := cwc.(stage := 1);
        }
        cwc := cwc.(stage4Repeat := ToInt8(cwc.stage4Repeat + 1));
        ret := if ret == 3 then 3 else 7;
      }
      assert cwc == Advance(e, r);
      hide Advance;
      if cwc.stage == 3 {
        cwc := cwc.(locktime := 0, stage4Repeat := 0);
      } else {
        if cwc.stage < 3 {
          cwc := cwc.(cycletime := r.now - cwc.time);
        }
        cwc := cwc.(locktime := r.now + cfg.fallbackTimeout(cwc.caid) / 1000);
      }
    } else if cwc.stage != 3 {
      upd := false;
    }
    if cwc.stage == 3 {
      cwc := cwc.(dyncycletime := if r.now - cwc.time > cwc.cycletime then r.now - cwc.time - cwc.cycletime else 0);
    }
  }

  /** What happens to the copy of a channel's entry. */
  method CheckCopy(cfg: Config, e: Entry, r: Request)
    returns (cwc: Entry, upd: bool, ret: int, next: Option<int>, cycletime: Option<int>)
    ensures Verdict(ret, upd, cwc, next, cycletime) == CheckEntry(cfg, e, r)
  {
    hide Learn, FindRemembered, SameBytes, Half;
    cwc, upd, ret, next, cycletime := e, true, 6, None, None;
    if cfg.useCwcFromCe && r.cycletime > 0 && r.nextCwCycle < 2 {
      cwc := cwc.(stage := 3, cycletime := r.cycletime, nextcyclecw := r.nextCwCycle);
      ret := 8;
      if cwc.cw == r.cw {
        ret, upd := SameWordRet(cfg, cwc, r), false;
      }
      return;
    }
    if cwc.stage == 3 && cwc.nextcyclecw < 2 && r.now - cwc.time < cwc.cycletime * 2 - cwc.dyncycletime - 1 {
      if cwc.cw == r.cw {
        ret, upd := SameWordRet(cfg, cwc, r), false;
        return;
      }
      var cycleok := HalfThatStays(cwc, r.cw);
      if cycleok >= 0 && cfg.sensitive != 0 {
        var same := CountCwPart(cwc, r.cw);
        if same >= cfg.sensitive {
          cycleok := -2;
        }
      }
      assert cycleok >= 0 <==> CycleOk(cfg, e, r);
      if cycleok < 0 {
        var k := SearchRing(cwc.ring, r);
        if k < RING {
          ret, upd := if !cfg.dropOld && cwc.ring[k].cw == r.cw then 4 else 2, false;
          return;
        }
        ret, upd := 1, false;
        if cfg.allowBadFromFfb && r.fallback {
          ret, upd, cwc := 5, true, cwc.(stage := 4, nextcyclecw := 2);
        }
        return;
      }
      ret := 0;
      cwc := cwc.(nextcyclecw := 1 - cycleok);
      next := Some(1 - cycleok);
      if cwc.cycletime < 128 && !(cwc.caid == 0x0100 && cwc.provid == 0x6A) {
        cycletime := Some(cwc.cycletime);
      }
    } else if cwc.stage == 3 {
      cwc := cwc.(stage := if cfg.keepCycleTime > 0 && r.now - cwc.time < cfg.keepCycleTime * 60 then 4 else 2);
      cwc := cwc.(cw := seq(16, _ => 0), nextcyclecw := 2);
      ret := 3;
    }
    cwc, upd, ret := RunStages(cfg, cwc, r, ret);
  }

  class CwCycleList {
    const cfg: Config
    var list: seq<Entry>
    var size: int
    var lastCleaning: int

    ghost function View(): State
      reads this
    {
      State(list, size, lastCleaning)
    }

    constructor (cfg: Config)
      ensures this.cfg == cfg && View() == START
    {
      this.cfg := cfg;
      list, size, lastCleaning := [], 0, 0;
    }

    method FindNode(r: Request) returns (i: nat)
      ensures i == FindChannel(list, r)
    {
      hide SameChannel;
      i := 0;
      while i < |list|
        invariant i <= |list| && FindChannel(list, r) == i + FindChannel(list[i..], r)
      {
        if SameChannel(list[i], r) {
          return;
        }
        assert list[i..][1..] == list[i + 1..];
        i := i + 1;
      }
    }

    method CheckCwCycle(r: Request) returns (ret: int, next: Option<int>, cycletime: Option<int>)
      modifies this`list, this`size
      ensures Result(View(), ret, next, cycletime) == Check(cfg, old(View()), r)
    {
      hide CheckEntry, WorthChecking, FindChannel, SameChannel;
      ret, next, cycletime := 6, None, None;
      if !WorthChecking(r) {
        ret := 3;
        return;
      }
      var i := FindNode(r);
      if i == |list| {
        if size <= cfg.maxCycleList {
          if r.cycletime > 0 && r.nextCwCycle < 2 {
            ret := 8;
          }
          list := [NewEntry(cfg, r)] + list;
          size := size + 1;
        }
        return;
      }
      var cwc := list[i];
      if !list[i].isOld {
        size := size - 1;
      }
      list := list[i := list[i].(isOld := true)];
      var upd;
      cwc, upd, ret, next, cycletime := CheckCopy(cfg, cwc, r);
      if upd {
        var h := cwc.histEntry + 1;
        if h > 14 {
          h := 0;
        }
        cwc := cwc.(isOld := false, cw := r.cw, time := r.now, histEntry := h, ecmlen := r.ecmlen,
          ring := cwc.ring[h := Answer(r.ecmd5, r.cspHash, r.cw)]);
        list := [cwc] + list;
        size := size + 1;
      }
    }

    /** Cuts the list at the first node kept too long and counts off what it drops. */
    method CleanupCwCycle(now: int)
      modifies this
      ensures View() == Cleanup(cfg, old(View()), now)
    {
      if lastCleaning + 120 > now {
        return;
      }
      lastCleaning := now;
      var kct := cfg.keepCycleTime * 60 + 30;
      var i := 0;
      while i < |list| && now - list[i].time <= kct
        invariant i <= |list| && FirstExpired(list, now, kct) == i + FirstExpired(list[i..], now, kct)
      {
        assert list[i..][1..] == list[i + 1..];
        i := i + 1;
      }
      assert i == FirstExpired(old(list), now, KeepTime(cfg));
      var dropped := list[i..];
      list := list[..i];
      while dropped != []
        invariant list == old(list)[..i] && lastCleaning == now
        invariant size - Current(dropped) == old(size) - Current(old(list)[i..])
        decreases |dropped|
      {
        if !dropped[0].isOld {
          size := size - 1;
        }
        dropped := dropped[1..];
      }
    }
  }
}
