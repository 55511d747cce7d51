/**
 How the cycle checker learns: what one more request does to the stage of a channel, and what
 every channel that is known has been seen to do.
 */
module CwLearning {
  import opened Bytes
  import opened CwCycle

  /** The request brings cycle information that is used in the place of learning. */
  predicate Told(cfg: Config, r: Request) {
    cfg.useCwcFromCe && r.cycletime > 0 && r.nextCwCycle < 2
  }

  /** Two intervals differ by a second at most, on sixteen bits. */
  predicate Near(a: int, b: int) {
    (a - b + 1) % 0x1_0000 <= 2
  }

  /** The word is not zero, and exactly one of its halves is new. */
  ghost predicate Turned(was: Word, word: Word) {
    && (exists i :: 0 <= i < 16 && word[i] != 0)
    && (was[..8] == word[..8]) != (was[8..] == word[8..])
  }

  // ---------------------------------------------------------------- the first request of a channel

  /** A request that is not checked changes nothing, and is answered 3. The first one of a channel
      is answered 6, or 8 where it brings cycle information and the list has room. If it has, it
      gets an entry in front, known by that information if that is used, and else at the bottom
      of learning; the entry is locked, and no other one changes. */
  lemma {:induction false} FirstRequest(cfg: Config, s: State, r: Request)
    requires forall e :: e in s.list ==> !SameChannel(e, r)
    ensures var v := Check(cfg, s, r);
            if !WorthChecking(r) then v.state == s && v.ret == 3
            else
              && v.ret == (if s.size <= cfg.maxCycleList && r.cycletime > 0 && r.nextCwCycle < 2 then 8 else 6)
              && (s.size > cfg.maxCycleList ==> v.state == s)
              && (s.size <= cfg.maxCycleList ==>
                    |v.state.list| == |s.list| + 1 && v.state.list[1..] == s.list && v.state.size == s.size + 1 &&
                    (var e := v.state.list[0];
                     && SameChannel(e, r) && e.cw == r.cw && e.time == r.now && !e.isOld
                     && e.locktime == r.now + cfg.fallbackTimeout(r.caid) / 1000
                     && (e.stage, e.cycletime, e.nextcyclecw) ==
                        (if Told(cfg, r) then (3, r.cycletime as int, r.nextCwCycle as int) else (0, 99, 2))))
  {
    hide WorthChecking;
  }

  // ---------------------------------------------------------------- one request

  lemma {:induction false} SteadyIsNear(e: Entry, r: Request)
    ensures Steady(e, r) <==> Near(r.now - e.time, e.cycletime)
  {
  }

  lemma {:induction false} TurnedIsLearned(e: Entry, r: Request)
    requires e.nextcyclecw == 2
    ensures LearnNext(e, r) == if !Turned(e.cw, r.cw) then 2 else if e.cw[..8] == r.cw[..8] then 1 else 0
  {
    MemcmpZero(Half(e.cw, 0), Half(r.cw, 0));
    MemcmpZero(Half(e.cw, 1), Half(r.cw, 1));
    if i :| 0 <= i < 16 && r.cw[i] != 0 {
      assert NonZero(r.cw);
    }
  }

  /** The stage after a request, once the lock has expired. Below stage 3 it goes up by one where
      the interval is near the last one, and down by one where it is not; from stage 2 up means
      that the word has turned, and else down. Stage 4 waits for the word to turn, but not for
      ever. */
  lemma {:induction false} StageMoves(cfg: Config, e: Entry, r: Request)
    requires StageOk(e) && e.stage != 3 && r.now > e.locktime && !Told(cfg, r)
    ensures var near := Near(r.now - e.time, e.cycletime);
            var after := CheckEntry(cfg, e, r).entry;
            && (after.stage == 3 <==> Turned(e.cw, r.cw) && (e.stage == 4 || (e.stage == 2 && near && e.cycletime > 0)))
            && (after.stage == 4 <==> e.stage == 4 && !Turned(e.cw, r.cw) && e.stage4Repeat <= 12)
            && (after.stage == 2 <==> e.stage == 1 && near)
            && (after.stage == 0 <==> e.stage < 2 && !near)
    ensures CheckEntry(cfg, e, r).store && CheckEntry(cfg, e, r).ret == if e.stage == 4 then 7 else 6
  {
    SteadyIsNear(e, r);
    TurnedIsLearned(e, r);
  }

  /** What goes with the stage: the interval is what the next one is compared with, until the
      channel is known; then the interval that taught it is the cycle, the half that is new
      stays next, nothing is locked, and a word that comes late is remembered to be. */
  lemma {:induction false} StageTakesNote(cfg: Config, e: Entry, r: Request)
    requires StageOk(e) && e.stage != 3 && r.now > e.locktime && !Told(cfg, r)
    ensures var after := CheckEntry(cfg, e, r).entry;
            var interval := r.now - e.time;
            && after.cycletime == (if e.stage == 4 && after.stage > 1 then e.cycletime else interval)
            && (after.stage == 3 ==> after.nextcyclecw == if e.cw[..8] == r.cw[..8] then 1 else 0)
            && after.locktime == (if after.stage == 3 then 0 else r.now + cfg.fallbackTimeout(e.caid) / 1000)
            && after.stage4Repeat == (if after.stage == 3 then 0
                                      else if e.stage == 4 then ToInt8(e.stage4Repeat + 1) else e.stage4Repeat)
            && after.dyncycletime == (if after.stage < 3 || after.stage == 4 then e.dyncycletime
                                      else if interval > after.cycletime then interval - after.cycletime else 0)
  {
    SteadyIsNear(e, r);
    TurnedIsLearned(e, r);
  }

  /** While the lock holds nothing is learned and nothing is stored. */
  lemma {:induction false} LockHolds(cfg: Config, e: Entry, r: Request)
    requires StageOk(e) && e.stage != 3 && r.now <= e.locktime && !Told(cfg, r)
    ensures CheckEntry(cfg, e, r) == Verdict(6, false, e, None, None)
  {
  }

  /** With cycle information in the request: another word is answered 8 and stored, and the channel
      is known by that information from then on; the same word is answered as ever, by the cycle
      time the request brings. */
  lemma {:induction false} ToldDecides(cfg: Config, e: Entry, r: Request)
    requires Told(cfg, r)
    ensures var v := CheckEntry(cfg, e, r);
            && v.entry == e.(stage := 3, cycletime := r.cycletime, nextcyclecw := r.nextCwCycle)
            && v.next == None && v.cycletime == None
            && (v.store <==> r.cw != e.cw)
            && (v.ret == 8 <==> r.cw != e.cw)
            && (v.ret == 2 <==> r.cw == e.cw && cfg.dropOld && r.now >= e.time + r.cycletime as int - e.dyncycletime)
            && v.ret in {2, 4, 8}
  {
  }

  /** A word that comes too late for a known channel is answered 3, and the channel is given up:
      for stage 4 where entries are kept and this one is not too old, else for stage 1. */
  lemma {:induction false} LateGivesUp(cfg: Config, e: Entry, r: Request)
    requires StageOk(e) && e.stage == 3 && r.now >= e.time + 2 * e.cycletime - e.dyncycletime - 1
    requires !Told(cfg, r) && (exists i :: 0 <= i < 8 && r.cw[i] != 0) && (exists i :: 8 <= i < 16 && r.cw[i] != 0)
    ensures var v := CheckEntry(cfg, e, r);
            var waits := cfg.keepCycleTime > 0 && r.now - e.time < cfg.keepCycleTime * 60;
            && v.ret == 3
            && (v.store <==> r.now > e.locktime)
            && (v.store ==> v.entry.nextcyclecw == 2 && v.entry.stage == if waits && e.stage4Repeat <= 12 then 4 else 1)
  {
    var f := FallBack(cfg, e, r);
    assert f.cw[..8] != r.cw[..8] by {
      var i :| 0 <= i < 8 && r.cw[i] != 0;
      assert f.cw[..8][i] == 0 && r.cw[..8][i] == r.cw[i];
    }
    assert f.cw[8..] != r.cw[8..] by {
      var i :| 8 <= i < 16 && r.cw[i] != 0;
      assert f.cw[8..][i - 8] == 0 && r.cw[8..][i - 8] == r.cw[i];
    }
    SteadyIsNear(f, r);
    TurnedIsLearned(f, r);
  }

  // ---------------------------------------------------------------- what a known channel has shown

  /** The time between two stored requests of a chain; a new channel starts with 99 seconds. */
  function Gap(chain: seq<Request>, i: nat): int
    requires i < |chain|
  {
    if i == 0 then 99 else chain[i].now - chain[i - 1].now
  }

  ghost predicate SteadyAt(chain: seq<Request>, i: nat) {
    0 < i < |chain| && Near(Gap(chain, i), Gap(chain, i - 1))
  }

  /** Twice in a row the interval was near the one before, and then the word turned. */
  ghost predicate TaughtAt(chain: seq<Request>, k: nat) {
    1 < k < |chain| && SteadyAt(chain, k - 1) && SteadyAt(chain, k) && Turned(chain[k - 1].cw, chain[k].cw)
  }

  /** What the node knows it has been taught by its chain. */
  ghost predicate Justified(e: Entry, chain: seq<Request>) {
    && chain != []
    && e.time == chain[|chain| - 1].now && e.cw == chain[|chain| - 1].cw
    && (e.stage < 3 ==> e.cycletime == Gap(chain, |chain| - 1))
    && (e.stage == 2 ==> SteadyAt(chain, |chain| - 1))
    && (e.stage >= 3 ==> exists k: nat :: TaughtAt(chain, k))
    && 0 <= e.stage4Repeat <= 14
    && (e.stage == 4 ==> e.stage4Repeat <= 13)
    && (e.stage == 3 ==> e.stage4Repeat == 0)
  }

  lemma {:induction false} TaughtStays(chain: seq<Request>, k: nat, r: Request)
    requires TaughtAt(chain, k)
    ensures TaughtAt(chain + [r], k)
  {
    var longer := chain + [r];
    assert longer[k] == chain[k] && longer[k - 1] == chain[k - 1] && longer[k - 2] == chain[k - 2];
    assert k > 2 ==> longer[k - 3] == chain[k - 3];
  }

  lemma {:induction false} SteadyStays(chain: seq<Request>, i: nat, r: Request)
    requires SteadyAt(chain, i)
    ensures SteadyAt(chain + [r], i)
  {
    var longer := chain + [r];
    assert longer[i] == chain[i] && longer[i - 1] == chain[i - 1];
    assert i > 1 ==> longer[i - 2] == chain[i - 2];
  }

  lemma {:induction false} NearIsSteady(chain: seq<Request>, i: nat)
    requires 0 < i < |chain|
    ensures SteadyAt(chain, i) <==> Near(Gap(chain, i), Gap(chain, i - 1))
  {
  }

  lemma {:induction false} NowTaught(chain: seq<Request>, k: nat)
    requires 0 < k < |chain| && SteadyAt(chain, k - 1) && SteadyAt(chain, k) && Turned(chain[k - 1].cw, chain[k].cw)
    ensures TaughtAt(chain, k)
  {
  }

  /** One more stored request of a channel that is not known. */
  lemma {:induction false} LearnsJustly(cfg: Config, e: Entry, chain: seq<Request>, r: Request)
    requires StageOk(e) && Justified(e, chain) && e.stage != 3 && !Told(cfg, r) && CheckEntry(cfg, e, r).store
    ensures Justified(Stored(CheckEntry(cfg, e, r).entry, r), chain + [r])
  {
    hide CheckEntry, SteadyAt, TaughtAt, Near, Turned;
    if r.now <= e.locktime {
      LockHolds(cfg, e, r);
    }
    StageMoves(cfg, e, r);
    StageTakesNote(cfg, e, r);
    CheckKeepsStage(cfg, e, r);
    var longer := chain + [r];
    var n := |chain|;
    assert longer[n - 1] == chain[n - 1] && (n > 1 ==> longer[n - 2] == chain[n - 2]);
    assert Gap(longer, n) == r.now - e.time && Gap(longer, n - 1) == Gap(chain, n - 1);
    var near := Near(r.now - e.time, e.cycletime);
    assert e.stage < 3 && near ==> SteadyAt(longer, n) by { NearIsSteady(longer, n); }
    if e.stage == 4 {
      var k: nat :| TaughtAt(chain, k);
      TaughtStays(chain, k, r);
    }
    if e.stage == 2 && near && Turned(e.cw, r.cw) {
      SteadyStays(chain, n - 1, r);
      NowTaught(longer, n);
    }
  }

  lemma {:induction false} LearnRange(e: Entry, r: Request)
    requires e.nextcyclecw == 2
    ensures 0 <= LearnNext(e, r) <= 2
  {
    LearnNextRange(e, r);
  }

  /** One more stored request of a known channel. */
  lemma {:induction false} KnownJustly(cfg: Config, e: Entry, chain: seq<Request>, r: Request)
    requires StageOk(e) && Justified(e, chain) && e.stage == 3 && !Told(cfg, r) && CheckEntry(cfg, e, r).store
    ensures Justified(Stored(CheckEntry(cfg, e, r).entry, r), chain + [r])
  {
    hide SteadyAt, TaughtAt, LearnNext, CycleOk, Steady, FindRemembered;
    var k: nat :| TaughtAt(chain, k);
    TaughtStays(chain, k, r);
    var longer := chain + [r];
    assert longer[|chain|] == r && longer[|chain| - 1] == chain[|chain| - 1];
    assert Gap(longer, |chain|) == r.now - e.time;
    LearnRange(FallBack(cfg, e, r), r);
  }

  // ---------------------------------------------------------------- over runs

  ghost predicate AllJustified(list: seq<Entry>, chains: seq<seq<Request>>) {
    |chains| == |list| && forall k :: 0 <= k < |list| ==> Justified(list[k], chains[k])
  }

  lemma {:induction false} FirstIsJustified(cfg: Config, r: Request)
    requires !Told(cfg, r)
    ensures Justified(NewEntry(cfg, r), [r])
  {
    assert Gap([r], 0) == 99;
  }

  lemma {:induction false} MarkedJustified(list: seq<Entry>, chains: seq<seq<Request>>, i: nat)
    requires i < |list| && AllJustified(list, chains)
    ensures AllJustified(list[i := list[i].(isOld := true)], chains)
  {
    hide SteadyAt, TaughtAt;
  }

  lemma {:induction false} CheckJustified(cfg: Config, s: State, chains: seq<seq<Request>>, r: Request)
    requires StagesOk(s.list) && AllJustified(s.list, chains) && !Told(cfg, r)
    ensures AllJustified(Check(cfg, s, r).state.list, Chains(cfg, s, chains, Checking(r)))
  {
    hide CheckEntry, WorthChecking, Justified, Stored, NewEntry, StageOk, Told;
    var i := FindChannel(s.list, r);
    if i < |s.list| {
      assert s.list[i] in s.list;
      MarkedJustified(s.list, chains, i);
      if CheckEntry(cfg, s.list[i], r).store {
        if s.list[i].stage == 3 {
          KnownJustly(cfg, s.list[i], chains[i], r);
        } else {
          LearnsJustly(cfg, s.list[i], chains[i], r);
        }
      }
    } else {
      FirstIsJustified(cfg, r);
      assert [] + [r] == [r];
    }
  }

  ghost predicate NoneTold(cfg: Config, events: seq<Event>) {
    forall i :: 0 <= i < |events| && events[i].Checking? ==> !Told(cfg, events[i].request)
  }

  lemma {:induction false} StepJustified(cfg: Config, s: State, chains: seq<seq<Request>>, e: Event)
    requires StagesOk(s.list) && AllJustified(s.list, chains) && (e.Checking? ==> !Told(cfg, e.request))
    ensures AllJustified(Happens(cfg, s, e).list, Chains(cfg, s, chains, e))
  {
    hide Check, Justified, StageOk, Told;
    match e
    case Checking(r) => CheckJustified(cfg, s, chains, r);
    case Cleaning(now) =>
  }

  /** The main result: in every reachable list, where no request brings cycle information that is
      used, whatever channels are known, or were before they were given up, were taught by three
      requests stored in a row, each about as long after the one before as that one was, the last
      of them with exactly one half of its word new. And what a channel compares the next interval
      with is its last one. */
  lemma {:induction false} KnownWereTaught(cfg: Config, events: seq<Event>)
    requires NoneTold(cfg, events)
    ensures AllJustified(After(cfg, START, events).list, AllChains(cfg, events))
    decreases |events|
  {
    hide Happens, Justified, StageOk, Chains, Told, Check;
    if events == [] {
    } else {
      var n := |events| - 1;
      assert forall i :: 0 <= i < n ==> events[..n][i] == events[i];
      KnownWereTaught(cfg, events[..n]);
      StagesAlwaysOk(cfg, events[..n]);
      StepJustified(cfg, After(cfg, START, events[..n]), AllChains(cfg, events[..n]), events[n]);
    }
  }
}
