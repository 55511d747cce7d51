/**
 Which cards of the share list survive an update, said of the lists before and after alone:
 of cards that are the same, the first live listed one goes on as the first offered one, the
 second as the second, and so on. What clients are told follows from that, message by message.
 */
module ShareSurvival {
  import opened Bytes
  import opened Cards
  import opened Forwarding
  import opened ShareUpdate

  // ---------------------------------------------------------------- cards of one class

  /** A received card does not time out, any other one does after its time. */
  predicate Alive(c: Card, now: int) {
    c.cardType.RemoteCard? || now <= c.timeout
  }

  /** The cards of the list that are the same as d, in order. */
  function Same(list: seq<Card>, d: Card): (r: seq<Card>)
    ensures |r| <= |list|
    decreases |list|
  {
    if list == [] then []
    else
      var n := |list| - 1;
      Same(list[..n], d) + (if SameCard(d, list[n]) then [list[n]] else [])
  }

  /** Those of them that are alive. */
  function LiveOf(list: seq<Card>, d: Card, now: int): (r: seq<Card>)
    ensures |r| <= |list|
    decreases |list|
  {
    if list == [] then []
    else
      var n := |list| - 1;
      LiveOf(list[..n], d, now) + (if SameCard(d, list[n]) && Alive(list[n], now) then [list[n]] else [])
  }

  lemma {:induction false} SameIsSymmetric(a: Card, b: Card)
    ensures SameCard(a, b) <==> SameCard(b, a)
  {
  }

  lemma {:induction false} SameIsTransitive(a: Card, b: Card, c: Card)
    requires SameCard(a, b)
    ensures SameCard(a, c) <==> SameCard(b, c)
  {
  }

  lemma {:induction false} LiveOfConcat(a: seq<Card>, b: seq<Card>, d: Card, now: int)
    ensures LiveOf(a + b, d, now) == LiveOf(a, d, now) + LiveOf(b, d, now)
    decreases |b|
  {
    hide SameCard, Alive;
    if b == [] {
      assert a + b == a;
    } else {
      var n := |b| - 1;
      LiveOfConcat(a, b[..n], d, now);
      assert (a + b)[..|a + b| - 1] == a + b[..n] && (a + b)[|a + b| - 1] == b[n];
      var last := if SameCard(d, b[n]) && Alive(b[n], now) then [b[n]] else [];
      assert LiveOf(a + b, d, now) == (LiveOf(a, d, now) + LiveOf(b[..n], d, now)) + last;
    }
  }

  lemma {:induction false} LiveOfOne(c: Card, d: Card, now: int)
    ensures LiveOf([c], d, now) == if SameCard(d, c) && Alive(c, now) then [c] else []
  {
    hide SameCard, Alive;
    assert [c][..0] == [];
  }

  lemma {:induction false} NoneLive(list: seq<Card>, d: Card, now: int)
    requires forall i :: 0 <= i < |list| ==> !(SameCard(d, list[i]) && Alive(list[i], now))
    ensures LiveOf(list, d, now) == []
    decreases |list|
  {
    hide SameCard, Alive;
    if list == [] {
    } else {
      NoneLive(list[..|list| - 1], d, now);
    }
  }

  /** Same cards have the same class. */
  lemma {:induction false} LiveOfClass(list: seq<Card>, c: Card, d: Card, now: int)
    requires SameCard(c, d)
    ensures LiveOf(list, c, now) == LiveOf(list, d, now)
    decreases |list|
  {
    hide SameCard, Alive;
    if list == [] {
    } else {
      var n := |list| - 1;
      LiveOfClass(list[..n], c, d, now);
      SameIsTransitive(c, d, list[n]);
    }
  }

  // ---------------------------------------------------------------- one card taken over

  lemma {:induction false} AliveIs(c: Card, now: int)
    ensures Alive(c, now) <==> !TimedOut(c, now)
  {
  }

  /** A card that is taken off the list leaves its class by one, and the others alone. */
  lemma {:induction false} LiveWithout(list: seq<Card>, i: nat, d: Card, now: int)
    requires i < |list|
    ensures var live := LiveOf(list[..i] + list[i + 1..], d, now);
            && (!SameCard(d, list[i]) ==> live == LiveOf(list, d, now))
            && (SameCard(d, list[i]) && Alive(list[i], now) && LiveOf(list[..i], d, now) == [] ==>
                  LiveOf(list, d, now) == [list[i]] + live)
  {
    hide SameCard, Alive;
    assert list == (list[..i] + [list[i]]) + list[i + 1..];
    LiveOfConcat(list[..i] + [list[i]], list[i + 1..], d, now);
    LiveOfConcat(list[..i], [list[i]], d, now);
    LiveOfConcat(list[..i], list[i + 1..], d, now);
    LiveOfOne(list[i], d, now);
  }

  /** What one offered card takes. */
  lemma {:induction false} TakeOverLive(p: Compared, c: Card, now: int, d: Card)
    ensures var m := TakeOver(p, c, now);
            var live := LiveOf(p.left, d, now);
            && (!SameCard(d, c) ==> LiveOf(m.left, d, now) == live)
            && (SameCard(d, c) ==> LiveOf(m.left, d, now) == (if live == [] then [] else live[1..]))
            && (SameCard(d, c) ==> m.entries[|p.entries|].before == if live == [] then None else Some(live[0]))
  {
    hide SameCard, Alive, TimedOut;
    var i := FindReported(p.left, c, now);
    forall k | 0 <= k < |p.left| ensures Alive(p.left[k], now) <==> !TimedOut(p.left[k], now) {
      AliveIs(p.left[k], now);
    }
    NoneLive(p.left[..i], c, now);
    if SameCard(d, c) {
      LiveOfClass(p.left[..i], d, c, now);
    }
    if i < |p.left| {
      SameIsSymmetric(d, c);
      SameIsSymmetric(d, p.left[i]);
      SameIsTransitive(c, p.left[i], d);
      LiveWithout(p.left, i, d, now);
    } else {
      assert p.left[..i] == p.left;
    }
  }

  // ---------------------------------------------------------------- the whole comparison

  lemma {:induction false} CompareLive(was: seq<Card>, offered: seq<Card>, now: int, d: Card)
    ensures var live := LiveOf(was, d, now);
            var n := |Same(offered, d)|;
            LiveOf(Compare(was, offered, now).left, d, now) == if n <= |live| then live[n..] else []
    decreases |offered|
  {
    hide SameCard, TakeOver, LiveOf;
    if offered == [] {
      assert LiveOf(was, d, now)[0..] == LiveOf(was, d, now);
    } else {
      var k := |offered| - 1;
      CompareLive(was, offered[..k], now, d);
      TakeOverLive(Compare(was, offered[..k], now), offered[k], now, d);
    }
  }

  lemma {:induction false} SameAsItself(c: Card)
    ensures SameCard(c, c)
  {
  }

  /** The j-th offered card of a class takes over from the j-th live listed one. */
  lemma {:induction false} CompareTakes(was: seq<Card>, offered: seq<Card>, now: int, k: nat)
    requires k < |offered|
    ensures var live := LiveOf(was, offered[k], now);
            var j := |Same(offered[..k], offered[k])|;
            Compare(was, offered, now).entries[k].before == if j < |live| then Some(live[j]) else None
    decreases |offered|
  {
    hide SameCard, TakeOver, LiveOf, Same;
    var n := |offered| - 1;
    if k < n {
      CompareTakes(was, offered[..n], now, k);
      assert offered[..n][..k] == offered[..k];
    } else {
      var c := offered[n];
      CompareLive(was, offered[..n], now, c);
      assert SameCard(c, c) by { SameAsItself(c); }
      TakeOverLive(Compare(was, offered[..n], now), c, now, c);
    }
  }

  // ---------------------------------------------------------------- who survives

  /** An id that was not handed out before the update, but is after it. */
  ghost predicate NewId(id: u32, before: nat, after: nat) {
    !IdIssued(id, before) && IdIssued(id, after)
  }

  /** The new list, entry by entry. */
  lemma {:induction false} EntriesListed(cfg: ShareConfig, s: Share, offered: seq<Card>, now: int)
    requires Unnumbered(offered) && Unwrapped(Update(cfg, s, offered, now).count)
    ensures var m := Compare(s.reported, offered, now);
            var after := Update(cfg, s, offered, now);
            && s.count <= after.count && |after.reported| == |offered|
            && (forall k :: 0 <= k < |offered| ==> EntryOk(m.entries[k], offered[k], s.reported))
            && (forall k :: 0 <= k < |offered| ==> ListedAs(after.reported[k], m.entries[k], s.count, after.count))
            && NewOnesUnnumbered(m.entries)
  {
    hide Compare, Announce, SameCard;
    var m := Compare(s.reported, offered, now);
    CompareEntries(s.reported, offered, now);
    assert forall k :: 0 <= k < |offered| ==> EntryOk(m.entries[k], offered[k], s.reported);
    AnnounceNumbers(cfg, m.entries, Withdraw(cfg, s.clients, m.left), s.count);
  }

  /** The main result. Card k of the new list is the card offered; if there are more live listed
      cards the same as it than earlier offered ones, it has the id and the time of the next of
      those, and else no id, or a new one. */
  lemma {:induction false} SurvivorKeepsId(cfg: ShareConfig, s: Share, offered: seq<Card>, now: int, k: nat)
    requires IdsOk(s.reported, s.count) && Unnumbered(offered) && k < |offered|
    requires Unwrapped(Update(cfg, s, offered, now).count)
    ensures var after := Update(cfg, s, offered, now);
            var live := LiveOf(s.reported, offered[k], now);
            var j := |Same(offered[..k], offered[k])|;
            && |after.reported| == |offered|
            && (if j < |live| then after.reported[k] == offered[k].(id := live[j].id, timeout := live[j].timeout)
                else after.reported[k].(id := 0) == offered[k] &&
                     (after.reported[k].id == 0 || NewId(after.reported[k].id, s.count, after.count)))
  {
    hide Compare, Announce, LiveOf, Same, SameCard;
    var m := Compare(s.reported, offered, now);
    CompareTakes(s.reported, offered, now, k);
    EntriesListed(cfg, s, offered, now);
    assert EntryOk(m.entries[k], offered[k], s.reported);
  }

  lemma {:induction false} NoneSame(list: seq<Card>, d: Card)
    requires forall i :: 0 <= i < |list| ==> !SameCard(d, list[i])
    ensures Same(list, d) == []
    decreases |list|
  {
    hide SameCard;
    if list == [] {
    } else {
      NoneSame(list[..|list| - 1], d);
    }
  }

  /** The first live listed card the same as an offered one gives it its id, unless an earlier
      offered card is the same. */
  lemma {:induction false} FirstKeepsId(cfg: ShareConfig, s: Share, offered: seq<Card>, now: int, k: nat, i: nat)
    requires IdsOk(s.reported, s.count) && Unnumbered(offered) && Unwrapped(Update(cfg, s, offered, now).count)
    requires k < |offered| && forall x :: 0 <= x < k ==> !SameCard(offered[k], offered[x])
    requires i < |s.reported| && SameCard(offered[k], s.reported[i]) && Alive(s.reported[i], now)
    requires forall x :: 0 <= x < i ==> !(SameCard(offered[k], s.reported[x]) && Alive(s.reported[x], now))
    ensures Update(cfg, s, offered, now).reported[k].id == s.reported[i].id
  {
    hide Update, SameCard, Alive;
    SurvivorKeepsId(cfg, s, offered, now, k);
    NoneSame(offered[..k], offered[k]);
    var list := s.reported;
    assert list == (list[..i] + [list[i]]) + list[i + 1..];
    NoneLive(list[..i], offered[k], now);
    LiveOfConcat(list[..i] + [list[i]], list[i + 1..], offered[k], now);
    LiveOfConcat(list[..i], [list[i]], offered[k], now);
    LiveOfOne(list[i], offered[k], now);
  }

  // ---------------------------------------------------------------- class by class

  lemma {:induction false} SameCounts(a: seq<Card>, b: seq<Card>, d: Card)
    requires |a| == |b| && forall i :: 0 <= i < |a| ==> SameCard(a[i], b[i])
    ensures |Same(a, d)| == |Same(b, d)|
    decreases |a|
  {
    hide SameCard;
    if a == [] {
    } else {
      var n := |a| - 1;
      SameCounts(a[..n], b[..n], d);
      SameIsTransitive(a[n], b[n], d);
      SameIsSymmetric(a[n], d);
      SameIsSymmetric(b[n], d);
    }
  }

  /** Two lists of same cards have their classes at the same places. */
  lemma {:induction false} SamePlaces(a: seq<Card>, b: seq<Card>, d: Card, j: nat) returns (k: nat)
    requires |a| == |b| && forall i :: 0 <= i < |a| ==> SameCard(a[i], b[i])
    requires j < |Same(b, d)|
    ensures |Same(a, d)| == |Same(b, d)| && k < |a| && SameCard(d, a[k])
    ensures |Same(a[..k], d)| == j && Same(b, d)[j] == b[k]
    decreases |a|
  {
    hide SameCard;
    var n := |a| - 1;
    SameCounts(a, b, d);
    SameCounts(a[..n], b[..n], d);
    SameIsTransitive(a[n], b[n], d);
    SameIsSymmetric(a[n], d);
    SameIsSymmetric(b[n], d);
    if j < |Same(b[..n], d)| {
      k := SamePlaces(a[..n], b[..n], d, j);
      assert a[..n][..k] == a[..k];
    } else {
      k := n;
    }
  }

  /** Same is the same for all cards of a class. */
  lemma {:induction false} SameOfClass(list: seq<Card>, c: Card, d: Card)
    requires SameCard(c, d)
    ensures Same(list, c) == Same(list, d)
    decreases |list|
  {
    hide SameCard;
    if list == [] {
    } else {
      SameOfClass(list[..|list| - 1], c, d);
      SameIsTransitive(c, d, list[|list| - 1]);
    }
  }

  lemma {:induction false} SameButNumbers(a: Card, b: Card)
    requires b.(id := a.id, timeout := a.timeout) == a
    ensures SameCard(a, b)
  {
  }

  lemma {:induction false} ListedSame(cfg: ShareConfig, s: Share, offered: seq<Card>, now: int)
    requires IdsOk(s.reported, s.count) && Unnumbered(offered)
    requires Unwrapped(Update(cfg, s, offered, now).count)
    ensures var after := Update(cfg, s, offered, now);
            |after.reported| == |offered| && forall k :: 0 <= k < |offered| ==> SameCard(offered[k], after.reported[k])
  {
    hide Update, LiveOf, Same, SameCard, IdsOk;
    var after := Update(cfg, s, offered, now);
    EntriesListed(cfg, s, offered, now);
    forall k | 0 <= k < |offered| ensures SameCard(offered[k], after.reported[k]) {
      SurvivorKeepsId(cfg, s, offered, now, k);
      SameButNumbers(offered[k], after.reported[k]);
    }
  }

  /** Of each class, as many ids survive as there are both live listed and offered cards, in
      order; the cards beyond that have none, or new ones. */
  lemma {:induction false} ClassKeepsIds(cfg: ShareConfig, s: Share, offered: seq<Card>, now: int, d: Card)
    requires IdsOk(s.reported, s.count) && Unnumbered(offered)
    requires Unwrapped(Update(cfg, s, offered, now).count)
    ensures var after := Update(cfg, s, offered, now);
            var live, next := LiveOf(s.reported, d, now), Same(after.reported, d);
            && |next| == |Same(offered, d)|
            && (forall j :: 0 <= j < |next| && j < |live| ==> next[j].id == live[j].id)
            && (forall j :: |live| <= j < |next| ==> next[j].id == 0 || NewId(next[j].id, s.count, after.count))
  {
    hide Update, LiveOf, Same, SameCard, NewId, IdsOk;
    var after := Update(cfg, s, offered, now);
    var live, next := LiveOf(s.reported, d, now), Same(after.reported, d);
    ListedSame(cfg, s, offered, now);
    SameCounts(offered, after.reported, d);
    forall j | 0 <= j < |next|
      ensures if j < |live| then next[j].id == live[j].id else next[j].id == 0 || NewId(next[j].id, s.count, after.count)
    {
      var k := SamePlaces(offered, after.reported, d, j);
      SameIsSymmetric(d, offered[k]);
      SameOfClass(offered[..k], offered[k], d);
      LiveOfClass(s.reported, offered[k], d, now);
      SurvivorKeepsId(cfg, s, offered, now, k);
    }
  }

  // ---------------------------------------------------------------- what clients are told

  ghost predicate Lists(list: seq<Card>, id: u32) {
    exists i :: 0 <= i < |list| && list[i].id == id
  }

  /** A withdrawal for each card of the former list whose id is gone, if the client was meant to
      know of it. */
  ghost function Withdrawn(cfg: ShareConfig, p: Peer, former: seq<Card>, list: seq<Card>): seq<Msg>
    decreases |former|
  {
    if former == [] then []
    else
      var n := |former| - 1;
      Withdrawn(cfg, p, former[..n], list) +
      (if former[n].id != 0 && ValidForClient(cfg, p, former[n]) && !Lists(list, former[n].id) then [Removed(former[n].id)] else [])
  }

  /** An announcement for each card of the new list whose id is new, if the client accepts it. */
  ghost function News(cfg: ShareConfig, p: Peer, list: seq<Card>, count: nat): seq<Msg>
    decreases |list|
  {
    if list == [] then []
    else
      var n := |list| - 1;
      News(cfg, p, list[..n], count) +
      (if list[n].id != 0 && !IdIssued(list[n].id, count) && Accepts(cfg, p, list[n]) then [NewCard(list[n])] else [])
  }

  lemma {:induction false} WithdrawnConcat(cfg: ShareConfig, p: Peer, a: seq<Card>, b: seq<Card>, list: seq<Card>)
    ensures Withdrawn(cfg, p, a + b, list) == Withdrawn(cfg, p, a, list) + Withdrawn(cfg, p, b, list)
    decreases |b|
  {
    hide ValidForClient, Lists;
    if b == [] {
      assert a + b == a;
    } else {
      var n := |b| - 1;
      WithdrawnConcat(cfg, p, a, b[..n], list);
      assert (a + b)[..|a + b| - 1] == a + b[..n] && (a + b)[|a + b| - 1] == b[n];
    }
  }

  lemma {:induction false} WithdrawnOne(cfg: ShareConfig, p: Peer, c: Card, list: seq<Card>)
    ensures Withdrawn(cfg, p, [c], list) ==
            if c.id != 0 && ValidForClient(cfg, p, c) && !Lists(list, c.id) then [Removed(c.id)] else []
  {
    hide ValidForClient, Lists;
    assert [c][..0] == [];
  }

  /** A card whose id goes on, or that has none, may be left out. */
  lemma {:induction false} WithdrawnWithout(cfg: ShareConfig, p: Peer, former: seq<Card>, i: nat, list: seq<Card>)
    requires i < |former| && (former[i].id == 0 || Lists(list, former[i].id))
    ensures Withdrawn(cfg, p, former[..i] + former[i + 1..], list) == Withdrawn(cfg, p, former, list)
  {
    hide ValidForClient, Lists;
    var a, one, b := former[..i], [former[i]], former[i + 1..];
    assert former == (a + one) + b;
    assert Withdrawn(cfg, p, one, list) == [] by { WithdrawnOne(cfg, p, former[i], list); }
    hide Withdrawn;
    WithdrawnConcat(cfg, p, a + one, b, list);
    WithdrawnConcat(cfg, p, a, one, list);
    WithdrawnConcat(cfg, p, a, b, list);
  }

  /** Each entry that goes on has an id of the list, or none. */
  ghost predicate EntriesIn(entries: seq<Entry>, list: seq<Card>) {
    forall k :: 0 <= k < |entries| && entries[k].before.Some? ==> entries[k].before.value.id == 0 || Lists(list, entries[k].before.value.id)
  }

  lemma {:induction false} TakeOverWithdrawn(cfg: ShareConfig, p: Peer, q: Compared, c: Card, now: int, list: seq<Card>)
    requires var e := TakeOver(q, c, now).entries[|q.entries|];
             e.before.Some? ==> e.before.value.id == 0 || Lists(list, e.before.value.id)
    ensures Withdrawn(cfg, p, TakeOver(q, c, now).left, list) == Withdrawn(cfg, p, q.left, list)
  {
    hide SameCard, TimedOut, Withdrawn, Lists;
    var i := FindReported(q.left, c, now);
    if i < |q.left| {
      WithdrawnWithout(cfg, p, q.left, i, list);
    }
  }

  /** Taking over changes nothing about what is to be withdrawn. */
  lemma {:induction false} CompareWithdrawn(cfg: ShareConfig, p: Peer, was: seq<Card>, offered: seq<Card>, now: int, list: seq<Card>)
    requires EntriesIn(Compare(was, offered, now).entries, list)
    ensures Withdrawn(cfg, p, Compare(was, offered, now).left, list) == Withdrawn(cfg, p, was, list)
    decreases |offered|
  {
    hide TakeOver, Withdrawn, Lists;
    if offered == [] {
    } else {
      var n := |offered| - 1;
      var q, m := Compare(was, offered[..n], now), Compare(was, offered, now);
      assert forall k :: 0 <= k < n ==> m.entries[k] == q.entries[k];
      CompareWithdrawn(cfg, p, was, offered[..n], now, list);
      TakeOverWithdrawn(cfg, p, q, offered[n], now, list);
    }
  }

  /** Where no id is listed any more, these are the withdrawals of the program. */
  lemma {:induction false} WithdrawnAll(cfg: ShareConfig, p: Peer, left: seq<Card>, list: seq<Card>)
    requires forall i :: 0 <= i < |left| && left[i].id != 0 ==> !Lists(list, left[i].id)
    ensures Withdrawn(cfg, p, left, list) == Withdrawals(cfg, p, left)
    decreases |left|
  {
    hide ValidForClient, Lists;
    if left == [] {
    } else {
      WithdrawnAll(cfg, p, left[..|left| - 1], list);
    }
  }

  /** A new card goes to exactly the connected clients that accept it, with an id they do not
      know. */
  lemma {:induction false} NewestIsNews(cfg: ShareConfig, clients: seq<Client>, card: Card, count: nat, j: nat, from: nat)
    requires Unwrapped(SendToAll(cfg, clients, card, count).count) && card.id == 0 && j < |clients| && from <= count
    ensures var r := SendToAll(cfg, clients, card, count);
            var news := r.card.id != 0 && !IdIssued(r.card.id, from) && Accepts(cfg, clients[j].peer, r.card);
            r.clients[j] == if clients[j].connected && news then clients[j].(outbox := clients[j].outbox + [NewCard(r.card)]) else clients[j]
  {
    hide Accepts, SendToAll;
    SendToAllEffect(cfg, clients, card, count);
    AcceptsIgnoresId(cfg, clients[j].peer, card, SendToAll(cfg, clients, card, count).card);
  }

  lemma {:induction false} AnnouncementsAre(cfg: ShareConfig, entries: seq<Entry>, clients: seq<Client>, count: nat, j: nat, from: nat)
    requires Unwrapped(Announce(cfg, entries, clients, count).count) && NewOnesUnnumbered(entries) && j < |clients|
    requires from <= count
    requires forall k :: 0 <= k < |entries| && entries[k].before.Some? ==> entries[k].card.id == 0 || IdIssued(entries[k].card.id, from)
    ensures var a := Announce(cfg, entries, clients, count);
            a.clients[j] == if clients[j].connected
                            then clients[j].(outbox := clients[j].outbox + News(cfg, clients[j].peer, a.reported, from))
                            else clients[j]
    decreases |entries|
  {
    hide Accepts, SendToAll, IdIssued;
    if entries == [] {
      assert clients[j].outbox + [] == clients[j].outbox;
    } else {
      var n := |entries| - 1;
      var e := entries[n];
      AnnounceCounts(cfg, entries, clients, count);
      AnnouncementsAre(cfg, entries[..n], clients, count, j, from);
      var p, a := Announce(cfg, entries[..n], clients, count), Announce(cfg, entries, clients, count);
      assert a.reported[..n] == p.reported;
      AnnounceGrows(cfg, entries[..n], clients, count);
      if e.before.None? {
        NewestIsNews(cfg, p.clients, e.card, p.count, j, from);
      }
      var sent := clients[j].outbox;
      var news := News(cfg, clients[j].peer, p.reported, from);
      assert sent + (news + []) == sent + news;
      assert sent + (news + [NewCard(a.reported[n])]) == (sent + news) + [NewCard(a.reported[n])];
    }
  }

  /** Ids of what goes on are listed, ids of what is left over are not. */
  lemma {:induction false} EntriesGoOn(cfg: ShareConfig, s: Share, offered: seq<Card>, now: int)
    requires IdsOk(s.reported, s.count) && Unnumbered(offered)
    requires Unwrapped(Update(cfg, s, offered, now).count)
    ensures var m := Compare(s.reported, offered, now);
            var after := Update(cfg, s, offered, now);
            && EntriesIn(m.entries, after.reported)
            && (forall k :: 0 <= k < |m.entries| && m.entries[k].before.Some? ==> m.entries[k].card.id == 0 || IdIssued(m.entries[k].card.id, s.count))
            && (forall i :: 0 <= i < |m.left| && m.left[i].id != 0 ==> !Lists(after.reported, m.left[i].id))
  {
    hide Compare, Update, SameCard;
    var m := Compare(s.reported, offered, now);
    var after := Update(cfg, s, offered, now);
    EntriesListed(cfg, s, offered, now);
    CompareKeepsIds(s.reported, offered, now, s.count);
    EntryIdsDiffer(m.left, m.entries, s.count);
    forall k | 0 <= k < |m.entries| && m.entries[k].before.Some?
      ensures m.entries[k].before.value.id == 0 || Lists(after.reported, m.entries[k].before.value.id)
    {
      assert EntryOk(m.entries[k], offered[k], s.reported);
      assert ListedAs(after.reported[k], m.entries[k], s.count, after.count);
      assert after.reported[k].id == m.entries[k].before.value.id;
    }
    var all := Ids(m.left) + Ids(EntryCards(m.entries));
    forall i | 0 <= i < |m.left| && m.left[i].id != 0 ensures !Lists(after.reported, m.left[i].id) {
      assert all[i] == m.left[i].id;
      forall k | 0 <= k < |after.reported| ensures after.reported[k].id != m.left[i].id {
        LeftIdsDiffer(m.left, m.entries, k, s.count);
        assert m.left[i] in m.left;
        assert ListedAs(after.reported[k], m.entries[k], s.count, after.count);
      }
    }
  }

  /** The other main result: exactly what one update tells each client, in order, read off the list
      before and the list after. A connected client is told to drop what it was meant to know
      of and whose id is not listed any more, and then of each card with a new id that it
      accepts; a card that keeps its id is not mentioned. */
  lemma {:induction false} UpdateTells(cfg: ShareConfig, s: Share, offered: seq<Card>, now: int, j: nat)
    requires IdsOk(s.reported, s.count) && Unnumbered(offered) && j < |s.clients|
    requires Unwrapped(Update(cfg, s, offered, now).count)
    ensures var after := Update(cfg, s, offered, now);
            var c := s.clients[j];
            after.clients[j] ==
            if c.connected
            then c.(outbox := c.outbox + (Withdrawn(cfg, c.peer, s.reported, after.reported) + News(cfg, c.peer, after.reported, s.count)))
            else c
  {
    hide Compare, Announce, SameCard, Withdrawn, News, Lists, IdIssued, Withdrawals, Ids, IdsOk;
    var m := Compare(s.reported, offered, now);
    var after := Update(cfg, s, offered, now);
    var c := s.clients[j];
    EntriesListed(cfg, s, offered, now);
    EntriesGoOn(cfg, s, offered, now);
    CompareWithdrawn(cfg, c.peer, s.reported, offered, now, after.reported);
    WithdrawnAll(cfg, c.peer, m.left, after.reported);
    var w := Withdraw(cfg, s.clients, m.left);
    AnnouncementsAre(cfg, m.entries, w, s.count, j, s.count);
    var gone, news := Withdrawals(cfg, c.peer, m.left), News(cfg, c.peer, after.reported, s.count);
    assert c.outbox + (gone + news) == (c.outbox + gone) + news;
  }

  lemma {:induction false} WithdrawnIds(cfg: ShareConfig, p: Peer, former: seq<Card>, list: seq<Card>, m: Msg)
    requires m in Withdrawn(cfg, p, former, list)
    ensures m.Removed? && !Lists(list, m.id)
    decreases |former|
  {
    hide ValidForClient, Lists;
    var n := |former| - 1;
    if m in Withdrawn(cfg, p, former[..n], list) {
      WithdrawnIds(cfg, p, former[..n], list, m);
    }
  }

  lemma {:induction false} NewsIds(cfg: ShareConfig, p: Peer, list: seq<Card>, count: nat, m: Msg)
    requires m in News(cfg, p, list, count)
    ensures m.NewCard? && !IdIssued(m.card.id, count) && m.card.id != 0 && Accepts(cfg, p, m.card)
    decreases |list|
  {
    hide Accepts, IdIssued;
    var n := |list| - 1;
    if m in News(cfg, p, list[..n], count) {
      NewsIds(cfg, p, list[..n], count, m);
    }
  }

  /** So a card that survives is neither withdrawn from anyone nor announced to anyone. */
  lemma {:induction false} SurvivorUntold(cfg: ShareConfig, s: Share, offered: seq<Card>, now: int, o: Card, j: nat)
    requires IdsOk(s.reported, s.count) && Unnumbered(offered) && j < |s.clients|
    requires Unwrapped(Update(cfg, s, offered, now).count)
    requires o in s.reported && o.id != 0 && Lists(Update(cfg, s, offered, now).reported, o.id)
    ensures var after := Update(cfg, s, offered, now);
            exists told :: after.clients[j].outbox == s.clients[j].outbox + told &&
                           (forall m :: m in told ==> if m.Removed? then m.id != o.id else m.card.id != o.id)
  {
    hide Update, Withdrawn, News, Lists;
    UpdateTells(cfg, s, offered, now, j);
    var after := Update(cfg, s, offered, now);
    var c := s.clients[j];
    var gone, news := Withdrawn(cfg, c.peer, s.reported, after.reported), News(cfg, c.peer, after.reported, s.count);
    var i :| 0 <= i < |s.reported| && s.reported[i] == o;
    assert Ids(s.reported)[i] == o.id;
    assert IdIssued(o.id, s.count);
    var told := if c.connected then gone + news else [];
    assert after.clients[j].outbox == c.outbox + told by { assert c.outbox + [] == c.outbox; }
    forall m | m in told ensures if m.Removed? then m.id != o.id else m.card.id != o.id {
      if m in gone {
        WithdrawnIds(cfg, c.peer, s.reported, after.reported, m);
      } else {
        NewsIds(cfg, c.peer, after.reported, s.count, m);
      }
    }
  }
}
