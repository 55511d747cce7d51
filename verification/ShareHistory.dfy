/**
 Whole runs of the share list, from the empty list the program starts with: share ids are
 never used for a second card, and a client that connects somewhere in the run is in step
 from then on.
 */
module ShareHistory {
  import opened Bytes
  import opened Cards
  import opened Forwarding
  import opened ShareUpdate
  import opened ShareSurvival

  function Empty(): Share {
    Share([], 0, [])
  }

  // ---------------------------------------------------------------- every card ever shown

  ghost function Listed(list: seq<Card>): iset<Card> {
    iset c | c in list
  }

  /** The cards announced to some client, connected or gone. */
  ghost function Announced(clients: seq<Client>): iset<Card> {
    iset c | exists j :: 0 <= j < |clients| && NewCard(c) in clients[j].outbox
  }

  ghost function Seen(s: Share): iset<Card> {
    Listed(s.reported) + Announced(s.clients)
  }

  /** The cards listed or announced at any time of a run. */
  ghost function History(cfg: ShareConfig, events: seq<Event>): iset<Card>
    decreases |events|
  {
    (if events == [] then iset{} else History(cfg, events[..|events| - 1])) + Seen(After(cfg, Empty(), events))
  }

  /** Only ids handed out are in use, and no two different cards share one. */
  ghost predicate OneCardPerId(cards: iset<Card>, count: nat) {
    && (forall c :: c in cards ==> c.id == 0 || IdIssued(c.id, count))
    && (forall a, b :: a in cards && b in cards && a.id == b.id && a.id != 0 ==> SameCard(a, b))
  }

  lemma {:induction false} SameCardTransitive(a: Card, b: Card, c: Card)
    requires SameCard(a, b) && SameCard(b, c)
    ensures SameCard(a, c) && SameCard(b, a)
  {
  }

  lemma {:induction false} SameCardReflexive(c: Card)
    ensures SameCard(c, c)
  {
  }

  /** A card may be added with the next id, or with the id of the same card. */
  lemma {:induction false} OneCardMore(cards: iset<Card>, c: Card, count: nat)
    requires OneCardPerId(cards, count)
    requires c.id == 0 || c.id == FIRST_ID + count || exists b :: b in cards && b.id == c.id && SameCard(c, b)
    ensures OneCardPerId(cards + iset{c}, count + 1)
    ensures c.id != FIRST_ID + count ==> OneCardPerId(cards + iset{c}, count)
  {
    hide SameCard;
    SameCardReflexive(c);
    if c.id != 0 && c.id != FIRST_ID + count {
      var b :| b in cards && b.id == c.id && SameCard(c, b);
      forall a | a in cards && a.id == c.id ensures SameCard(a, c) && SameCard(c, a) {
        SameCardTransitive(c, b, a);
        SameCardTransitive(a, b, c);
      }
    }
  }

  lemma {:induction false} NextIdIsNew(cards: iset<Card>, c: Card, count: nat)
    requires OneCardPerId(cards, count) && c in cards
    ensures c.id != FIRST_ID + count
  {
  }

  // ---------------------------------------------------------------- what an announcement adds

  lemma {:induction false} SendToAllShows(cfg: ShareConfig, clients: seq<Client>, card: Card, count: nat)
    requires Unwrapped(SendToAll(cfg, clients, card, count).count)
    ensures var r := SendToAll(cfg, clients, card, count);
            Announced(r.clients) <= Announced(clients) + iset{r.card}
  {
    hide SendToAll, Accepts;
    SendToAllEffect(cfg, clients, card, count);
  }

  lemma {:induction false} WithdrawShowsNothing(cfg: ShareConfig, clients: seq<Client>, left: seq<Card>)
    ensures Announced(Withdraw(cfg, clients, left)) <= Announced(clients)
  {
    hide Withdrawals;
    var w := Withdraw(cfg, clients, left);
    forall c | c in Announced(w) ensures c in Announced(clients) {
      var j :| 0 <= j < |w| && NewCard(c) in w[j].outbox;
      WithdrawalsAreRemovals(cfg, clients[j].peer, left);
      assert NewCard(c) in clients[j].outbox;
    }
  }

  lemma {:induction false} Fewer(more: iset<Card>, cards: iset<Card>, count: nat)
    requires cards <= more && OneCardPerId(more, count)
    ensures OneCardPerId(cards, count)
  {
  }

  lemma {:induction false} AnnounceShows(cfg: ShareConfig, entries: seq<Entry>, clients: seq<Client>, count: nat, cards: iset<Card>)
    requires Unwrapped(Announce(cfg, entries, clients, count).count) && NewOnesUnnumbered(entries)
    requires OneCardPerId(cards, count) && Announced(clients) <= cards
    requires forall k :: 0 <= k < |entries| ==> entries[k].card in cards
    ensures var a := Announce(cfg, entries, clients, count);
            OneCardPerId(cards + Seen(a), a.count)
    decreases |entries|
  {
    hide SendToAll, OneCardPerId, Announced;
    var a := Announce(cfg, entries, clients, count);
    if entries == [] {
      assert cards + Seen(a) == cards;
    } else {
      var n := |entries| - 1;
      var e := entries[n];
      AnnounceCounts(cfg, entries, clients, count);
      AnnounceShows(cfg, entries[..n], clients, count, cards);
      var p := Announce(cfg, entries[..n], clients, count);
      assert a.reported[..n] == p.reported && a.reported == p.reported + [a.reported[n]];
      if e.before.Some? {
        assert cards + Seen(a) == cards + Seen(p);
      } else {
        SendToAllShows(cfg, p.clients, e.card, p.count);
        SendToAllEffect(cfg, p.clients, e.card, p.count);
        OneCardMore(cards + Seen(p), a.reported[n], p.count);
        Fewer(cards + Seen(p) + iset{a.reported[n]}, cards + Seen(a), a.count);
      }
    }
  }

  /** Copies with the ids of the cards they stand for add nothing new. */
  lemma {:induction false} CopiesAdded(cards: iset<Card>, more: iset<Card>, count: nat)
    requires OneCardPerId(cards, count)
    requires forall c :: c in more && c.id != 0 ==> exists b :: b in cards && b.id == c.id && SameCard(c, b)
    ensures OneCardPerId(cards + more, count)
  {
    hide SameCard;
    forall a, b | a in cards + more && b in cards + more && a.id == b.id && a.id != 0 ensures SameCard(a, b) {
      SameCardReflexive(a);
      SameCardReflexive(b);
      var x :| x in cards && x.id == a.id && SameCard(a, x);
      var y :| y in cards && y.id == b.id && SameCard(b, y);
      SameCardTransitive(a, x, y);
      SameCardTransitive(b, y, y);
      SameCardTransitive(a, y, b);
    }
  }

  lemma {:induction false} UpdateShows(cfg: ShareConfig, s: Share, offered: seq<Card>, now: int, cards: iset<Card>)
    requires Unnumbered(offered) && Unwrapped(Update(cfg, s, offered, now).count)
    requires OneCardPerId(cards, s.count) && Seen(s) <= cards
    ensures var after := Update(cfg, s, offered, now);
            OneCardPerId(cards + Seen(after), after.count)
  {
    hide SameCard, Compare, Announce, OneCardPerId, Announced, Withdraw;
    var m := Compare(s.reported, offered, now);
    var w := Withdraw(cfg, s.clients, m.left);
    CompareEntries(s.reported, offered, now);
    assert forall k :: 0 <= k < |offered| ==> EntryOk(m.entries[k], offered[k], s.reported);
    var going := Listed(EntryCards(m.entries));
    forall c | c in going && c.id != 0 ensures exists b :: b in cards && b.id == c.id && SameCard(c, b) {
      var k :| 0 <= k < |m.entries| && m.entries[k].card == c;
      assert EntryOk(m.entries[k], offered[k], s.reported);
      assert m.entries[k].before.value in cards;
    }
    CopiesAdded(cards, going, s.count);
    WithdrawShowsNothing(cfg, s.clients, m.left);
    forall k | 0 <= k < |m.entries| ensures m.entries[k].card in cards + going {
      assert EntryCards(m.entries)[k] == m.entries[k].card;
    }
    AnnounceShows(cfg, m.entries, w, s.count, cards + going);
    var after := Update(cfg, s, offered, now);
    Fewer(cards + going + Seen(after), cards + Seen(after), after.count);
  }

  // ---------------------------------------------------------------- what a connection adds

  ghost function SentTo(outbox: seq<Msg>): iset<Card> {
    iset c | NewCard(c) in outbox
  }

  lemma {:induction false} SendingShows(cfg: ShareConfig, client: Client, card: Card, count: nat)
    requires Unwrapped(SendToClient(cfg, client, card, count).count)
    ensures var s := SendToClient(cfg, client, card, count);
            && SentTo(s.client.outbox) <= SentTo(client.outbox) + iset{s.card}
            && (if s.count == count then s.card == card else s.count == count + 1 && s.card.id == FIRST_ID + count)
  {
    hide Accepts;
  }

  lemma {:induction false} ReportShows(cfg: ShareConfig, list: seq<Card>, client: Client, count: nat, cards: iset<Card>)
    requires client.connected && Unwrapped(ReportAll(cfg, list, client, count).count)
    requires OneCardPerId(cards, count) && SentTo(client.outbox) <= cards && Listed(list) <= cards
    ensures var r := ReportAll(cfg, list, client, count);
            OneCardPerId(cards + Listed(r.list) + SentTo(r.client.outbox), r.count)
    decreases |list|
  {
    hide SendToClient, OneCardPerId, SentTo;
    var r := ReportAll(cfg, list, client, count);
    if list == [] {
      assert cards + Listed([]) + SentTo(client.outbox) == cards;
    } else {
      var n := |list| - 1;
      var p := ReportAll(cfg, list[..n], client, count);
      SendingCounts(cfg, p.client, list[n], p.count);
      ReportShows(cfg, list[..n], client, count, cards);
      SendingShows(cfg, p.client, list[n], p.count);
      assert r.list == p.list + [r.list[n]];
      var known := cards + Listed(p.list) + SentTo(p.client.outbox);
      assert list[n] in cards;
      SameCardReflexive(list[n]);
      NextIdIsNew(known, list[n], p.count);
      OneCardMore(known, r.list[n], p.count);
      Fewer(known + iset{r.list[n]}, cards + Listed(r.list) + SentTo(r.client.outbox), r.count);
    }
  }

  lemma {:induction false} ConnectShows(cfg: ShareConfig, s: Share, p: Peer, cards: iset<Card>)
    requires Unwrapped(Connect(cfg, s, p).count)
    requires OneCardPerId(cards, s.count) && Seen(s) <= cards
    ensures var after := Connect(cfg, s, p);
            OneCardPerId(cards + Seen(after), after.count)
  {
    hide ReportAll, OneCardPerId;
    var r := ReportAll(cfg, s.reported, Client(p, [], true), s.count);
    ReportShows(cfg, s.reported, Client(p, [], true), s.count, cards);
    var after := Connect(cfg, s, p);
    assert Announced(after.clients) <= Announced(s.clients) + SentTo(r.client.outbox);
    Fewer(cards + Listed(r.list) + SentTo(r.client.outbox), cards + Seen(after), after.count);
  }

  lemma {:induction false} HappensShows(cfg: ShareConfig, s: Share, e: Event, cards: iset<Card>)
    requires WellFormed(e) && Unwrapped(Happens(cfg, s, e).count)
    requires OneCardPerId(cards, s.count) && Seen(s) <= cards
    ensures OneCardPerId(cards + Seen(Happens(cfg, s, e)), Happens(cfg, s, e).count)
  {
    hide Update, Connect, OneCardPerId;
    match e
    case Updating(offered, now) => UpdateShows(cfg, s, offered, now, cards);
    case Connecting(p) => ConnectShows(cfg, s, p, cards);
    case Disconnecting(k) =>
      assert cards + Seen(Happens(cfg, s, e)) == cards;
  }

  lemma {:induction false} NothingSeen()
    ensures Seen(Empty()) == iset{} && OneCardPerId(iset{}, 0)
  {
  }

  /** An id names one card for ever: over any run of the program no id announced or listed at
      any time is used for another card, before or after, also when its card was withdrawn
      long ago. */
  lemma {:induction false} NeverReused(cfg: ShareConfig, events: seq<Event>)
    requires forall i :: 0 <= i < |events| ==> WellFormed(events[i])
    requires Unwrapped(After(cfg, Empty(), events).count)
    ensures OneCardPerId(History(cfg, events), After(cfg, Empty(), events).count)
    ensures Seen(After(cfg, Empty(), events)) <= History(cfg, events)
    decreases |events|
  {
    hide Happens, Seen, OneCardPerId;
    if events == [] {
      NothingSeen();
      assert History(cfg, events) == iset{};
    } else {
      var n := |events| - 1;
      var s := After(cfg, Empty(), events[..n]);
      CountGrows(cfg, s, events[n]);
      NeverReused(cfg, events[..n]);
      HappensShows(cfg, s, events[n], History(cfg, events[..n]));
    }
  }

  /** Whatever was listed or announced after some events stays in the history. */
  lemma {:induction false} HistoryKeeps(cfg: ShareConfig, events: seq<Event>, i: nat)
    requires i <= |events|
    ensures Seen(After(cfg, Empty(), events[..i])) <= History(cfg, events)
    decreases |events|
  {
    hide After, Seen;
    if i == |events| {
      assert events[..i] == events;
    } else {
      var n := |events| - 1;
      assert events[..n][..i] == events[..i];
      HistoryKeeps(cfg, events[..n], i);
    }
  }

  /** Read at two moments of a run: a card shown after i events and one shown after j events
      have one id only if they are the same card. */
  lemma {:induction false} IdsNameOneCard(cfg: ShareConfig, events: seq<Event>, i: nat, j: nat, a: Card, b: Card)
    requires i <= j <= |events| && forall x :: 0 <= x < |events| ==> WellFormed(events[x])
    requires Unwrapped(After(cfg, Empty(), events).count)
    requires a in Seen(After(cfg, Empty(), events[..i])) && b in Seen(After(cfg, Empty(), events[..j]))
    requires a.id == b.id && a.id != 0
    ensures SameCard(a, b)
  {
    hide After, Seen, SameCard, History;
    NeverReused(cfg, events);
    HistoryKeeps(cfg, events, i);
    HistoryKeeps(cfg, events, j);
  }

  // ---------------------------------------------------------------- numbering and being in step

  lemma {:induction false} HappensNumbers(cfg: ShareConfig, s: Share, e: Event)
    requires IdsOk(s.reported, s.count) && WellFormed(e) && Unwrapped(Happens(cfg, s, e).count)
    ensures IdsOk(Happens(cfg, s, e).reported, Happens(cfg, s, e).count)
  {
    hide Update, ReportAll, Renumbered, FreshlyNumbered;
    match e
    case Updating(offered, now) => UpdateNumbers(cfg, s, offered, now);
    case Connecting(p) =>
      var r := ReportAll(cfg, s.reported, Client(p, [], true), s.count);
      ReportAllNumbers(cfg, s.reported, Client(p, [], true), s.count);
      RenumberedIdsOk(s.reported, r.list, s.count, r.count);
    case Disconnecting(k) =>
  }

  lemma {:induction false} NoneNumbered()
    ensures IdsOk([], 0)
  {
  }

  /** After every run no two listed cards have one id, and only ids handed out are in use. */
  lemma {:induction false} AlwaysNumbered(cfg: ShareConfig, events: seq<Event>)
    requires forall i :: 0 <= i < |events| ==> WellFormed(events[i])
    requires Unwrapped(After(cfg, Empty(), events).count)
    ensures IdsOk(After(cfg, Empty(), events).reported, After(cfg, Empty(), events).count)
    decreases |events|
  {
    hide Happens, IdsOk;
    if events == [] {
      NoneNumbered();
    } else {
      var n := |events| - 1;
      var s := After(cfg, Empty(), events[..n]);
      CountGrows(cfg, s, events[n]);
      AlwaysNumbered(cfg, events[..n]);
      HappensNumbers(cfg, s, events[n]);
    }
  }

  /** The clients a run has seen before event k. */
  function ClientsBefore(cfg: ShareConfig, events: seq<Event>, k: nat): nat
    requires k <= |events|
  {
    |After(cfg, Empty(), events[..k]).clients|
  }

  lemma {:induction false} ConnectsPeer(cfg: ShareConfig, s: Share, p: Peer)
    requires Unwrapped(Connect(cfg, s, p).count)
    ensures Connect(cfg, s, p).clients[|s.clients|].peer == p
  {
    hide ReportAll;
    ReportAllNumbers(cfg, s.reported, Client(p, [], true), s.count);
  }

  lemma {:induction false} JoinsInStep(cfg: ShareConfig, s: Share, e: Event)
    requires e.Connecting? && IdsOk(s.reported, s.count) && Unwrapped(Happens(cfg, s, e).count)
    ensures InStep(cfg, Happens(cfg, s, e), |s.clients|)
    ensures Happens(cfg, s, e).clients[|s.clients|].peer == e.peer
  {
    hide Connect, InStep, IdsOk;
    ConnectInStep(cfg, s, e.peer);
    ConnectsPeer(cfg, s, e.peer);
  }

  /** After event k client j stays connected, and its verdict on a listed card does not change. */
  ghost predicate SteadySince(cfg: ShareConfig, events: seq<Event>, k: nat, j: nat) {
    forall i :: k < i < |events| ==> Steady(cfg, After(cfg, Empty(), events[..i]), events[i], j)
  }

  lemma {:induction false} SteadyBefore(cfg: ShareConfig, events: seq<Event>, k: nat, j: nat)
    requires k < |events| - 1 && SteadySince(cfg, events, k, j)
    ensures var n := |events| - 1;
            SteadySince(cfg, events[..n], k, j) && Steady(cfg, After(cfg, Empty(), events[..n]), events[n], j)
  {
    hide After, Steady;
    var n := |events| - 1;
    assert forall i :: 0 <= i < n ==> events[..n][i] == events[i] && events[..n][..i] == events[..i];
  }

  /** From the empty list: a client that connects at event k, and whose verdict on a listed
      card does not change after that, has been told in the end exactly what a full resend of the
      list would give it. */
  lemma {:induction false} WholeRunInStep(cfg: ShareConfig, events: seq<Event>, k: nat)
    requires k < |events| && events[k].Connecting? && Unwrapped(After(cfg, Empty(), events).count)
    requires forall i :: 0 <= i < |events| ==> WellFormed(events[i])
    requires SteadySince(cfg, events, k, ClientsBefore(cfg, events, k))
    ensures InStep(cfg, After(cfg, Empty(), events), ClientsBefore(cfg, events, k))
    decreases |events|
  {
    hide Happens, Steady, InStep, IdsOk, SteadySince;
    var n := |events| - 1;
    var s := After(cfg, Empty(), events[..n]);
    CountGrows(cfg, s, events[n]);
    if k == n {
      AlwaysNumbered(cfg, events[..n]);
      JoinsInStep(cfg, s, events[n]);
    } else {
      assert events[..n][..k] == events[..k];
      SteadyBefore(cfg, events, k, ClientsBefore(cfg, events, k));
      WholeRunInStep(cfg, events[..n], k);
      HappensInStep(cfg, s, events[n], ClientsBefore(cfg, events, k));
    }
  }

  lemma {:induction false} ConnectingConnects(cfg: ShareConfig, s: Share, p: Peer)
    ensures Happens(cfg, s, Connecting(p)) == Connect(cfg, s, p)
  {
  }

  /** From the empty list: a client that accepts the cards listed when it connects and every
      card offered after that has been told in the end exactly the ids of the share list. */
  lemma {:induction false} WholeRunHoldsAll(cfg: ShareConfig, events: seq<Event>, k: nat)
    requires k < |events| && events[k].Connecting? && Unwrapped(After(cfg, Empty(), events).count)
    requires forall i :: 0 <= i < |events| ==> WellFormed(events[i])
    requires AllAccepted(cfg, events[k].peer, After(cfg, Empty(), events[..k]).reported)
    requires forall i :: k < i < |events| ==> Welcomes(cfg, events[k].peer, events[i], ClientsBefore(cfg, events, k))
    ensures var after := After(cfg, Empty(), events);
            var j := ClientsBefore(cfg, events, k);
            && InStep(cfg, after, j) && after.clients[j].peer == events[k].peer
            && AllAccepted(cfg, events[k].peer, after.reported)
            && ShareUpdate.Held(after.clients[j].outbox) == (set c | c in after.reported :: c.id)
    decreases |events|
  {
    hide Happens, ShareUpdate.Held, Accepts, IdsOk, Welcomes;
    var n := |events| - 1;
    var s := After(cfg, Empty(), events[..n]);
    var after := After(cfg, Empty(), events);
    var p := events[k].peer;
    CountGrows(cfg, s, events[n]);
    if k == n {
      AlwaysNumbered(cfg, events[..n]);
      JoinsInStep(cfg, s, events[n]);
      ConnectingConnects(cfg, s, p);
      ConnectAccepted(cfg, s, p, p);
    } else {
      assert forall i :: 0 <= i <= n ==> events[..n][..i] == events[..i];
      WholeRunHoldsAll(cfg, events[..n], k);
      AcceptedStep(cfg, s, events[n], ClientsBefore(cfg, events, k));
    }
    assert forall c :: c in after.reported ==> Accepts(cfg, p, c);
    assert Resend(cfg, p, after.reported) == set c | c in after.reported :: c.id;
  }

  // ---------------------------------------------------------------- only what clients may know

  /** Every card announced to a client is one it accepts. */
  ghost predicate ToldAccepted(cfg: ShareConfig, clients: seq<Client>) {
    forall j, c :: 0 <= j < |clients| && NewCard(c) in clients[j].outbox ==> Accepts(cfg, clients[j].peer, c)
  }

  lemma {:induction false} UpdateTellsAccepted(cfg: ShareConfig, s: Share, offered: seq<Card>, now: int)
    requires IdsOk(s.reported, s.count) && Unnumbered(offered) && Unwrapped(Update(cfg, s, offered, now).count)
    requires ToldAccepted(cfg, s.clients)
    ensures ToldAccepted(cfg, Update(cfg, s, offered, now).clients)
  {
    hide Update, Accepts, Withdrawn, News, IdsOk;
    var after := Update(cfg, s, offered, now);
    forall j, c | 0 <= j < |after.clients| && NewCard(c) in after.clients[j].outbox ensures Accepts(cfg, after.clients[j].peer, c) {
      UpdateTells(cfg, s, offered, now, j);
      var p := s.clients[j].peer;
      if NewCard(c) !in s.clients[j].outbox {
        if NewCard(c) in Withdrawn(cfg, p, s.reported, after.reported) {
          WithdrawnIds(cfg, p, s.reported, after.reported, NewCard(c));
        } else {
          NewsIds(cfg, p, after.reported, s.count, NewCard(c));
        }
      }
    }
  }

  lemma {:induction false} ReportTellsAccepted(cfg: ShareConfig, list: seq<Card>, client: Client, count: nat)
    requires client.connected && Unwrapped(ReportAll(cfg, list, client, count).count)
    requires forall c :: NewCard(c) in client.outbox ==> Accepts(cfg, client.peer, c)
    ensures var r := ReportAll(cfg, list, client, count).client;
            r.peer == client.peer && forall c :: NewCard(c) in r.outbox ==> Accepts(cfg, client.peer, c)
    decreases |list|
  {
    hide Accepts, SendToClient;
    if list == [] {
    } else {
      var n := |list| - 1;
      var p := ReportAll(cfg, list[..n], client, count);
      SendingCounts(cfg, p.client, list[n], p.count);
      ReportTellsAccepted(cfg, list[..n], client, count);
      SendToClientEffect(cfg, p.client, list[n], p.count);
      AcceptsIgnoresId(cfg, client.peer, list[n], SendToClient(cfg, p.client, list[n], p.count).card);
    }
  }

  lemma {:induction false} HappensTellsAccepted(cfg: ShareConfig, s: Share, e: Event)
    requires IdsOk(s.reported, s.count) && WellFormed(e) && Unwrapped(Happens(cfg, s, e).count)
    requires ToldAccepted(cfg, s.clients)
    ensures ToldAccepted(cfg, Happens(cfg, s, e).clients)
  {
    hide Accepts, Update, ReportAll, IdsOk;
    match e
    case Updating(offered, now) => UpdateTellsAccepted(cfg, s, offered, now);
    case Connecting(p) => ReportTellsAccepted(cfg, s.reported, Client(p, [], true), s.count);
    case Disconnecting(k) =>
  }

  lemma {:induction false} AlwaysToldAccepted(cfg: ShareConfig, events: seq<Event>)
    requires forall i :: 0 <= i < |events| ==> WellFormed(events[i])
    requires Unwrapped(After(cfg, Empty(), events).count)
    ensures ToldAccepted(cfg, After(cfg, Empty(), events).clients)
    decreases |events|
  {
    hide Happens, IdsOk, Accepts;
    if events == [] {
    } else {
      var n := |events| - 1;
      var s := After(cfg, Empty(), events[..n]);
      CountGrows(cfg, s, events[n]);
      AlwaysNumbered(cfg, events[..n]);
      AlwaysToldAccepted(cfg, events[..n]);
      HappensTellsAccepted(cfg, s, events[n]);
    }
  }

  /** Over every run from the empty list: a client is only ever told of cards that share a group
      with it, or are in none; that its filters let through; that are within its hops; that have
      not been at its node; and, where it minds levels, of received cards that may be passed on. */
  lemma {:induction false} ToldOnlyValid(cfg: ShareConfig, events: seq<Event>, j: nat, c: Card)
    requires forall i :: 0 <= i < |events| ==> WellFormed(events[i])
    requires Unwrapped(After(cfg, Empty(), events).count)
    requires j < |After(cfg, Empty(), events).clients| && NewCard(c) in After(cfg, Empty(), events).clients[j].outbox
    ensures var p := After(cfg, Empty(), events).clients[j].peer;
            && (c.grp == {} || exists g :: g in c.grp && g in p.grp)
            && p.filter(c.caid, c.providers, c.sidtab)
            && c.hop as int <= p.maxhops && p.nodeId !in c.remoteNodes
            && (c.cardType.RemoteCard? && MindsReshare(cfg, p) ==> c.reshare > 0)
  {
    hide After, NewReshare;
    AlwaysToldAccepted(cfg, events);
    var p := After(cfg, Empty(), events).clients[j].peer;
    assert Accepts(cfg, p, c);
    if c.grp * p.grp != {} {
      var g :| g in c.grp * p.grp;
      assert g in c.grp && g in p.grp;
    }
  }

  lemma {:induction false} HappensPassesBy(cfg: ShareConfig, s: Share, e: Event, k: nat)
    requires IdsOk(s.reported, s.count) && WellFormed(e) && Unwrapped(Happens(cfg, s, e).count)
    requires k < |s.clients| && !s.clients[k].connected
    ensures var after := Happens(cfg, s, e); k < |after.clients| && after.clients[k] == s.clients[k]
  {
    hide Accepts, Update, ReportAll, IdsOk;
    if e.Updating? {
      UpdateTells(cfg, s, e.offered, e.now, k);
    }
  }

  lemma {:induction false} GoneIsDisconnected(cfg: ShareConfig, s: Share, k: nat)
    requires k < |s.clients|
    ensures Happens(cfg, s, Disconnecting(k)) == Disconnect(s, k)
  {
  }

  /** Over every run from the empty list: a client that has disconnected is told nothing more. */
  lemma {:induction false} SilentOnceGone(cfg: ShareConfig, events: seq<Event>, i: nat, k: nat)
    requires forall x :: 0 <= x < |events| ==> WellFormed(events[x])
    requires Unwrapped(After(cfg, Empty(), events).count)
    requires i < |events| && events[i] == Disconnecting(k) && k < |After(cfg, Empty(), events[..i]).clients|
    ensures var former, now := After(cfg, Empty(), events[..i]).clients[k], After(cfg, Empty(), events).clients;
            k < |now| && !now[k].connected && now[k].outbox == former.outbox
    decreases |events|
  {
    hide Happens, IdsOk, WellFormed;
    var n := |events| - 1;
    var s := After(cfg, Empty(), events[..n]);
    if i == n {
      assert Happens(cfg, s, Disconnecting(k)) == Disconnect(s, k) by { GoneIsDisconnected(cfg, s, k); }
    } else {
      CountGrows(cfg, s, events[n]);
      assert forall x :: 0 <= x < n ==> events[..n][x] == events[x];
      assert events[..n][..i] == events[..i];
      SilentOnceGone(cfg, events[..n], i, k);
      AlwaysNumbered(cfg, events[..n]);
      HappensPassesBy(cfg, s, events[n], k);
    }
  }
}
