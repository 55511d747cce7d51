/**
 The two ends of a share link put together: the messages a server queues for a client, and
 the card table of the reader at the other end. Held is what the client has been told; here
 is exactly when the reader's table says the same.
 */
module ReaderView {
  import opened Bytes
  import opened Cards
  import opened CardWire
  import opened Forwarding
  import opened ShareUpdate
  import H = ShareHistory
  import R = ReaderTable
  import S = ShareRuns

  /** A client and the reader behind it. services and aureaders are the server's: the tables
      announced for a card, and the readers this client may update. */
  datatype Link = Link(server: NodeId, cfg: ShareConfig, peer: Peer, services: Card -> Services, ext: bool,
                       aureaders: set<nat>, reader: R.Reader, readerCfg: ShareConfig, own: NodeId)

  // ---------------------------------------------------------------- one message

  predicate AuAllowed(l: Link, c: Card) {
    c.originReader.Some? && c.originReader.value in l.aureaders
  }

  /** The level the card is announced with, as a byte. */
  function Level(l: Link, c: Card): byte {
    (NewReshare(l.cfg, l.peer, c) as int) % 256
  }

  function Announcement(l: Link, c: Card): seq<byte> {
    Encode(c.(reshare := Level(l, c)), l.services(c), Some(l.server), l.ext, AuAllowed(l, c))
  }

  predicate Fits(l: Link, c: Card) {
    |Announcement(l, c)| <= CC_MAXMSGSIZE
  }

  /** What the reader takes from the announcement, if its filters let it in. */
  function Arrives(l: Link, c: Card): Option<Card> {
    R.Intake(l.reader, l.readerCfg, l.own, Announcement(l, c), l.ext)
  }

  function SerialSent(l: Link, c: Card): Serial {
    if AuAllowed(l, c) then c.hexserial else Zeros(8)
  }

  function FirstNode(l: Link, c: Card): NodeId {
    Path(c, Some(l.server))[0]
  }

  /** Cards that the reader takes for one card. */
  predicate Alike(l: Link, c: Card, d: Card) {
    && c.remoteId == d.remoteId && c.caid == d.caid
    && SerialSent(l, c) == SerialSent(l, d) && FirstNode(l, c) == FirstNode(l, d)
  }

  lemma {:induction false} ArrivesAs(l: Link, c: Card)
    requires Fits(l, c) && Arrives(l, c).Some?
    ensures var a := Arrives(l, c).value;
            && a.id == c.id && a.remoteId == c.remoteId && a.caid == c.caid && a.hexserial == SerialSent(l, c)
            && a.remoteNodes == Path(c, Some(l.server)) && a.cardType.RemoteCard? && a.sidtab == None && a.grp == l.reader.grp
  {
    hide Encode, ReadCard;
    PathReadsBack(c.(reshare := Level(l, c)), l.services(c), Some(l.server), l.ext, AuAllowed(l, c));
  }

  lemma {:induction false} AlikeIsSame(l: Link, d: Card, c: Card)
    requires Fits(l, c) && Fits(l, d) && Arrives(l, c).Some? && Arrives(l, d).Some?
    ensures SameCard(R.Stored(Arrives(l, d).value), Arrives(l, c).value) <==> Alike(l, d, c)
    ensures R.Stored(Arrives(l, d).value).id == d.id && Arrives(l, c).value.id == c.id
  {
    hide Arrives, Fits, SerialSent;
    ArrivesAs(l, c);
    ArrivesAs(l, d);
  }

  lemma {:induction false} CaidSent(l: Link, c: Card)
    ensures |Announcement(l, c)| >= 12 && SidAt(Announcement(l, c), 8) == c.caid
  {
    hide Encode, Fixed, Counts, ProviderParts, SidParts, NodeParts, NodeCount, Flatten, AnnouncedGoods, AnnouncedBads, SidAt, Level;
    var s := c.(reshare := Level(l, c));
    var data := Announcement(l, c);
    assert data + [] == data;
    Layout(s, l.services(c), Some(l.server), l.ext, AuAllowed(l, c), []);
    FixedReadsBack(data, s, AuAllowed(l, c));
  }

  /** The filters read off the card: they let it in exactly if it has a CAID they allow, is not
      too far away, has a high enough level, has not been at the reader's node, and has
      providers they allow. */
  lemma {:induction false} AdmittedExactly(l: Link, c: Card)
    requires Fits(l, c) && Announceable(c)
    ensures Arrives(l, c).Some? <==>
            && c.caid != 0 && l.reader.caidAllowed(c.caid)
            && (c.hop as int) < l.reader.maxhops + 1 && Level(l, c) as int >= l.reader.mindown
            && l.own !in Path(c, Some(l.server))
            && l.reader.identAllowed(c.caid, AnnouncedProviders(c.providers, AuAllowed(l, c)))
  {
    hide Encode, ReadCard, AnnouncedProviders;
    var s := c.(reshare := Level(l, c));
    var sv, au := l.services(c), AuAllowed(l, c);
    var data := Encode(s, sv, Some(l.server), l.ext, au);
    assert data + [] == data;
    assert Announceable(s);
    CardRoundTrip(s, sv, Some(l.server), l.ext, au, []);
    PathReadsBack(s, sv, Some(l.server), l.ext, au);
    CaidSent(l, c);
    assert ReadCard(data, l.ext) == Some(Received(s, sv, Some(l.server), l.ext, au));
  }

  /** Serial number and shared addresses reach a reader exactly if its account is one of those
      that the reader the card came in through admits to entitlement messages. */
  lemma {:induction false} SecretsWithheld(l: Link, c: Card)
    requires Fits(l, c) && Announceable(c) && Arrives(l, c).Some?
    ensures var a := Arrives(l, c).value;
            var trusted := c.originReader.Some? && c.originReader.value in l.aureaders;
            && a.hexserial == (if trusted then c.hexserial else Zeros(8))
            && |a.providers| == |c.providers|
            && forall i :: 0 <= i < |c.providers| ==>
                             a.providers[i] == if trusted then c.providers[i] else c.providers[i].(sa := [0, 0, 0, 0])
  {
    hide Encode, ReadCard;
    var s := c.(reshare := Level(l, c));
    var sv, au := l.services(c), AuAllowed(l, c);
    var data := Encode(s, sv, Some(l.server), l.ext, au);
    assert data + [] == data;
    assert Announceable(s);
    CardRoundTrip(s, sv, Some(l.server), l.ext, au, []);
  }

  // ---------------------------------------------------------------- both ends of a run

  function Told(l: Link, t: R.Table, m: Msg): R.Table {
    R.Happens(l.reader, l.readerCfg, l.own, t,
              if m.NewCard? then R.CardAnnounced(Announcement(l, m.card), l.ext) else R.CardRemoved(m.id))
  }

  /** The reader's table after the messages. */
  function ToldAll(l: Link, first: nat, outbox: seq<Msg>): R.Table
    decreases |outbox|
  {
    if outbox == [] then R.Empty(first)
    else
      var n := |outbox| - 1;
      Told(l, ToldAll(l, first, outbox[..n]), outbox[n])
  }

  function TableCards(t: R.Table): set<Card> {
    set h | h in t.cards :: h.card
  }

  function IdsOf(cards: set<Card>): set<u32> {
    set c | c in cards :: c.id
  }

  function Stands(standing: set<Card>, m: Msg): set<Card> {
    if m.Removed? then set c | c in standing && c.id != m.id
    else if m.card.id in IdsOf(standing) then standing
    else standing + {m.card}
  }

  /** The cards announced and not withdrawn. */
  function Standing(outbox: seq<Msg>): set<Card>
    decreases |outbox|
  {
    if outbox == [] then {}
    else
      var n := |outbox| - 1;
      Stands(Standing(outbox[..n]), outbox[n])
  }

  lemma {:induction false} StandsIsHeld(standing: set<Card>, m: Msg)
    ensures IdsOf(Stands(standing, m)) == HeldAfter(IdsOf(standing), m)
  {
    var after := Stands(standing, m);
    forall id | id in HeldAfter(IdsOf(standing), m) ensures id in IdsOf(after) {
      if id in IdsOf(standing) {
        var c :| c in standing && c.id == id;
        assert c in after;
      } else {
        assert m.card in after;
      }
    }
  }

  lemma {:induction false} StandingIsHeld(outbox: seq<Msg>)
    ensures IdsOf(Standing(outbox)) == ShareUpdate.Held(outbox)
    decreases |outbox|
  {
    if outbox == [] {
      assert IdsOf({}) == {};
    } else {
      var n := |outbox| - 1;
      StandingIsHeld(outbox[..n]);
      StandsIsHeld(Standing(outbox[..n]), outbox[n]);
    }
  }

  /** The reader takes the new card: its filters let it in, and nothing announced and not
      withdrawn is alike. */
  ghost predicate Takes(l: Link, standing: set<Card>, m: Msg) {
    m.NewCard? && m.card.id !in IdsOf(standing) ==>
      Arrives(l, m.card).Some? && forall d :: d in standing ==> !Alike(l, d, m.card)
  }

  ghost predicate NothingLost(l: Link, outbox: seq<Msg>) {
    forall k :: 0 <= k < |outbox| ==> Takes(l, Standing(outbox[..k]), outbox[k])
  }

  ghost predicate AllFit(l: Link, outbox: seq<Msg>) {
    forall k :: 0 <= k < |outbox| && outbox[k].NewCard? ==> Fits(l, outbox[k].card)
  }

  ghost predicate AllArrive(l: Link, standing: set<Card>) {
    forall d :: d in standing ==> Fits(l, d) && Arrives(l, d).Some?
  }

  function AsListed(l: Link, d: Card): Card {
    if Arrives(l, d).Some? then R.Stored(Arrives(l, d).value) else d
  }

  /** The table lists exactly the cards that stand. */
  ghost predicate Mirrors(l: Link, standing: set<Card>, t: R.Table) {
    AllArrive(l, standing) && TableCards(t) == set d | d in standing :: AsListed(l, d)
  }

  lemma {:induction false} MirroredIds(l: Link, standing: set<Card>, t: R.Table)
    requires Mirrors(l, standing, t)
    ensures IdsOf(TableCards(t)) == IdsOf(standing)
  {
    hide Arrives, Fits, TableCards;
    forall d | d in standing ensures AsListed(l, d).id == d.id && AsListed(l, d) in TableCards(t) {
      ArrivesAs(l, d);
    }
  }

  lemma {:induction false} KnownIfAlike(l: Link, standing: set<Card>, t: R.Table, c: Card)
    requires Mirrors(l, standing, t) && Fits(l, c) && Arrives(l, c).Some?
    ensures R.Known(t.cards, Arrives(l, c).value) <==> c.id in IdsOf(standing) || exists d :: d in standing && Alike(l, d, c)
  {
    hide Arrives, Fits, Alike, SameCard;
    var a := Arrives(l, c).value;
    forall d | d in standing
      ensures AsListed(l, d).id == d.id && a.id == c.id && (SameCard(AsListed(l, d), a) <==> Alike(l, d, c))
    {
      AlikeIsSame(l, d, c);
    }
    ArrivesAs(l, c);
    if R.Known(t.cards, a) {
      var i :| 0 <= i < |t.cards| && (t.cards[i].card.id == a.id || SameCard(t.cards[i].card, a));
      assert t.cards[i].card in TableCards(t);
    }
    forall d | d in standing && (d.id == c.id || Alike(l, d, c)) ensures R.Known(t.cards, a) {
      assert AsListed(l, d) in TableCards(t);
      var h :| h in t.cards && h.card == AsListed(l, d);
      var i :| 0 <= i < |t.cards| && t.cards[i] == h;
    }
  }

  lemma {:induction false} RemovedOne(t: R.Table, after: R.Table, i: nat, id: u32)
    requires i < |t.cards| && t.cards[i].card.id == id && after.cards == t.cards[..i] + t.cards[i + 1..]
    ensures (set c | c in TableCards(after) && c.id != id) == set c | c in TableCards(t) && c.id != id
  {
    forall h | h in t.cards && h.card.id != id ensures h in after.cards {
      var k :| 0 <= k < |t.cards| && t.cards[k] == h;
      assert after.cards[if k < i then k else k - 1] == h;
    }
  }

  lemma {:induction false} RemovedCards(t: R.Table, id: u32, i: nat)
    requires i <= |t.cards| && forall k :: 0 <= k < i ==> t.cards[k].card.id != id
    ensures TableCards(R.RemoveFrom(t, id, i)) == set c | c in TableCards(t) && c.id != id
    decreases |t.cards| - i
  {
    hide R.RemoveAt;
    if i == |t.cards| {
      assert TableCards(t) == set c | c in TableCards(t) && c.id != id;
    } else if t.cards[i].card.id == id {
      R.CardsLeft(t, i);
      RemovedCards(R.RemoveAt(t, i), id, i);
      RemovedOne(t, R.RemoveAt(t, i), i, id);
    } else {
      RemovedCards(t, id, i + 1);
    }
  }

  lemma {:induction false} ArrivesIs(l: Link, c: Card)
    ensures Arrives(l, c) == R.Intake(l.reader, l.readerCfg, l.own, Announcement(l, c), l.ext)
  {
    hide R.Intake, Announcement;
  }

  lemma {:induction false} AnnouncedCards(l: Link, t: R.Table, c: Card)
    ensures TableCards(Told(l, t, NewCard(c))) ==
            if Arrives(l, c).Some? && !R.Known(t.cards, Arrives(l, c).value) then TableCards(t) + {AsListed(l, c)}
            else TableCards(t)
  {
    hide Arrives, R.Intake, R.Known, Announcement;
    assert Arrives(l, c) == R.Intake(l.reader, l.readerCfg, l.own, Announcement(l, c), l.ext) by { ArrivesIs(l, c); }
  }

  lemma {:induction false} IdIsOf(cards: set<Card>, c: Card)
    requires c in cards
    ensures c.id in IdsOf(cards)
  {
  }

  lemma {:induction false} RemovalMirrors(l: Link, standing: set<Card>, t: R.Table, id: u32)
    requires Mirrors(l, standing, t)
    ensures Mirrors(l, Stands(standing, Removed(id)), Told(l, t, Removed(id)))
  {
    hide Arrives, Fits, TableCards;
    RemovedCards(t, id, 0);
    forall d | d in standing ensures AsListed(l, d).id == d.id {
      ArrivesAs(l, d);
    }
  }

  /** One message: the table goes on mirroring what stands if the reader takes what is new,
      and lacks an id the client has been told otherwise. */
  lemma {:induction false} ToldMirrors(l: Link, standing: set<Card>, t: R.Table, m: Msg)
    requires Mirrors(l, standing, t) && (m.NewCard? ==> Fits(l, m.card))
    ensures Takes(l, standing, m) ==> Mirrors(l, Stands(standing, m), Told(l, t, m))
    ensures !Takes(l, standing, m) ==> IdsOf(TableCards(Told(l, t, m))) != IdsOf(Stands(standing, m))
  {
    hide Arrives, Fits, Alike, Told, TableCards, R.Known, IdsOf;
    MirroredIds(l, standing, t);
    match m {
      case Removed(id) => RemovalMirrors(l, standing, t, id);
      case NewCard(c) =>
        AnnouncedCards(l, t, c);
        if Arrives(l, c).Some? {
          KnownIfAlike(l, standing, t, c);
        }
        if c.id !in IdsOf(standing) {
          assert c.id in IdsOf(standing + {c}) by { IdIsOf(standing + {c}, c); }
        }
    }
  }

  lemma {:induction false} NothingMirrors(l: Link, first: nat)
    ensures Mirrors(l, {}, R.Empty(first))
  {
  }

  lemma {:induction false} NothingLostMirrors(l: Link, first: nat, outbox: seq<Msg>)
    requires AllFit(l, outbox) && NothingLost(l, outbox)
    ensures Mirrors(l, Standing(outbox), ToldAll(l, first, outbox))
    decreases |outbox|
  {
    hide Mirrors, Takes, Told, Stands, Fits;
    if outbox == [] {
      NothingMirrors(l, first);
    } else {
      var n := |outbox| - 1;
      assert forall k :: 0 <= k < n ==> outbox[..n][k] == outbox[k] && outbox[..n][..k] == outbox[..k];
      NothingLostMirrors(l, first, outbox[..n]);
      ToldMirrors(l, Standing(outbox[..n]), ToldAll(l, first, outbox[..n]), outbox[n]);
    }
  }

  // ---------------------------------------------------------------- the results

  /** The reader lists exactly the ids its server has told it of. */
  ghost predicate ListsWhatItWasTold(l: Link, first: nat, outbox: seq<Msg>) {
    IdsOf(TableCards(ToldAll(l, first, outbox))) == ShareUpdate.Held(outbox)
  }

  lemma {:induction false} NothingLostLists(l: Link, first: nat, outbox: seq<Msg>)
    requires AllFit(l, outbox) && NothingLost(l, outbox)
    ensures ListsWhatItWasTold(l, first, outbox)
  {
    hide Mirrors, NothingLost, AllFit, ToldAll, Standing;
    NothingLostMirrors(l, first, outbox);
    MirroredIds(l, Standing(outbox), ToldAll(l, first, outbox));
    StandingIsHeld(outbox);
  }

  lemma {:induction false} LostIds(l: Link, first: nat, outbox: seq<Msg>)
    requires IdsOf(TableCards(ToldAll(l, first, outbox))) != ShareUpdate.Held(outbox)
    ensures !ListsWhatItWasTold(l, first, outbox)
  {
  }

  lemma {:induction false} LastLossShows(l: Link, first: nat, outbox: seq<Msg>)
    requires outbox != [] && AllFit(l, outbox) && NothingLost(l, outbox[..|outbox| - 1])
    requires !Takes(l, Standing(outbox[..|outbox| - 1]), outbox[|outbox| - 1])
    ensures !ListsWhatItWasTold(l, first, outbox)
  {
    hide Mirrors, Takes, Told, Stands, Fits, NothingLost, ListsWhatItWasTold;
    var n := |outbox| - 1;
    assert AllFit(l, outbox[..n]) by { assert forall i :: 0 <= i < n ==> outbox[..n][i] == outbox[i]; }
    NothingLostMirrors(l, first, outbox[..n]);
    ToldMirrors(l, Standing(outbox[..n]), ToldAll(l, first, outbox[..n]), outbox[n]);
    StandingIsHeld(outbox);
    LostIds(l, first, outbox);
  }

  /** The first card that is lost shows at once. */
  lemma {:induction false} LossShows(l: Link, first: nat, outbox: seq<Msg>) returns (k: nat)
    requires AllFit(l, outbox) && !NothingLost(l, outbox)
    ensures k <= |outbox| && !ListsWhatItWasTold(l, first, outbox[..k])
    decreases |outbox|
  {
    hide Takes, Fits, ListsWhatItWasTold;
    var n := |outbox| - 1;
    assert forall i :: 0 <= i < n ==> outbox[..n][i] == outbox[i] && outbox[..n][..i] == outbox[..i];
    if NothingLost(l, outbox[..n]) {
      k := n + 1;
      assert outbox[..k] == outbox;
      LastLossShows(l, first, outbox);
    } else {
      k := LossShows(l, first, outbox[..n]);
      assert outbox[..n][..k] == outbox[..k];
    }
  }

  /** The main result: the reader lists, after every message, exactly the ids it has been told
      of, if and only if its filters let every announced card in and no two cards announced
      and not withdrawn at one time are alike to it. */
  lemma {:induction false} ListsExactly(l: Link, first: nat, outbox: seq<Msg>)
    requires AllFit(l, outbox)
    ensures (forall k :: 0 <= k <= |outbox| ==> ListsWhatItWasTold(l, first, outbox[..k])) <==> NothingLost(l, outbox)
  {
    hide ListsWhatItWasTold, Takes, Fits;
    if NothingLost(l, outbox) {
      forall k | 0 <= k <= |outbox| ensures ListsWhatItWasTold(l, first, outbox[..k]) {
        assert forall i :: 0 <= i < k ==> outbox[..k][i] == outbox[i] && outbox[..k][..i] == outbox[..i];
        NothingLostLists(l, first, outbox[..k]);
      }
    } else {
      var k := LossShows(l, first, outbox);
    }
  }

  /** So the reader of a client in step lists what a full resend would give it. */
  lemma {:induction false} ReaderInStep(cfg: ShareConfig, s: Share, j: nat, l: Link, first: nat)
    requires InStep(cfg, s, j)
    requires AllFit(l, s.clients[j].outbox) && NothingLost(l, s.clients[j].outbox)
    ensures IdsOf(TableCards(ToldAll(l, first, s.clients[j].outbox))) == Resend(cfg, s.clients[j].peer, s.reported)
  {
    hide ToldAll, Resend;
    NothingLostLists(l, first, s.clients[j].outbox);
  }

  /** From the empty list on: where the client accepts every card and its reader loses none,
      the reader lists in the end exactly the ids of the share list. */
  lemma {:induction false} ReaderListsAll(cfg: ShareConfig, events: seq<Event>, k: nat, l: Link, first: nat)
    requires k < |events| && events[k].Connecting? && Unwrapped(After(cfg, H.Empty(), events).count)
    requires forall i :: 0 <= i < |events| ==> WellFormed(events[i])
    requires AllAccepted(cfg, events[k].peer, After(cfg, H.Empty(), events[..k]).reported)
    requires forall i :: k < i < |events| ==> Welcomes(cfg, events[k].peer, events[i], H.ClientsBefore(cfg, events, k))
    requires var j := H.ClientsBefore(cfg, events, k);
             var clients := After(cfg, H.Empty(), events).clients;
             j < |clients| && AllFit(l, clients[j].outbox) && NothingLost(l, clients[j].outbox)
    ensures var after := After(cfg, H.Empty(), events);
            IdsOf(TableCards(ToldAll(l, first, after.clients[H.ClientsBefore(cfg, events, k)].outbox))) ==
            set c | c in after.reported :: c.id
  {
    hide After, ToldAll, ShareUpdate.Held, InStep, NothingLost, AllFit, Welcomes, AllAccepted;
    H.WholeRunHoldsAll(cfg, events, k);
    NothingLostLists(l, first, After(cfg, H.Empty(), events).clients[H.ClientsBefore(cfg, events, k)].outbox);
  }

  // ---------------------------------------------------------------- a reader that lists less

  /** One card of a node x, as received through a reader of this group. */
  function Through(grp: nat, x: NodeId): Card {
    Card(0, 1, 0x0100, 1, 10, Zeros(8), [], [], [], [x], Some(grp), RemoteCard, None, {grp}, 10, 0, false)
  }

  /** A client in both groups, and a reader without filters. */
  function BothGroups(cfg: ShareConfig, server: NodeId, own: NodeId): Link {
    Link(server, cfg, Peer(own, {1, 2}, (c, ps, t) => true, 255, 10, 1), c => NO_SERVICES, false, {},
         S.OpenReader(), cfg, own)
  }

  /** The card is listed twice, once a group. The client connects, then the first group's
      reader loses the card. */
  function GroupRun(l: Link, x: NodeId): seq<Event> {
    [Updating([Through(1, x), Through(2, x)], 0), Connecting(l.peer), Updating([Through(2, x)], 0)]
  }

  function GroupMessages(x: NodeId): seq<Msg> {
    [NewCard(Through(1, x).(id := FIRST_ID)), NewCard(Through(2, x).(id := FIRST_ID + 1)), Removed(FIRST_ID)]
  }

  lemma {:induction false} AfterThree(cfg: ShareConfig, s: Share, a: Event, b: Event, c: Event)
    ensures After(cfg, s, [a, b, c]) == Happens(cfg, Happens(cfg, Happens(cfg, s, a), b), c)
  {
    hide Happens;
    assert [a, b, c][..2] == [a, b] && [a, b][..1] == [a] && [a][..0] == [];
    assert After(cfg, s, []) == s;
    assert After(cfg, s, [a]) == Happens(cfg, s, a);
    assert After(cfg, s, [a, b]) == Happens(cfg, Happens(cfg, s, a), b);
  }

  lemma {:induction false} BothAccepted(cfg: ShareConfig, server: NodeId, own: NodeId, x: NodeId, grp: nat, id: u32)
    requires own != x && (grp == 1 || grp == 2)
    ensures var l := BothGroups(cfg, server, own);
            var c := Through(grp, x).(id := id);
            Accepts(cfg, l.peer, c) && ValidForClient(cfg, l.peer, c) && NewReshare(cfg, l.peer, c) == 10
  {
    assert grp in {grp} * {1, 2};
  }

  lemma {:induction false} NothingToTakeOver(c: Card, d: Card)
    ensures Compare([], [c, d], 0) == Compared([], [Entry(c, None), Entry(d, None)])
  {
    hide SameCard;
    assert [c, d][..1] == [c] && [c][..0] == [];
    assert Compare([], [], 0) == Compared([], []);
    assert Compare([], [c], 0) == Compared([], [Entry(c, None)]);
  }

  lemma {:induction false} AnnouncedToNobody(cfg: ShareConfig, c: Card, d: Card)
    ensures Announce(cfg, [Entry(c, None), Entry(d, None)], [], 0) == Share([c, d], 0, [])
  {
    var es := [Entry(c, None), Entry(d, None)];
    assert es[..1] == [Entry(c, None)] && es[..1][..0] == [];
    assert Announce(cfg, [], [], 0) == Share([], 0, []);
    assert Announce(cfg, es[..1], [], 0) == Share([c], 0, []);
  }

  /** Before any client is there, the cards are only listed. */
  lemma {:induction false} ListedFirst(cfg: ShareConfig, c: Card, d: Card)
    ensures Update(cfg, H.Empty(), [c, d], 0) == Share([c, d], 0, [])
  {
    hide Compare, Announce;
    var es := [Entry(c, None), Entry(d, None)];
    NothingToTakeOver(c, d);
    AnnouncedToNobody(cfg, c, d);
    assert Withdraw(cfg, [], []) == [];
  }

  lemma {:induction false} BothReported(cfg: ShareConfig, p: Peer, c: Card, d: Card)
    requires c.id == 0 && d.id == 0 && Accepts(cfg, p, c) && Accepts(cfg, p, d)
    ensures var c1, d1 := c.(id := FIRST_ID), d.(id := FIRST_ID + 1);
            Connect(cfg, Share([c, d], 0, []), p) == Share([c1, d1], 2, [Client(p, [NewCard(c1), NewCard(d1)], true)])
  {
    hide Accepts;
    var c1, d1 := c.(id := FIRST_ID), d.(id := FIRST_ID + 1);
    var client := Client(p, [], true);
    assert [c, d][..1] == [c];
    ReportOne(cfg, c, client, 0);
    assert IdOf(0) == FIRST_ID && IdOf(1) == FIRST_ID + 1;
    assert [] + [NewCard(c1)] == [NewCard(c1)];
    assert ReportAll(cfg, [c], client, 0) == Report([c1], Client(p, [NewCard(c1)], true), 1);
    assert [NewCard(c1)] + [NewCard(d1)] == [NewCard(c1), NewCard(d1)];
  }

  lemma {:induction false} SameCardIgnoresIds(a: Card, b: Card, c: Card)
    requires a == b.(id := a.id)
    ensures SameCard(a, c) <==> SameCard(b, c)
    ensures SameCard(a, b) <==> SameCard(b, b)
  {
  }

  lemma {:induction false} FirstWithdrawn(cfg: ShareConfig, p: Peer, c: Card, d: Card, outbox: seq<Msg>)
    requires c.id != 0 && d.cardType.RemoteCard? && c.cardType.RemoteCard? && !SameCard(d, c) && SameCard(d, d)
    requires ValidForClient(cfg, p, c)
    ensures Update(cfg, Share([c, d], 2, [Client(p, outbox, true)]), [d.(id := 0)], 0) ==
            Share([d], 2, [Client(p, outbox + [Removed(c.id)], true)])
  {
    hide ValidForClient, SameCard;
    var offered := d.(id := 0);
    SameCardIgnoresIds(offered, d, c);
    assert [c, d][1..] == [d];
    assert FindReported([d], offered, 0) == 0;
    assert FindReported([c, d], offered, 0) == 1;
    assert [offered][..0] == [];
    var es := [Entry(d, Some(d))];
    assert Compare([c, d], [offered], 0) == Compared([c], es);
    assert [c][..0] == [];
    assert Withdrawals(cfg, p, [c]) == [Removed(c.id)];
    var w := Withdraw(cfg, [Client(p, outbox, true)], [c]);
    assert w == [Client(p, outbox + [Removed(c.id)], true)];
    assert es[..0] == [];
    assert Announce(cfg, [], w, 2) == Share([], 2, w);
  }

  lemma {:induction false} GroupsApart(x: NodeId)
    ensures var c1, d1 := Through(1, x).(id := FIRST_ID), Through(2, x).(id := FIRST_ID + 1);
            !SameCard(d1, c1) && SameCard(d1, d1)
  {
    assert 1 in Through(1, x).grp && 1 !in Through(2, x).grp;
  }

  lemma {:induction false} ServerTells(cfg: ShareConfig, server: NodeId, own: NodeId, x: NodeId)
    requires own != x
    ensures var l := BothGroups(cfg, server, own);
            After(cfg, H.Empty(), GroupRun(l, x)) ==
            Share([Through(2, x).(id := FIRST_ID + 1)], 2, [Client(l.peer, GroupMessages(x), true)])
  {
    hide Update, Connect, Accepts, ValidForClient, SameCard;
    var l := BothGroups(cfg, server, own);
    var c, d := Through(1, x), Through(2, x);
    var c1, d1 := c.(id := FIRST_ID), d.(id := FIRST_ID + 1);
    AfterThree(cfg, H.Empty(), Updating([c, d], 0), Connecting(l.peer), Updating([d], 0));
    ListedFirst(cfg, c, d);
    BothAccepted(cfg, server, own, x, 1, 0);
    BothAccepted(cfg, server, own, x, 2, 0);
    BothAccepted(cfg, server, own, x, 1, FIRST_ID);
    BothReported(cfg, l.peer, c, d);
    GroupsApart(x);
    var outbox := [NewCard(c1), NewCard(d1)];
    FirstWithdrawn(cfg, l.peer, c1, d1, outbox);
    assert outbox + [Removed(FIRST_ID)] == GroupMessages(x);
  }

  lemma {:induction false} SmallFits(l: Link, c: Card)
    requires c.providers == [] && |c.remoteNodes| == 1 && !l.ext
    ensures Fits(l, c)
  {
    hide Encode, Fixed, Counts, ProviderParts, SidParts, NodeParts, NodeCount, Flatten, Level;
    var s := c.(reshare := Level(l, c));
    NoSids(s, l.services(c));
    Layout(s, l.services(c), Some(l.server), l.ext, AuAllowed(l, c), []);
  }

  lemma {:induction false} BothArrive(cfg: ShareConfig, server: NodeId, own: NodeId, x: NodeId, grp: nat, id: u32)
    requires own != x && own != server && (grp == 1 || grp == 2)
    ensures var l := BothGroups(cfg, server, own);
            var c := Through(grp, x).(id := id);
            Fits(l, c) && Arrives(l, c).Some?
  {
    hide Arrives, Encode;
    var l := BothGroups(cfg, server, own);
    var c := Through(grp, x).(id := id);
    BothAccepted(cfg, server, own, x, grp, id);
    assert Fits(l, c) by { SmallFits(l, c); }
    AdmittedExactly(l, c);
    assert Path(c, Some(server)) == [x, server];
  }

  lemma {:induction false} HeldInTheEnd(x: NodeId)
    ensures ShareUpdate.Held(GroupMessages(x)) == {FIRST_ID + 1}
  {
    hide Through;
    var c1, d1 := Through(1, x).(id := FIRST_ID), Through(2, x).(id := FIRST_ID + 1);
    NothingHeld();
    HeldAppend([], NewCard(c1));
    HeldAppend([NewCard(c1)], NewCard(d1));
    HeldAppend([NewCard(c1), NewCard(d1)], Removed(FIRST_ID));
    assert [] + [NewCard(c1)] == [NewCard(c1)];
    assert [NewCard(c1)] + [NewCard(d1)] == [NewCard(c1), NewCard(d1)];
    assert [NewCard(c1), NewCard(d1)] + [Removed(FIRST_ID)] == GroupMessages(x);
  }

  lemma {:induction false} SomeListed(t: R.Table)
    ensures t.cards != [] ==> TableCards(t) != {}
  {
    if t.cards != [] {
      assert t.cards[0].card in TableCards(t);
    }
  }

  lemma {:induction false} RemovalTold(l: Link, t: R.Table, id: u32)
    ensures Told(l, t, Removed(id)) == R.RemoveFrom(t, id, 0)
  {
    hide R.RemoveFrom;
  }

  lemma {:induction false} ListedInTheEnd(cfg: ShareConfig, server: NodeId, own: NodeId, x: NodeId, first: nat)
    requires own != x && own != server
    ensures ToldAll(BothGroups(cfg, server, own), first, GroupMessages(x)).cards == []
  {
    hide Arrives, Fits, Told;
    var l := BothGroups(cfg, server, own);
    var ms := GroupMessages(x);
    var c1, d1 := ms[0].card, ms[1].card;
    BothArrive(cfg, server, own, x, 1, FIRST_ID);
    BothArrive(cfg, server, own, x, 2, FIRST_ID + 1);
    assert ms[..2][..1] == ms[..1] && ms[..1][..0] == [];
    var t0, t1, t2, t3 := ToldAll(l, first, []), ToldAll(l, first, ms[..1]), ToldAll(l, first, ms[..2]), ToldAll(l, first, ms);
    NothingMirrors(l, first);
    ToldMirrors(l, {}, t0, ms[0]);
    assert Takes(l, {}, ms[0]);
    assert Stands({}, ms[0]) == {c1};
    AnnouncedCards(l, t1, d1);
    AlikeIsSame(l, c1, d1);
    KnownIfAlike(l, {c1}, t1, d1);
    assert c1 in {c1} && Alike(l, c1, d1);
    assert TableCards(t2) == TableCards(t1) == {AsListed(l, c1)};
    RemovedCards(t2, FIRST_ID, 0);
    assert TableCards(t3) == {} by { RemovalTold(l, t2, FIRST_ID); }
    SomeListed(t3);
  }

  /** Server and client agree that one card is shared, the reader lists none: the two cards
      were one to it, so it dropped the second, and then lost the first. */
  lemma {:induction false} GroupsCollapse(cfg: ShareConfig, server: NodeId, own: NodeId, x: NodeId, first: nat)
    requires own != x && own != server
    ensures var l := BothGroups(cfg, server, own);
            var s := After(cfg, H.Empty(), GroupRun(l, x));
            && |s.clients| == 1 && s.clients[0].peer == l.peer
            && ShareUpdate.Held(s.clients[0].outbox) == Resend(cfg, l.peer, s.reported) == {FIRST_ID + 1}
            && ToldAll(l, first, s.clients[0].outbox).cards == []
  {
    hide After, Accepts, ToldAll;
    var l := BothGroups(cfg, server, own);
    ServerTells(cfg, server, own, x);
    BothAccepted(cfg, server, own, x, 2, FIRST_ID + 1);
    HeldInTheEnd(x);
    ListedInTheEnd(cfg, server, own, x, first);
  }
}
