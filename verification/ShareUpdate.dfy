/**
 The share list and its clients: update_card_list compares a freshly built list with the
 one reported before, withdraws what has gone and announces what is new, while
 cc_srv_report_cards sends the whole list to a client that has just connected.

 The 32 CAID buckets of the program are one sequence here, in bucket order; cards in
 different buckets are never the same card (DifferentBucketsDiffer).
 */
module ShareUpdate {
  import opened Bytes
  import opened Cards
  import opened Forwarding

  datatype Msg = NewCard(card: Card) | Removed(id: u32)

  datatype Client = Client(peer: Peer, outbox: seq<Msg>, connected: bool)

  /** count is how many share ids have been handed out so far. */
  datatype Share = Share(reported: seq<Card>, count: nat, clients: seq<Client>)

  const FIRST_ID := 0x64

  /** The k-th id handed out; the counter has 32 bits. */
  function IdOf(k: nat): u32 {
    (FIRST_ID + k) % 0x1_0000_0000
  }

  /** No id has wrapped yet. */
  ghost predicate Unwrapped(count: nat) {
    FIRST_ID + count <= 0x1_0000_0000
  }

  function Bucket(caid: u16): nat {
    caid / 256 % 32
  }

  lemma {:induction false} DifferentBucketsDiffer(a: Card, b: Card)
    ensures Bucket(a.caid) != Bucket(b.caid) ==> !SameCard(a, b)
  {
  }

  // ---------------------------------------------------------------- sending

  datatype Sent = Sent(card: Card, client: Client, count: nat)

  function SendToClient(cfg: ShareConfig, client: Client, card: Card, count: nat): Sent {
    if !client.connected || !Accepts(cfg, client.peer, card) then Sent(card, client, count)
    else
      var c := if card.id == 0 then card.(id := IdOf(count)) else card;
      Sent(c, client.(outbox := client.outbox + [NewCard(c)]), if card.id == 0 then count + 1 else count)
  }

  datatype SentAll = SentAll(card: Card, clients: seq<Client>, count: nat)

  function SendToAll(cfg: ShareConfig, clients: seq<Client>, card: Card, count: nat): (r: SentAll)
    ensures |r.clients| == |clients|
    decreases |clients|
  {
    if clients == [] then SentAll(card, [], count)
    else
      var n := |clients| - 1;
      var p := SendToAll(cfg, clients[..n], card, count);
      var s := SendToClient(cfg, clients[n], p.card, p.count);
      SentAll(s.card, p.clients + [s.client], s.count)
  }

  // ---------------------------------------------------------------- comparing the lists

  predicate TimedOut(c: Card, now: int) {
    !c.cardType.RemoteCard? && c.timeout < now
  }

  /** Where the card is already reported, or the length of the list. */
  function FindReported(was: seq<Card>, c: Card, now: int): (i: nat)
    ensures i <= |was|
    ensures forall k :: 0 <= k < i ==> !(SameCard(c, was[k]) && !TimedOut(was[k], now))
    ensures i < |was| ==> SameCard(c, was[i]) && !TimedOut(was[i], now)
  {
    First(was, (o: Card) => SameCard(c, o) && !TimedOut(o, now))
  }

  /** A card of the new list with, if it was reported before, the card it takes over from. */
  datatype Entry = Entry(card: Card, before: Option<Card>)

  datatype Compared = Compared(left: seq<Card>, entries: seq<Entry>)

  /** One card of the new list takes over from the former list what it finds there. */
  function TakeOver(p: Compared, c: Card, now: int): (r: Compared)
    ensures |r.entries| == |p.entries| + 1 && p.entries <= r.entries
  {
    var i := FindReported(p.left, c, now);
    if i == |p.left| then Compared(p.left, p.entries + [Entry(c, None)])
    else
      var o := p.left[i];
      Compared(p.left[..i] + p.left[i + 1..], p.entries + [Entry(c.(id := o.id, timeout := o.timeout), Some(o))])
  }

  function Compare(was: seq<Card>, offered: seq<Card>, now: int): (r: Compared)
    ensures |r.entries| == |offered|
    decreases |offered|
  {
    if offered == [] then Compared(was, [])
    else
      var n := |offered| - 1;
      TakeOver(Compare(was, offered[..n], now), offered[n], now)
  }

  // ---------------------------------------------------------------- updating and connecting

  /** The withdrawals one client gets for the cards left over. */
  function Withdrawals(cfg: ShareConfig, p: Peer, left: seq<Card>): seq<Msg>
    decreases |left|
  {
    if left == [] then []
    else
      var n := |left| - 1;
      Withdrawals(cfg, p, left[..n]) +
      (if left[n].id != 0 && ValidForClient(cfg, p, left[n]) then [Removed(left[n].id)] else [])
  }

  function Withdraw(cfg: ShareConfig, clients: seq<Client>, left: seq<Card>): (r: seq<Client>)
    ensures |r| == |clients|
  {
    seq(|clients|, i requires 0 <= i < |clients| =>
      if clients[i].connected then
        clients[i].(outbox := clients[i].outbox + Withdrawals(cfg, clients[i].peer, left))
      else clients[i])
  }

  /** Every new card goes to all clients, in order. */
  function Announce(cfg: ShareConfig, entries: seq<Entry>, clients: seq<Client>, count: nat): (r: Share)
    ensures |r.reported| == |entries| && |r.clients| == |clients|
    decreases |entries|
  {
    if entries == [] then Share([], count, clients)
    else
      var n := |entries| - 1;
      var p := Announce(cfg, entries[..n], clients, count);
      if entries[n].before.Some? then p.(reported := p.reported + [entries[n].card])
      else
        var s := SendToAll(cfg, p.clients, entries[n].card, p.count);
        Share(p.reported + [s.card], s.count, s.clients)
  }

  function Update(cfg: ShareConfig, s: Share, offered: seq<Card>, now: int): (r: Share)
    ensures |r.clients| == |s.clients|
  {
    var m := Compare(s.reported, offered, now);
    Announce(cfg, m.entries, Withdraw(cfg, s.clients, m.left), s.count)
  }

  datatype Report = Report(list: seq<Card>, client: Client, count: nat)

  /** The whole list, for one client. */
  function ReportAll(cfg: ShareConfig, list: seq<Card>, client: Client, count: nat): (r: Report)
    ensures |r.list| == |list|
    decreases |list|
  {
    if list == [] then Report([], client, count)
    else
      var n := |list| - 1;
      var p := ReportAll(cfg, list[..n], client, count);
      var s := SendToClient(cfg, p.client, list[n], p.count);
      Report(p.list + [s.card], s.client, s.count)
  }

  function Connect(cfg: ShareConfig, s: Share, p: Peer): Share {
    var r := ReportAll(cfg, s.reported, Client(p, [], true), s.count);
    Share(r.list, r.count, s.clients + [r.client])
  }

  function Disconnect(s: Share, k: nat): Share
    requires k < |s.clients|
  {
    s.(clients := s.clients[k := s.clients[k].(connected := false)])
  }

  // ---------------------------------------------------------------- what a client holds

  function HeldAfter(held: set<u32>, m: Msg): set<u32> {
    if m.NewCard? then held + {m.card.id} else held - {m.id}
  }

  /** The share ids a client has been told of after its messages. What the reader at its end
      makes of them is the matter of ReaderView. */
  function Held(outbox: seq<Msg>): set<u32>
    decreases |outbox|
  {
    if outbox == [] then {}
    else
      HeldAfter(Held(outbox[..|outbox| - 1]), outbox[|outbox| - 1])
  }

  /** The ids of the cards this client accepts: what a full resend would leave it with. */
  ghost function Resend(cfg: ShareConfig, p: Peer, list: seq<Card>): set<u32> {
    set c | c in list && Accepts(cfg, p, c) :: c.id
  }

  ghost predicate IdIssued(id: u32, count: nat) {
    FIRST_ID <= id < FIRST_ID + count
  }

  function Ids(list: seq<Card>): (ids: seq<u32>)
    ensures |ids| == |list|
  {
    seq(|list|, i requires 0 <= i < |list| => list[i].id)
  }

  /** Ids other than 0 are in use at most once, and only ids handed out are in use. */
  ghost predicate FreshlyNumbered(ids: seq<u32>, count: nat) {
    && (forall i :: 0 <= i < |ids| ==> ids[i] == 0 || IdIssued(ids[i], count))
    && (forall i, j :: 0 <= i < j < |ids| && ids[i] != 0 ==> ids[i] != ids[j])
  }

  ghost predicate IdsOk(list: seq<Card>, count: nat) {
    FreshlyNumbered(Ids(list), count)
  }

  ghost predicate InStep(cfg: ShareConfig, s: Share, j: nat) {
    && j < |s.clients| && s.clients[j].connected
    && IdsOk(s.reported, s.count)
    && Held(s.clients[j].outbox) == Resend(cfg, s.clients[j].peer, s.reported)
    && (forall id :: id in Held(s.clients[j].outbox) ==> IdIssued(id, s.count))
  }

  /** On every card that stays in the list the client's verdict is what it was. */
  ghost predicate VerdictsKept(cfg: ShareConfig, p: Peer, entries: seq<Entry>) {
    forall k :: 0 <= k < |entries| && entries[k].before.Some? ==>
                  (Accepts(cfg, p, entries[k].card) <==> Accepts(cfg, p, entries[k].before.value))
  }

  lemma {:induction false} HeldAppend(a: seq<Msg>, m: Msg)
    ensures Held(a + [m]) == HeldAfter(Held(a), m)
  {
  }

  /** The ids a client is told to drop. */
  ghost function GoneIds(cfg: ShareConfig, p: Peer, left: seq<Card>): set<u32> {
    set c | c in left && c.id != 0 && ValidForClient(cfg, p, c) :: c.id
  }

  lemma {:induction false} GoneIdsMore(cfg: ShareConfig, p: Peer, left: seq<Card>, c: Card)
    ensures GoneIds(cfg, p, left + [c]) ==
            GoneIds(cfg, p, left) + (if c.id != 0 && ValidForClient(cfg, p, c) then {c.id} else {})
  {
  }

  lemma {:induction false} NoGoneIds(cfg: ShareConfig, p: Peer)
    ensures GoneIds(cfg, p, []) == {}
  {
  }

  lemma {:induction false} HeldAfterWithdrawals(cfg: ShareConfig, p: Peer, outbox: seq<Msg>, left: seq<Card>)
    ensures Held(outbox + Withdrawals(cfg, p, left)) == Held(outbox) - GoneIds(cfg, p, left)
    decreases |left|
  {
    hide ValidForClient, GoneIds, Held;
    if left == [] {
      assert outbox + Withdrawals(cfg, p, left) == outbox;
      NoGoneIds(cfg, p);
    } else {
      var n := |left| - 1;
      HeldAfterWithdrawals(cfg, p, outbox, left[..n]);
      assert left == left[..n] + [left[n]];
      GoneIdsMore(cfg, p, left[..n], left[n]);
      var w := Withdrawals(cfg, p, left[..n]);
      assert outbox + (w + []) == outbox + w;
      HeldAppend(outbox + w, Removed(left[n].id));
      assert outbox + (w + [Removed(left[n].id)]) == (outbox + w) + [Removed(left[n].id)];
    }
  }

  // ---------------------------------------------------------------- comparing keeps ids apart

  function EntryCards(entries: seq<Entry>): (cs: seq<Card>)
    ensures |cs| == |entries|
  {
    seq(|entries|, i requires 0 <= i < |entries| => entries[i].card)
  }

  ghost predicate Unnumbered(list: seq<Card>) {
    forall i :: 0 <= i < |list| ==> list[i].id == 0
  }

  /** One entry keeps the identity of the card it takes over from, or is as offered. */
  ghost predicate EntryOk(e: Entry, c: Card, was: seq<Card>) {
    if e.before.Some? then
      && e.before.value in was
      && e.card == c.(id := e.before.value.id, timeout := e.before.value.timeout)
      && SameCard(e.card, e.before.value)
    else e.card == c
  }

  lemma {:induction false} MoveToEnd(a: seq<u32>, e: seq<u32>, i: nat, count: nat)
    requires i < |a| && FreshlyNumbered(a + e, count)
    ensures FreshlyNumbered((a[..i] + a[i + 1..]) + (e + [a[i]]), count)
    ensures multiset((a[..i] + a[i + 1..]) + (e + [a[i]])) == multiset(a + e)
  {
    var b := (a[..i] + a[i + 1..]) + (e + [a[i]]);
    assert a == a[..i] + [a[i]] + a[i + 1..];
    assert |b| == |a + e|;
    assert forall k :: 0 <= k < |b| ==> b[k] == (a + e)[if k < i then k else if k < |b| - 1 then k + 1 else i];
  }

  lemma {:induction false} IdsWithout(list: seq<Card>, i: nat)
    requires i < |list|
    ensures Ids(list[..i] + list[i + 1..]) == Ids(list)[..i] + Ids(list)[i + 1..]
  {
  }

  lemma {:induction false} IdsOfMore(entries: seq<Entry>, e: Entry)
    ensures Ids(EntryCards(entries + [e])) == Ids(EntryCards(entries)) + [e.card.id]
  {
  }

  lemma {:induction false} ZeroMore(ids: seq<u32>, count: nat)
    requires FreshlyNumbered(ids, count)
    ensures FreshlyNumbered(ids + [0], count)
  {
  }

  lemma {:induction false} IdAt(list: seq<Card>, i: nat)
    requires i < |list|
    ensures Ids(list)[i] == list[i].id
  {
  }

  lemma {:induction false} TakeOverKeepsIds(p: Compared, c: Card, now: int, count: nat)
    requires FreshlyNumbered(Ids(p.left) + Ids(EntryCards(p.entries)), count) && c.id == 0
    ensures var m := TakeOver(p, c, now);
            && FreshlyNumbered(Ids(m.left) + Ids(EntryCards(m.entries)), count)
            && forall id :: id != 0 ==> multiset(Ids(m.left) + Ids(EntryCards(m.entries)))[id] ==
                                        multiset(Ids(p.left) + Ids(EntryCards(p.entries)))[id]
  {
    hide SameCard, TimedOut, IdIssued, Ids, EntryCards, FreshlyNumbered;
    var i := FindReported(p.left, c, now);
    var left, taken := Ids(p.left), Ids(EntryCards(p.entries));
    if i == |p.left| {
      IdsOfMore(p.entries, Entry(c, None));
      assert left + (taken + [c.id]) == (left + taken) + [0];
      ZeroMore(left + taken, count);
    } else {
      MoveToEnd(left, taken, i, count);
      IdsWithout(p.left, i);
      var o := p.left[i];
      assert left[i] == o.id by { IdAt(p.left, i); }
      IdsOfMore(p.entries, Entry(c.(id := o.id, timeout := o.timeout), Some(o)));
    }
  }

  /** The ids of what is left and of what goes on are together the ids there were, each as
      often, next to 0 for each new card. */
  lemma {:induction false} CompareKeepsIds(was: seq<Card>, offered: seq<Card>, now: int, count: nat)
    requires IdsOk(was, count) && Unnumbered(offered)
    ensures var m := Compare(was, offered, now);
            && FreshlyNumbered(Ids(m.left) + Ids(EntryCards(m.entries)), count)
            && forall id :: id != 0 ==> multiset(Ids(m.left) + Ids(EntryCards(m.entries)))[id] == multiset(Ids(was))[id]
    decreases |offered|
  {
    hide TakeOver, Ids, EntryCards, FreshlyNumbered;
    if offered == [] {
      assert Ids(was) + Ids(EntryCards([])) == Ids(was);
    } else {
      var n := |offered| - 1;
      CompareKeepsIds(was, offered[..n], now, count);
      TakeOverKeepsIds(Compare(was, offered[..n], now), offered[n], now, count);
    }
  }

  /** Entries agree with the cards offered. */
  ghost predicate EntriesOk(entries: seq<Entry>, offered: seq<Card>, was: seq<Card>) {
    |entries| == |offered| && forall k :: 0 <= k < |offered| ==> EntryOk(entries[k], offered[k], was)
  }

  lemma {:induction false} EntriesOkMore(entries: seq<Entry>, offered: seq<Card>, was: seq<Card>, e: Entry, c: Card)
    requires EntriesOk(entries, offered, was) && EntryOk(e, c, was)
    ensures EntriesOk(entries + [e], offered + [c], was)
  {
  }

  lemma {:induction false} NoEntries(was: seq<Card>)
    ensures EntriesOk([], [], was)
  {
  }

  lemma {:induction false} SameCardIgnoresId(c: Card, o: Card)
    ensures SameCard(c, o) ==> SameCard(c.(id := o.id, timeout := o.timeout), o)
  {
  }

  lemma {:induction false} TakeOverEntry(p: Compared, c: Card, now: int, was: seq<Card>)
    requires forall o :: o in p.left ==> o in was
    ensures var m := TakeOver(p, c, now);
            var e := m.entries[|p.entries|];
            && EntryOk(e, c, was) && m.entries == p.entries + [e]
            && (forall o :: o in m.left ==> o in was)
            && (e.before.Some? ==> SameCard(c, e.before.value) && !TimedOut(e.before.value, now))
  {
    hide SameCard, TimedOut;
    var i := FindReported(p.left, c, now);
    if i < |p.left| {
      SameCardIgnoresId(c, p.left[i]);
    }
  }

  lemma {:induction false} CompareEntries(was: seq<Card>, offered: seq<Card>, now: int)
    ensures var m := Compare(was, offered, now);
            EntriesOk(m.entries, offered, was) && (forall c :: c in m.left ==> c in was)
    decreases |offered|
  {
    hide SameCard, TimedOut, EntriesOk, TakeOver;
    if offered == [] {
      assert EntriesOk([], [], was) by { NoEntries(was); }
    } else {
      var n := |offered| - 1;
      CompareEntries(was, offered[..n], now);
      var p := Compare(was, offered[..n], now);
      TakeOverEntry(p, offered[n], now, was);
      assert offered == offered[..n] + [offered[n]];
      EntriesOkMore(p.entries, offered[..n], was, Compare(was, offered, now).entries[n], offered[n]);
    }
  }

  lemma {:induction false} TakeOverCovers(p: Compared, c: Card, now: int, o: Card)
    requires o in p.left
    ensures var m := TakeOver(p, c, now);
            o in m.left || m.entries[|p.entries|].before == Some(o)
  {
    hide SameCard, TimedOut, FindReported;
    var i := FindReported(p.left, c, now);
    if i < |p.left| && p.left[i] != o {
      var k :| 0 <= k < |p.left| && p.left[k] == o;
      assert TakeOver(p, c, now).left[if k < i then k else k - 1] == o;
    }
  }

  /** Nothing of the former list is forgotten. */
  lemma {:induction false} CompareCovers(was: seq<Card>, offered: seq<Card>, now: int, c: Card)
    requires c in was
    ensures var m := Compare(was, offered, now);
            c in m.left || exists k :: 0 <= k < |m.entries| && m.entries[k].before == Some(c)
    decreases |offered|
  {
    hide TakeOver;
    if offered == [] {
    } else {
      var n := |offered| - 1;
      CompareCovers(was, offered[..n], now, c);
      var p := Compare(was, offered[..n], now);
      var m := Compare(was, offered, now);
      if c in p.left {
        TakeOverCovers(p, offered[n], now, c);
      } else {
        var k :| 0 <= k < |p.entries| && p.entries[k].before == Some(c);
        assert m.entries[k].before == Some(c);
      }
    }
  }

  // ---------------------------------------------------------------- what sending does to one client

  lemma {:induction false} AcceptsIgnoresId(cfg: ShareConfig, p: Peer, a: Card, b: Card)
    requires b.(id := a.id, timeout := a.timeout) == a
    ensures Accepts(cfg, p, a) <==> Accepts(cfg, p, b)
    ensures ValidForClient(cfg, p, a) <==> ValidForClient(cfg, p, b)
  {
  }

  /** What sending a card to one client does: to the card, the counter and the client. */
  lemma {:induction false} SendToClientEffect(cfg: ShareConfig, client: Client, card: Card, count: nat)
    requires Unwrapped(SendToClient(cfg, client, card, count).count)
    ensures var s := SendToClient(cfg, client, card, count);
            var takes := client.connected && Accepts(cfg, client.peer, card);
            && s.client == (if takes then client.(outbox := client.outbox + [NewCard(s.card)]) else client)
            && (if takes && card.id == 0 then s.card == card.(id := FIRST_ID + count) && s.count == count + 1
                else s.card == card && s.count == count)
  {
    hide Accepts;
  }

  lemma {:induction false} SendingCounts(cfg: ShareConfig, client: Client, card: Card, count: nat)
    ensures count <= SendToClient(cfg, client, card, count).count
  {
  }

  lemma {:induction false} SendToAllEffect(cfg: ShareConfig, clients: seq<Client>, card: Card, count: nat)
    requires Unwrapped(SendToAll(cfg, clients, card, count).count)
    ensures var r := SendToAll(cfg, clients, card, count);
            && r.card.(id := card.id) == card
            && (r.card.id == card.id ==> r.count == count)
            && (r.card.id != card.id ==> card.id == 0 && r.card.id == FIRST_ID + count && r.count == count + 1)
            && (forall j :: 0 <= j < |clients| ==>
                              r.clients[j] == if clients[j].connected && Accepts(cfg, clients[j].peer, card)
                                              then clients[j].(outbox := clients[j].outbox + [NewCard(r.card)])
                                              else clients[j])
            && (r.card.id == 0 ==> forall j :: 0 <= j < |clients| ==> !(clients[j].connected && Accepts(cfg, clients[j].peer, card)))
    decreases |clients|
  {
    hide Accepts, SendToClient;
    if clients == [] {
    } else {
      var n := |clients| - 1;
      var p := SendToAll(cfg, clients[..n], card, count);
      SendingCounts(cfg, clients[n], p.card, p.count);
      SendToAllEffect(cfg, clients[..n], card, count);
      SendToClientEffect(cfg, clients[n], p.card, p.count);
      AcceptsIgnoresId(cfg, clients[n].peer, card, p.card);
    }
  }

  /** Ids of cards the client accepted that go on being shared. */
  ghost function KeptIds(cfg: ShareConfig, p: Peer, entries: seq<Entry>): set<u32> {
    set k | 0 <= k < |entries| && entries[k].before.Some? && Accepts(cfg, p, entries[k].before.value) ::
      entries[k].before.value.id
  }

  /** The same cards, judged as they are now. */
  ghost function StillAcceptedIds(cfg: ShareConfig, p: Peer, entries: seq<Entry>): set<u32> {
    set k | 0 <= k < |entries| && entries[k].before.Some? && Accepts(cfg, p, entries[k].card) :: entries[k].card.id
  }

  /** Ids of accepted cards that were not shared before; list holds the cards with their ids. */
  ghost function NewIds(cfg: ShareConfig, p: Peer, entries: seq<Entry>, list: seq<Card>): set<u32>
    requires |entries| == |list|
  {
    set k | 0 <= k < |entries| && entries[k].before.None? && Accepts(cfg, p, list[k]) :: list[k].id
  }

  lemma {:induction false} LeftIdsDiffer(left: seq<Card>, entries: seq<Entry>, k: nat, count: nat)
    requires k < |entries| && FreshlyNumbered(Ids(left) + Ids(EntryCards(entries)), count)
    ensures forall c :: c in left && c.id != 0 ==> c.id != entries[k].card.id
  {
    var all := Ids(left) + Ids(EntryCards(entries));
    assert all[|left| + k] == entries[k].card.id;
    forall c | c in left && c.id != 0 ensures c.id != entries[k].card.id {
      var i :| 0 <= i < |left| && left[i] == c;
      assert all[i] == c.id;
    }
  }

  /** A client in step keeps, after the withdrawals, exactly its cards that are still shared. */
  lemma {:induction false} WithdrawalsExact(cfg: ShareConfig, s: Share, j: nat, offered: seq<Card>, now: int)
    requires InStep(cfg, s, j) && Unnumbered(offered)
    ensures var m := Compare(s.reported, offered, now);
            Held(Withdraw(cfg, s.clients, m.left)[j].outbox) == KeptIds(cfg, s.clients[j].peer, m.entries)
  {
    hide SameCard, TimedOut, Compare, NewReshare, Held;
    var m := Compare(s.reported, offered, now);
    var p := s.clients[j].peer;
    var outbox := s.clients[j].outbox;
    HeldAfterWithdrawals(cfg, p, outbox, m.left);
    CompareKeepsIds(s.reported, offered, now, s.count);
    CompareEntries(s.reported, offered, now);
    var gone := GoneIds(cfg, p, m.left);
    forall id | id in Held(outbox) && id !in gone ensures id in KeptIds(cfg, p, m.entries) {
      var c :| c in s.reported && Accepts(cfg, p, c) && c.id == id;
      CompareCovers(s.reported, offered, now, c);
    }
    forall id | id in KeptIds(cfg, p, m.entries) ensures id in Held(outbox) && id !in gone {
      var k :| 0 <= k < |m.entries| && m.entries[k].before.Some? && Accepts(cfg, p, m.entries[k].before.value) &&
               m.entries[k].before.value.id == id;
      assert EntryOk(m.entries[k], offered[k], s.reported);
      assert id in Resend(cfg, p, s.reported);
      LeftIdsDiffer(m.left, m.entries, k, s.count);
    }
  }

  /** The listed card is the entry's, with an id from the range handed out if it is new. */
  ghost predicate ListedAs(c: Card, e: Entry, from: nat, to: nat) {
    if e.before.Some? then c == e.card
    else c.(id := 0) == e.card && (c.id == 0 || FIRST_ID + from <= c.id < FIRST_ID + to)
  }

  ghost predicate NewOnesUnnumbered(entries: seq<Entry>) {
    forall k :: 0 <= k < |entries| && entries[k].before.None? ==> entries[k].card.id == 0
  }

  ghost predicate NewIdsDiffer(entries: seq<Entry>, list: seq<Card>)
    requires |entries| == |list|
  {
    forall k, l | 0 <= k < l < |entries| && entries[k].before.None? && entries[l].before.None? && list[k].id != 0 ::
      list[k].id != list[l].id
  }

  lemma {:induction false} SendToAllCounts(cfg: ShareConfig, clients: seq<Client>, card: Card, count: nat)
    ensures count <= SendToAll(cfg, clients, card, count).count
    decreases |clients|
  {
    hide Accepts;
    if clients == [] {
    } else {
      SendToAllCounts(cfg, clients[..|clients| - 1], card, count);
    }
  }

  lemma {:induction false} AnnounceCounts(cfg: ShareConfig, entries: seq<Entry>, clients: seq<Client>, count: nat)
    requires entries != []
    ensures Announce(cfg, entries[..|entries| - 1], clients, count).count <= Announce(cfg, entries, clients, count).count
  {
    var n := |entries| - 1;
    var p := Announce(cfg, entries[..n], clients, count);
    SendToAllCounts(cfg, p.clients, entries[n].card, p.count);
  }

  /** One entry more, listed with an id from the range handed out for it. */
  lemma {:induction false} ListedOneMore(entries: seq<Entry>, list: seq<Card>, e: Entry, c: Card, from: nat, mid: nat, to: nat)
    requires |entries| == |list| && NewIdsDiffer(entries, list) && from <= mid <= to
    requires forall k :: 0 <= k < |list| ==> ListedAs(list[k], entries[k], from, mid)
    requires ListedAs(c, e, mid, to)
    ensures NewIdsDiffer(entries + [e], list + [c])
    ensures forall k :: 0 <= k < |list + [c]| ==> ListedAs((list + [c])[k], (entries + [e])[k], from, to)
  {
  }

  lemma {:induction false} SentAs(cfg: ShareConfig, clients: seq<Client>, e: Entry, count: nat)
    requires e.before.None? && e.card.id == 0 && Unwrapped(SendToAll(cfg, clients, e.card, count).count)
    ensures var r := SendToAll(cfg, clients, e.card, count); ListedAs(r.card, e, count, r.count)
  {
    hide Accepts, SendToAll;
    SendToAllEffect(cfg, clients, e.card, count);
  }

  lemma {:induction false} StaysAs(e: Entry, from: nat, to: nat)
    requires e.before.Some?
    ensures ListedAs(e.card, e, from, to)
  {
  }

  lemma {:induction false} NoIdsDiffer()
    ensures NewIdsDiffer([], [])
  {
  }

  /** New cards get ids never handed out before. */
  lemma {:induction false} AnnounceNumbers(cfg: ShareConfig, entries: seq<Entry>, clients: seq<Client>, count: nat)
    requires Unwrapped(Announce(cfg, entries, clients, count).count) && NewOnesUnnumbered(entries)
    ensures var a := Announce(cfg, entries, clients, count);
            && count <= a.count
            && (forall k :: 0 <= k < |entries| ==> ListedAs(a.reported[k], entries[k], count, a.count))
            && NewIdsDiffer(entries, a.reported)
    decreases |entries|
  {
    hide SendToAll, ListedAs, NewIdsDiffer;
    if entries == [] {
      assert NewIdsDiffer([], []) by { NoIdsDiffer(); }
    } else {
      var n := |entries| - 1;
      var e := entries[n];
      AnnounceCounts(cfg, entries, clients, count);
      AnnounceNumbers(cfg, entries[..n], clients, count);
      var p, a := Announce(cfg, entries[..n], clients, count), Announce(cfg, entries, clients, count);
      if e.before.None? {
        SentAs(cfg, p.clients, e, p.count);
      } else {
        assert ListedAs(e.card, e, p.count, a.count) by { StaysAs(e, p.count, a.count); }
      }
      ListedOneMore(entries[..n], p.reported, e, a.reported[n], count, p.count, a.count);
      assert entries == entries[..n] + [e] && a.reported == p.reported + [a.reported[n]];
    }
  }

  lemma {:induction false} NewIdsMore(cfg: ShareConfig, p: Peer, entries: seq<Entry>, list: seq<Card>)
    requires |entries| == |list| && entries != []
    ensures var n := |entries| - 1;
            NewIds(cfg, p, entries, list) ==
            NewIds(cfg, p, entries[..n], list[..n]) +
            (if entries[n].before.None? && Accepts(cfg, p, list[n]) then {list[n].id} else {})
  {
  }

  /** What the announcements do to client j: it gains the new cards it accepts, in messages
      that follow everything sent before. */
  lemma {:induction false} AnnounceReaches(cfg: ShareConfig, entries: seq<Entry>, clients: seq<Client>, count: nat, j: nat)
    requires Unwrapped(Announce(cfg, entries, clients, count).count) && NewOnesUnnumbered(entries)
    requires j < |clients| && clients[j].connected
    ensures var a := Announce(cfg, entries, clients, count);
            && a.clients[j].peer == clients[j].peer && a.clients[j].connected
            && Held(a.clients[j].outbox) == Held(clients[j].outbox) + NewIds(cfg, clients[j].peer, entries, a.reported)
            && (0 !in NewIds(cfg, clients[j].peer, entries, a.reported))
            && clients[j].outbox <= a.clients[j].outbox
            && (forall x :: |clients[j].outbox| <= x < |a.clients[j].outbox| ==> a.clients[j].outbox[x].NewCard?)
    decreases |entries|
  {
    hide Accepts, SendToAll;
    if entries == [] {
    } else {
      var n := |entries| - 1;
      var e := entries[n];
      AnnounceCounts(cfg, entries, clients, count);
      AnnounceReaches(cfg, entries[..n], clients, count, j);
      var p := Announce(cfg, entries[..n], clients, count);
      var a := Announce(cfg, entries, clients, count);
      assert a.reported[..n] == p.reported;
      NewIdsMore(cfg, clients[j].peer, entries, a.reported);
      if e.before.None? {
        SendToAllEffect(cfg, p.clients, e.card, p.count);
        AcceptsIgnoresId(cfg, clients[j].peer, e.card, a.reported[n]);
        HeldAppend(p.clients[j].outbox, NewCard(a.reported[n]));
      }
    }
  }

  lemma {:induction false} Numbered(entries: seq<Entry>, list: seq<Card>, from: nat, to: nat)
    requires |entries| == |list| && from <= to && NewIdsDiffer(entries, list)
    requires forall k :: 0 <= k < |list| ==> ListedAs(list[k], entries[k], from, to)
    requires forall k :: 0 <= k < |list| ==> entries[k].card.id == 0 || IdIssued(entries[k].card.id, from)
    requires forall k, l :: 0 <= k < |entries| && 0 <= l < |entries| && k != l && entries[k].card.id != 0 ==>
                              entries[k].card.id != entries[l].card.id
    ensures IdsOk(list, to)
  {
  }

  lemma {:induction false} EntryIdsDiffer(left: seq<Card>, entries: seq<Entry>, count: nat)
    requires FreshlyNumbered(Ids(left) + Ids(EntryCards(entries)), count)
    ensures forall k, l :: 0 <= k < |entries| && 0 <= l < |entries| && k != l && entries[k].card.id != 0 ==>
                             entries[k].card.id != entries[l].card.id
    ensures forall k :: 0 <= k < |entries| ==> entries[k].card.id == 0 || IdIssued(entries[k].card.id, count)
  {
    var all := Ids(left) + Ids(EntryCards(entries));
    assert forall k :: 0 <= k < |entries| ==> entries[k].card.id == all[|left| + k];
  }

  /** The list stays properly numbered. */
  lemma {:induction false} UpdateNumbers(cfg: ShareConfig, s: Share, offered: seq<Card>, now: int)
    requires IdsOk(s.reported, s.count) && Unnumbered(offered)
    requires Unwrapped(Update(cfg, s, offered, now).count)
    ensures IdsOk(Update(cfg, s, offered, now).reported, Update(cfg, s, offered, now).count)
    ensures s.count <= Update(cfg, s, offered, now).count
  {
    hide SameCard, TimedOut, Compare, Announce;
    var m := Compare(s.reported, offered, now);
    var a := Update(cfg, s, offered, now);
    CompareKeepsIds(s.reported, offered, now, s.count);
    CompareEntries(s.reported, offered, now);
    assert forall k :: 0 <= k < |offered| ==> EntryOk(m.entries[k], offered[k], s.reported);
    AnnounceNumbers(cfg, m.entries, Withdraw(cfg, s.clients, m.left), s.count);
    EntryIdsDiffer(m.left, m.entries, s.count);
    assert forall k :: 0 <= k < |a.reported| ==> ListedAs(a.reported[k], m.entries[k], s.count, a.count);
    Numbered(m.entries, a.reported, s.count, a.count);
  }

  lemma {:induction false} ResendParts(cfg: ShareConfig, p: Peer, entries: seq<Entry>, list: seq<Card>, from: nat, to: nat)
    requires |entries| == |list|
    requires forall k :: 0 <= k < |entries| ==> ListedAs(list[k], entries[k], from, to)
    ensures Resend(cfg, p, list) == StillAcceptedIds(cfg, p, entries) + NewIds(cfg, p, entries, list)
  {
  }

  /** An id held for a card no longer accepted is not the id of any accepted card. */
  lemma {:induction false} VerdictLostShows(cfg: ShareConfig, p: Peer, entries: seq<Entry>, list: seq<Card>, left: seq<Card>, from: nat,
                         to: nat, k: nat)
    requires |entries| == |list| && k < |entries| && entries[k].before.Some?
    requires FreshlyNumbered(Ids(left) + Ids(EntryCards(entries)), from)
    requires forall i :: 0 <= i < |entries| ==> ListedAs(list[i], entries[i], from, to)
    requires forall i :: 0 <= i < |entries| && entries[i].before.Some? ==> entries[i].card.id == entries[i].before.value.id
    requires 0 !in KeptIds(cfg, p, entries) && 0 !in NewIds(cfg, p, entries, list)
    requires Accepts(cfg, p, entries[k].card) != Accepts(cfg, p, entries[k].before.value)
    ensures KeptIds(cfg, p, entries) + NewIds(cfg, p, entries, list) !=
            StillAcceptedIds(cfg, p, entries) + NewIds(cfg, p, entries, list)
  {
    hide Accepts;
    EntryIdsDiffer(left, entries, from);
    var id := entries[k].card.id;
    forall i | 0 <= i < |list| && entries[i].before.None? && list[i].id != 0 ensures list[i].id != id {
      assert ListedAs(list[i], entries[i], from, to);
    }
    if Accepts(cfg, p, entries[k].card) {
      assert id in StillAcceptedIds(cfg, p, entries);
      assert id !in KeptIds(cfg, p, entries);
      assert id !in NewIds(cfg, p, entries, list);
    } else {
      assert id in KeptIds(cfg, p, entries);
      assert id !in StillAcceptedIds(cfg, p, entries);
    }
  }

  lemma {:induction false} WithdrawTouches(cfg: ShareConfig, clients: seq<Client>, left: seq<Card>, j: nat)
    requires j < |clients|
    ensures var w := Withdraw(cfg, clients, left);
            w[j].peer == clients[j].peer && w[j].connected == clients[j].connected
  {
  }

  lemma {:induction false} KeptIsStillAccepted(cfg: ShareConfig, p: Peer, entries: seq<Entry>)
    requires VerdictsKept(cfg, p, entries)
    requires forall k :: 0 <= k < |entries| && entries[k].before.Some? ==> entries[k].card.id == entries[k].before.value.id
    ensures KeptIds(cfg, p, entries) == StillAcceptedIds(cfg, p, entries)
  {
  }

  lemma {:induction false} KeptIdsIssued(cfg: ShareConfig, p: Peer, s: Share, entries: seq<Entry>, offered: seq<Card>)
    requires |entries| == |offered| && forall k :: 0 <= k < |offered| ==> EntryOk(entries[k], offered[k], s.reported)
    requires forall id :: id in Resend(cfg, p, s.reported) ==> IdIssued(id, s.count)
    ensures forall id :: id in KeptIds(cfg, p, entries) ==> IdIssued(id, s.count)
  {
  }

  lemma {:induction false} NewIdsIssued(cfg: ShareConfig, p: Peer, entries: seq<Entry>, list: seq<Card>, from: nat, to: nat)
    requires |entries| == |list| && 0 !in NewIds(cfg, p, entries, list)
    requires forall k :: 0 <= k < |entries| ==> ListedAs(list[k], entries[k], from, to)
    ensures forall id :: id in NewIds(cfg, p, entries, list) ==> IdIssued(id, to)
  {
  }

  /** The main result. A client that has been told what a full resend would tell it before an
      update has been told so after it exactly when its verdict on every card that
      stays in the list is unchanged: a card that is taken over with another hop count,
      reshare level or path is not announced again. */
  lemma {:induction false} UpdateExact(cfg: ShareConfig, s: Share, j: nat, offered: seq<Card>, now: int)
    requires InStep(cfg, s, j) && Unnumbered(offered)
    requires Unwrapped(Update(cfg, s, offered, now).count)
    ensures var after := Update(cfg, s, offered, now);
            && IdsOk(after.reported, after.count)
            && (Held(after.clients[j].outbox) == Resend(cfg, s.clients[j].peer, after.reported) <==>
                VerdictsKept(cfg, s.clients[j].peer, Compare(s.reported, offered, now).entries))
            && (VerdictsKept(cfg, s.clients[j].peer, Compare(s.reported, offered, now).entries) ==> InStep(cfg, after, j))
  {
    hide SameCard, TimedOut, Compare, Announce, Accepts, Resend, Withdraw, KeptIds, NewIds, StillAcceptedIds;
    var m := Compare(s.reported, offered, now);
    var p := s.clients[j].peer;
    var w := Withdraw(cfg, s.clients, m.left);
    WithdrawTouches(cfg, s.clients, m.left, j);
    var after := Update(cfg, s, offered, now);
    CompareKeepsIds(s.reported, offered, now, s.count);
    CompareEntries(s.reported, offered, now);
    assert forall k :: 0 <= k < |offered| ==> EntryOk(m.entries[k], offered[k], s.reported);
    WithdrawalsExact(cfg, s, j, offered, now);
    KeptIdsIssued(cfg, p, s, m.entries, offered);
    AnnounceNumbers(cfg, m.entries, w, s.count);
    AnnounceReaches(cfg, m.entries, w, s.count, j);
    UpdateNumbers(cfg, s, offered, now);
    ResendParts(cfg, p, m.entries, after.reported, s.count, after.count);
    NewIdsIssued(cfg, p, m.entries, after.reported, s.count, after.count);
    if VerdictsKept(cfg, p, m.entries) {
      KeptIsStillAccepted(cfg, p, m.entries);
    } else {
      var k :| 0 <= k < |m.entries| && m.entries[k].before.Some? &&
               (Accepts(cfg, p, m.entries[k].card) != Accepts(cfg, p, m.entries[k].before.value));
      VerdictLostShows(cfg, p, m.entries, after.reported, m.left, s.count, after.count, k);
    }
  }

  // ---------------------------------------------------------------- order and identity of the messages

  ghost predicate AllRemovals(ms: seq<Msg>) {
    forall x :: 0 <= x < |ms| ==> ms[x].Removed?
  }

  ghost predicate AllNew(ms: seq<Msg>) {
    forall x :: 0 <= x < |ms| ==> ms[x].NewCard?
  }

  lemma {:induction false} WithdrawalsAreRemovals(cfg: ShareConfig, p: Peer, left: seq<Card>)
    ensures AllRemovals(Withdrawals(cfg, p, left))
    decreases |left|
  {
    hide ValidForClient;
    if left == [] {
    } else {
      WithdrawalsAreRemovals(cfg, p, left[..|left| - 1]);
    }
  }

  /** One update sends a client its withdrawals first and the new cards after them. */
  lemma {:induction false} WithdrawnFirst(cfg: ShareConfig, s: Share, j: nat, offered: seq<Card>, now: int)
    requires j < |s.clients| && s.clients[j].connected && Unnumbered(offered)
    requires Unwrapped(Update(cfg, s, offered, now).count)
    ensures exists removals, news :: AllRemovals(removals) && AllNew(news) &&
                                     Update(cfg, s, offered, now).clients[j].outbox == s.clients[j].outbox + removals + news
  {
    hide SameCard, TimedOut, Compare, Announce, Accepts, Withdrawals;
    var m := Compare(s.reported, offered, now);
    var w := Withdraw(cfg, s.clients, m.left);
    CompareEntries(s.reported, offered, now);
    assert forall k :: 0 <= k < |offered| ==> EntryOk(m.entries[k], offered[k], s.reported);
    AnnounceReaches(cfg, m.entries, w, s.count, j);
    var removals := Withdrawals(cfg, s.clients[j].peer, m.left);
    WithdrawalsAreRemovals(cfg, s.clients[j].peer, m.left);
    var all := Update(cfg, s, offered, now).clients[j].outbox;
    var news := all[|s.clients[j].outbox + removals|..];
    assert all == s.clients[j].outbox + removals + news;
    assert AllNew(news);
  }

  /** An entry takes over only from a listed card that is the same card and has not timed out. */
  lemma {:induction false} TakenOverInTime(was: seq<Card>, offered: seq<Card>, now: int, k: nat)
    requires k < |offered|
    ensures var e := Compare(was, offered, now).entries[k];
            e.before.Some? ==> e.before.value in was && SameCard(offered[k], e.before.value) && !TimedOut(e.before.value, now)
    decreases |offered|
  {
    hide SameCard, TimedOut, TakeOver;
    var n := |offered| - 1;
    if k < n {
      TakenOverInTime(was, offered[..n], now, k);
    } else {
      CompareEntries(was, offered[..n], now);
      TakeOverEntry(Compare(was, offered[..n], now), offered[n], now, was);
    }
  }

  /** A card that stays keeps its id; a card that comes gets one never handed out before. */
  lemma {:induction false} IdsSurvive(cfg: ShareConfig, s: Share, offered: seq<Card>, now: int, k: nat)
    requires IdsOk(s.reported, s.count) && Unnumbered(offered) && k < |offered|
    requires Unwrapped(Update(cfg, s, offered, now).count)
    ensures var after := Update(cfg, s, offered, now);
            var e := Compare(s.reported, offered, now).entries[k];
            && SameCard(after.reported[k], offered[k])
            && (e.before.Some? ==> e.before.value in s.reported && SameCard(e.before.value, after.reported[k]) &&
                                   after.reported[k].id == e.before.value.id && !TimedOut(e.before.value, now))
            && (e.before.None? && after.reported[k].id != 0 ==>
                  !IdIssued(after.reported[k].id, s.count) && IdIssued(after.reported[k].id, after.count) &&
                  forall c :: c in s.reported ==> c.id < after.reported[k].id)
  {
    hide Compare, Announce, Accepts, TimedOut;
    var m := Compare(s.reported, offered, now);
    var after := Update(cfg, s, offered, now);
    CompareEntries(s.reported, offered, now);
    assert forall i :: 0 <= i < |offered| ==> EntryOk(m.entries[i], offered[i], s.reported);
    AnnounceNumbers(cfg, m.entries, Withdraw(cfg, s.clients, m.left), s.count);
    assert ListedAs(after.reported[k], m.entries[k], s.count, after.count);
    TakenOverInTime(s.reported, offered, now, k);
    forall c | c in s.reported ensures c.id < FIRST_ID + s.count {
      var i :| 0 <= i < |s.reported| && s.reported[i] == c;
      assert Ids(s.reported)[i] == c.id;
    }
  }

  // ---------------------------------------------------------------- connecting

  /** The same cards, some of which got their first id. */
  ghost predicate Renumbered(former: seq<Card>, list: seq<Card>, from: nat, to: nat) {
    && |former| == |list|
    && (forall k :: 0 <= k < |list| ==> list[k].(id := former[k].id) == former[k])
    && (forall k :: 0 <= k < |list| ==> list[k].id == former[k].id ||
                                        (former[k].id == 0 && FIRST_ID + from <= list[k].id < FIRST_ID + to))
    && (forall k, l :: 0 <= k < l < |list| && list[k].id != former[k].id && list[l].id != former[l].id ==>
                         list[k].id != list[l].id)
  }

  lemma {:induction false} SendOneEffect(cfg: ShareConfig, client: Client, card: Card, count: nat)
    requires client.connected && Unwrapped(SendToClient(cfg, client, card, count).count)
    ensures var s := SendToClient(cfg, client, card, count);
            && s.card.(id := card.id) == card
            && (if s.card.id == card.id then s.count == count
                else card.id == 0 && s.card.id == FIRST_ID + count && s.count == count + 1)
            && s.client.peer == client.peer && s.client.connected
            && (Accepts(cfg, client.peer, s.card) ==> s.card.id != 0)
            && Held(s.client.outbox) == Held(client.outbox) + (if Accepts(cfg, client.peer, s.card) then {s.card.id} else {})
  {
  }

  lemma {:induction false} RenumberedOneMore(former: seq<Card>, list: seq<Card>, c: Card, d: Card, from: nat, mid: nat, to: nat)
    requires Renumbered(former, list, from, mid) && from <= mid <= to && d.(id := c.id) == c
    requires d.id == c.id || (c.id == 0 && FIRST_ID + mid <= d.id < FIRST_ID + to)
    ensures Renumbered(former + [c], list + [d], from, to)
  {
  }

  lemma {:induction false} NoneRenumbered(count: nat)
    ensures Renumbered([], [], count, count)
  {
  }

  lemma {:induction false} ReportAllNumbers(cfg: ShareConfig, list: seq<Card>, client: Client, count: nat)
    requires client.connected && Unwrapped(ReportAll(cfg, list, client, count).count)
    ensures var r := ReportAll(cfg, list, client, count);
            && count <= r.count
            && Renumbered(list, r.list, count, r.count)
            && r.client.peer == client.peer && r.client.connected
    decreases |list|
  {
    hide Accepts, SendToClient, Renumbered, Held;
    if list == [] {
      NoneRenumbered(count);
    } else {
      var n := |list| - 1;
      var p, r := ReportAll(cfg, list[..n], client, count), ReportAll(cfg, list, client, count);
      SendingCounts(cfg, p.client, list[n], p.count);
      ReportAllNumbers(cfg, list[..n], client, count);
      SendOneEffect(cfg, p.client, list[n], p.count);
      RenumberedOneMore(list[..n], p.list, list[n], r.list[n], count, p.count, r.count);
      assert list == list[..n] + [list[n]] && r.list == p.list + [r.list[n]];
    }
  }

  lemma {:induction false} NothingResent(cfg: ShareConfig, p: Peer)
    ensures Resend(cfg, p, []) == {}
  {
  }

  lemma {:induction false} ResendMore(cfg: ShareConfig, p: Peer, list: seq<Card>, c: Card)
    ensures Resend(cfg, p, list + [c]) == Resend(cfg, p, list) + (if Accepts(cfg, p, c) then {c.id} else {})
  {
  }

  lemma {:induction false} ReportAllHeld(cfg: ShareConfig, list: seq<Card>, client: Client, count: nat)
    requires client.connected && Unwrapped(ReportAll(cfg, list, client, count).count)
    ensures var r := ReportAll(cfg, list, client, count);
            && Held(r.client.outbox) == Held(client.outbox) + Resend(cfg, client.peer, r.list)
            && 0 !in Resend(cfg, client.peer, r.list)
    decreases |list|
  {
    hide Accepts, SendToClient, Held, Resend, Renumbered;
    if list == [] {
      NothingResent(cfg, client.peer);
    } else {
      var n := |list| - 1;
      var p := ReportAll(cfg, list[..n], client, count);
      var r := ReportAll(cfg, list, client, count);
      SendingCounts(cfg, p.client, list[n], p.count);
      ReportAllNumbers(cfg, list[..n], client, count);
      ReportAllHeld(cfg, list[..n], client, count);
      SendOneEffect(cfg, p.client, list[n], p.count);
      ResendMore(cfg, client.peer, p.list, r.list[n]);
      assert r.list == p.list + [r.list[n]];
    }
  }

  lemma {:induction false} RenumberedIdsOk(former: seq<Card>, list: seq<Card>, from: nat, to: nat)
    requires IdsOk(former, from) && from <= to && Renumbered(former, list, from, to)
    ensures IdsOk(list, to)
  {
    var ids := Ids(former);
    assert forall k :: 0 <= k < |list| ==> ids[k] == former[k].id;
    forall k | 0 <= k < |list| ensures list[k].id == 0 || IdIssued(list[k].id, to) {
      assert ids[k] == 0 || IdIssued(ids[k], from);
    }
    forall k, l | 0 <= k < l < |list| && list[k].id != 0 ensures list[k].id != list[l].id {
      assert ids[k] == 0 || IdIssued(ids[k], from);
      assert ids[l] == 0 || IdIssued(ids[l], from);
      assert ids[k] != 0 ==> ids[k] != ids[l];
    }
  }

  lemma {:induction false} NothingHeld()
    ensures Held([]) == {}
  {
  }

  lemma {:induction false} ResendIssued(cfg: ShareConfig, p: Peer, list: seq<Card>, count: nat)
    requires IdsOk(list, count) && 0 !in Resend(cfg, p, list)
    ensures forall id :: id in Resend(cfg, p, list) ==> IdIssued(id, count)
  {
    hide Accepts;
    forall id | id in Resend(cfg, p, list) ensures IdIssued(id, count) {
      var c :| c in list && Accepts(cfg, p, c) && c.id == id;
      var k :| 0 <= k < |list| && list[k] == c;
      assert Ids(list)[k] == id;
    }
  }

  /** A client that has just connected is in step. */
  lemma {:induction false} ConnectInStep(cfg: ShareConfig, s: Share, p: Peer)
    requires IdsOk(s.reported, s.count) && Unwrapped(Connect(cfg, s, p).count)
    ensures InStep(cfg, Connect(cfg, s, p), |s.clients|)
  {
    hide Accepts, ReportAll, Resend, Held;
    ReportAllNumbers(cfg, s.reported, Client(p, [], true), s.count);
    ReportAllHeld(cfg, s.reported, Client(p, [], true), s.count);
    var after := Connect(cfg, s, p);
    RenumberedIdsOk(s.reported, after.reported, s.count, after.count);
    assert Held([]) == {} by { NothingHeld(); }
    ResendIssued(cfg, p, after.reported, after.count);
  }

  lemma {:induction false} SameResend(cfg: ShareConfig, q: Peer, a: seq<Card>, b: seq<Card>)
    requires |a| == |b|
    requires forall k :: 0 <= k < |a| ==> (Accepts(cfg, q, a[k]) <==> Accepts(cfg, q, b[k]))
    requires forall k :: 0 <= k < |a| && Accepts(cfg, q, a[k]) ==> a[k] == b[k]
    ensures Resend(cfg, q, a) == Resend(cfg, q, b)
  {
  }

  /** Clients connected before stay in step when another one connects. */
  lemma {:induction false} ConnectKeepsInStep(cfg: ShareConfig, s: Share, p: Peer, j: nat)
    requires InStep(cfg, s, j) && Unwrapped(Connect(cfg, s, p).count)
    ensures InStep(cfg, Connect(cfg, s, p), j)
  {
    hide Accepts, ReportAll, Held;
    ReportAllNumbers(cfg, s.reported, Client(p, [], true), s.count);
    ReportAllHeld(cfg, s.reported, Client(p, [], true), s.count);
    var after := Connect(cfg, s, p);
    RenumberedIdsOk(s.reported, after.reported, s.count, after.count);
    var q := s.clients[j].peer;
    assert forall id :: id in Resend(cfg, q, s.reported) ==> id != 0;
    forall k | 0 <= k < |s.reported| && Accepts(cfg, q, s.reported[k]) ensures after.reported[k] == s.reported[k] {
      assert s.reported[k] in s.reported;
      assert s.reported[k].id in Resend(cfg, q, s.reported);
    }
    forall k | 0 <= k < |s.reported| ensures Accepts(cfg, q, after.reported[k]) <==> Accepts(cfg, q, s.reported[k]) {
      AcceptsIgnoresId(cfg, q, s.reported[k], after.reported[k]);
    }
    SameResend(cfg, q, s.reported, after.reported);
  }

  // ---------------------------------------------------------------- runs

  datatype Event = Updating(offered: seq<Card>, now: int) | Connecting(peer: Peer) | Disconnecting(client: nat)

  function Happens(cfg: ShareConfig, s: Share, e: Event): Share {
    match e
    case Updating(offered, now) => Update(cfg, s, offered, now)
    case Connecting(p) => Connect(cfg, s, p)
    case Disconnecting(k) => if k < |s.clients| then Disconnect(s, k) else s
  }

  function After(cfg: ShareConfig, s: Share, events: seq<Event>): Share
    decreases |events|
  {
    if events == [] then s
    else Happens(cfg, After(cfg, s, events[..|events| - 1]), events[|events| - 1])
  }

  ghost predicate WellFormed(e: Event) {
    e.Updating? ==> Unnumbered(e.offered)
  }

  /** Client j stays connected, and on cards that stay shared its verdict never changes. */
  ghost predicate Steady(cfg: ShareConfig, s: Share, e: Event, j: nat) {
    && (e.Disconnecting? ==> e.client != j)
    && (e.Updating? && j < |s.clients| ==>
          VerdictsKept(cfg, s.clients[j].peer, Compare(s.reported, e.offered, e.now).entries))
  }

  lemma {:induction false} AnnounceGrows(cfg: ShareConfig, entries: seq<Entry>, clients: seq<Client>, count: nat)
    ensures count <= Announce(cfg, entries, clients, count).count
    decreases |entries|
  {
    hide Accepts, SendToAll;
    if entries == [] {
    } else {
      AnnounceCounts(cfg, entries, clients, count);
      AnnounceGrows(cfg, entries[..|entries| - 1], clients, count);
    }
  }

  lemma {:induction false} ReportGrows(cfg: ShareConfig, list: seq<Card>, client: Client, count: nat)
    ensures count <= ReportAll(cfg, list, client, count).count
    decreases |list|
  {
    hide Accepts;
    if list == [] {
    } else {
      ReportGrows(cfg, list[..|list| - 1], client, count);
    }
  }

  lemma {:induction false} CountGrows(cfg: ShareConfig, s: Share, e: Event)
    ensures s.count <= Happens(cfg, s, e).count
  {
    hide Accepts, Compare, SendToAll;
    match e
    case Updating(offered, now) =>
      var m := Compare(s.reported, offered, now);
      AnnounceGrows(cfg, m.entries, Withdraw(cfg, s.clients, m.left), s.count);
    case Connecting(p) => ReportGrows(cfg, s.reported, Client(p, [], true), s.count);
    case Disconnecting(k) =>
  }

  lemma {:induction false} HappensInStep(cfg: ShareConfig, s: Share, e: Event, j: nat)
    requires InStep(cfg, s, j) && WellFormed(e) && Steady(cfg, s, e, j)
    requires Unwrapped(Happens(cfg, s, e).count)
    ensures InStep(cfg, Happens(cfg, s, e), j)
  {
    hide Accepts, Compare, Update, Connect;
    match e
    case Updating(offered, now) => UpdateExact(cfg, s, j, offered, now);
    case Connecting(p) => ConnectKeepsInStep(cfg, s, p, j);
    case Disconnecting(k) =>
  }

  /** Over every run: a client in step stays in step, whatever other clients come and go and
      however often the list is rebuilt, while its own verdicts do not change. */
  lemma {:induction false} RunInStep(cfg: ShareConfig, s: Share, events: seq<Event>, j: nat)
    requires InStep(cfg, s, j)
    requires forall i :: 0 <= i < |events| ==> WellFormed(events[i])
    requires forall i :: 0 <= i < |events| ==> Steady(cfg, After(cfg, s, events[..i]), events[i], j)
    requires Unwrapped(After(cfg, s, events).count)
    ensures InStep(cfg, After(cfg, s, events), j)
    decreases |events|
  {
    hide Accepts, Compare, Happens, Steady, InStep;
    if events == [] {
    } else {
      var n := |events| - 1;
      var before := After(cfg, s, events[..n]);
      CountGrows(cfg, before, events[n]);
      assert forall i :: 0 <= i < n ==> events[..n][..i] == events[..i] && events[..n][i] == events[i];
      RunInStep(cfg, s, events[..n], j);
      HappensInStep(cfg, before, events[n], j);
    }
  }

  ghost predicate AllAccepted(cfg: ShareConfig, p: Peer, list: seq<Card>) {
    forall k :: 0 <= k < |list| ==> Accepts(cfg, p, list[k])
  }

  /** Client j stays, and accepts every card offered. */
  ghost predicate Welcomes(cfg: ShareConfig, p: Peer, e: Event, j: nat) {
    && (e.Disconnecting? ==> e.client != j)
    && (e.Updating? ==> AllAccepted(cfg, p, e.offered))
  }

  /** A listed card is judged like the card offered for it. */
  lemma {:induction false} UpdateAccepted(cfg: ShareConfig, s: Share, p: Peer, offered: seq<Card>, now: int)
    requires AllAccepted(cfg, p, s.reported) && AllAccepted(cfg, p, offered) && Unnumbered(offered)
    requires Unwrapped(Update(cfg, s, offered, now).count)
    ensures AllAccepted(cfg, p, Update(cfg, s, offered, now).reported)
    ensures VerdictsKept(cfg, p, Compare(s.reported, offered, now).entries)
  {
    hide Accepts, Compare, Announce, SameCard;
    var m := Compare(s.reported, offered, now);
    var after := Update(cfg, s, offered, now);
    CompareEntries(s.reported, offered, now);
    assert NewOnesUnnumbered(m.entries) by {
      assert forall k :: 0 <= k < |offered| ==> EntryOk(m.entries[k], offered[k], s.reported);
    }
    AnnounceNumbers(cfg, m.entries, Withdraw(cfg, s.clients, m.left), s.count);
    forall k | 0 <= k < |m.entries|
      ensures Accepts(cfg, p, m.entries[k].card) && Accepts(cfg, p, after.reported[k])
      ensures m.entries[k].before.Some? ==> Accepts(cfg, p, m.entries[k].before.value)
    {
      assert EntryOk(m.entries[k], offered[k], s.reported);
      AcceptsIgnoresId(cfg, p, m.entries[k].card, offered[k]);
      assert ListedAs(after.reported[k], m.entries[k], s.count, after.count);
      AcceptsIgnoresId(cfg, p, after.reported[k], m.entries[k].card);
    }
  }

  lemma {:induction false} ConnectAccepted(cfg: ShareConfig, s: Share, p: Peer, q: Peer)
    requires AllAccepted(cfg, p, s.reported) && Unwrapped(Connect(cfg, s, q).count)
    ensures AllAccepted(cfg, p, Connect(cfg, s, q).reported)
  {
    hide Accepts, ReportAll;
    ReportAllNumbers(cfg, s.reported, Client(q, [], true), s.count);
    var after := Connect(cfg, s, q);
    forall k | 0 <= k < |s.reported| ensures Accepts(cfg, p, after.reported[k]) {
      AcceptsIgnoresId(cfg, p, after.reported[k], s.reported[k]);
    }
  }

  lemma {:induction false} PeerStays(cfg: ShareConfig, s: Share, e: Event, j: nat)
    requires InStep(cfg, s, j) && WellFormed(e) && Steady(cfg, s, e, j) && Unwrapped(Happens(cfg, s, e).count)
    ensures j < |Happens(cfg, s, e).clients| && Happens(cfg, s, e).clients[j].peer == s.clients[j].peer
  {
    hide Accepts, Compare, Announce, ReportAll, Withdraw;
    if e.Updating? {
      var m := Compare(s.reported, e.offered, e.now);
      WithdrawTouches(cfg, s.clients, m.left, j);
      CompareEntries(s.reported, e.offered, e.now);
      assert NewOnesUnnumbered(m.entries) by {
        assert forall k :: 0 <= k < |e.offered| ==> EntryOk(m.entries[k], e.offered[k], s.reported);
      }
      AnnounceReaches(cfg, m.entries, Withdraw(cfg, s.clients, m.left), s.count, j);
    }
  }

  lemma {:induction false} AcceptedStep(cfg: ShareConfig, s: Share, e: Event, j: nat)
    requires InStep(cfg, s, j) && AllAccepted(cfg, s.clients[j].peer, s.reported)
    requires WellFormed(e) && Welcomes(cfg, s.clients[j].peer, e, j) && Unwrapped(Happens(cfg, s, e).count)
    ensures var after := Happens(cfg, s, e);
            && InStep(cfg, after, j) && after.clients[j].peer == s.clients[j].peer
            && AllAccepted(cfg, s.clients[j].peer, after.reported)
  {
    hide Accepts, Compare, Update, Connect, Resend, Held;
    var p := s.clients[j].peer;
    match e {
      case Updating(offered, now) => UpdateAccepted(cfg, s, p, offered, now);
      case Connecting(q) => ConnectAccepted(cfg, s, p, q);
      case Disconnecting(k) =>
    }
    PeerStays(cfg, s, e, j);
    HappensInStep(cfg, s, e, j);
  }

  /** A client that accepts every card has been told, after any run, exactly of the share list. */
  lemma {:induction false} AcceptingAllHoldsAll(cfg: ShareConfig, s: Share, events: seq<Event>, j: nat)
    requires InStep(cfg, s, j) && AllAccepted(cfg, s.clients[j].peer, s.reported)
    requires forall i :: 0 <= i < |events| ==> WellFormed(events[i]) && Welcomes(cfg, s.clients[j].peer, events[i], j)
    requires Unwrapped(After(cfg, s, events).count)
    ensures var after := After(cfg, s, events);
            && InStep(cfg, after, j) && after.clients[j].peer == s.clients[j].peer
            && AllAccepted(cfg, s.clients[j].peer, after.reported)
            && Held(after.clients[j].outbox) == (set c | c in after.reported :: c.id)
    decreases |events|
  {
    hide Accepts, Compare, Happens, Held;
    var p := s.clients[j].peer;
    if events == [] {
    } else {
      var n := |events| - 1;
      var e := events[n];
      var before := After(cfg, s, events[..n]);
      CountGrows(cfg, before, e);
      AcceptingAllHoldsAll(cfg, s, events[..n], j);
      AcceptedStep(cfg, before, e, j);
    }
    var after := After(cfg, s, events);
    assert forall c :: c in after.reported ==> Accepts(cfg, p, c);
    assert Resend(cfg, p, after.reported) == set c | c in after.reported :: c.id;
  }

  // ---------------------------------------------------------------- where the difference is not enough

  lemma {:induction false} ReportOne(cfg: ShareConfig, c: Card, client: Client, count: nat)
    ensures ReportAll(cfg, [c], client, count) ==
            var s := SendToClient(cfg, client, c, count); Report([s.card], s.client, s.count)
  {
  }

  lemma {:induction false} CompareOne(o: Card, c: Card, now: int)
    requires SameCard(c, o) && !TimedOut(o, now)
    ensures Compare([o], [c], now) == Compared([], [Entry(c.(id := o.id, timeout := o.timeout), Some(o))])
  {
  }

  lemma {:induction false} AnnounceKept(cfg: ShareConfig, e: Entry, clients: seq<Client>, count: nat)
    requires e.before.Some?
    ensures Announce(cfg, [e], clients, count) == Share([e.card], count, clients)
  {
    assert [e][..0] == [];
    assert Announce(cfg, [], clients, count) == Share([], count, clients);
  }

  lemma {:induction false} WithdrawNothing(cfg: ShareConfig, clients: seq<Client>)
    ensures Withdraw(cfg, clients, []) == clients
  {
    var w := Withdraw(cfg, clients, []);
    assert forall i :: 0 <= i < |clients| ==> clients[i].outbox + [] == clients[i].outbox;
    assert forall i :: 0 <= i < |clients| ==> w[i] == clients[i];
  }

  lemma {:induction false} ConnectToOne(cfg: ShareConfig, p: Peer, c: Card)
    requires c.id == 0 && Accepts(cfg, p, c)
    ensures var numbered := c.(id := FIRST_ID);
            Connect(cfg, Share([c], 0, []), p) == Share([numbered], 1, [Client(p, [NewCard(numbered)], true)])
  {
    hide Accepts;
    assert IdOf(0) == FIRST_ID;
    ReportOne(cfg, c, Client(p, [], true), 0);
    var m := NewCard(c.(id := FIRST_ID));
    assert [] + [m] == [m];
  }

  lemma {:induction false} FarCard(cfg: ShareConfig, p: Peer, c: Card, now: int)
    requires p.maxhops == 1 && c.hop == 1 && c.cardType.RemoteCard?
    ensures var numbered := c.(id := FIRST_ID);
            SameCard(c.(hop := 3), numbered) && !TimedOut(numbered, now) && Resend(cfg, p, [numbered.(hop := 3)]) == {}
  {
    hide NewReshare;
  }

  lemma {:induction false} OneUnnumbered(c: Card)
    requires c.id == 0
    ensures IdsOk([c], 0)
  {
  }

  /** A client that takes cards of at most one hop is told of a card of one hop. The card moves
      three hops away: it is still the same card, so it keeps its id and is neither
      withdrawn nor announced, while a full resend would leave it out. */
  lemma {:induction false} StaleCardStays(cfg: ShareConfig, p: Peer, c: Card, now: int)
    requires p.maxhops == 1 && c.hop == 1 && c.cardType.RemoteCard? && c.id == 0 && Accepts(cfg, p, c)
    ensures var s := Connect(cfg, Share([c], 0, []), p);
            var after := Update(cfg, s, [c.(hop := 3)], now);
            && InStep(cfg, s, 0)
            && Held(after.clients[0].outbox) == {FIRST_ID}
            && Resend(cfg, p, after.reported) == {}
  {
    hide Accepts, Connect, Compare, Announce, Withdraw, Resend, SameCard, TimedOut, InStep;
    var s0 := Share([c], 0, []);
    var numbered, far := c.(id := FIRST_ID), c.(hop := 3);
    var kept := far.(id := FIRST_ID, timeout := numbered.timeout);
    ConnectToOne(cfg, p, c);
    OneUnnumbered(c);
    ConnectInStep(cfg, s0, p);
    FarCard(cfg, p, c, now);
    CompareOne(numbered, far, now);
    var client := Client(p, [NewCard(numbered)], true);
    WithdrawNothing(cfg, [client]);
    AnnounceKept(cfg, Entry(kept, Some(numbered)), [client], 1);
    assert kept == numbered.(hop := 3);
    HeldAppend([], NewCard(numbered));
    assert [] + [NewCard(numbered)] == [NewCard(numbered)];
    NothingHeld();
  }

  // ---------------------------------------------------------------- the program

  class ShareServer {
    const cfg: ShareConfig
    var reported: seq<Card>
    var shareId: u32
    var clients: seq<Client>
    ghost var count: nat

    ghost predicate Valid()
      reads this
    {
      shareId == IdOf(count)
    }

    ghost function View(): Share
      reads this
    {
      Share(reported, count, clients)
    }

    constructor (cfg: ShareConfig)
      ensures Valid() && View() == Share([], 0, []) && this.cfg == cfg
    {
      this.cfg := cfg;
      reported, shareId, clients, count := [], FIRST_ID, [], 0;
    }

    /** Returns the card with the id it may have been given. */
    method SendCardToClient(card: Card, k: nat) returns (c: Card, sent: nat)
      requires Valid() && k < |clients|
      modifies this`shareId, this`clients, this`count
      ensures Valid()
      ensures var s := SendToClient(cfg, old(clients)[k], card, old(count));
              c == s.card && count == s.count && clients == old(clients)[k := s.client]
      ensures sent == if old(clients)[k].connected && Accepts(cfg, old(clients)[k].peer, card) then 1 else 0
    {
      hide ValidForClient, NewReshare;
      c, sent := card, 0;
      if !clients[k].connected || !ValidForClient(cfg, clients[k].peer, card) {
        return;
      }
      var newReshare := NewReshare(cfg, clients[k].peer, card);
      if newReshare < 0 {
        return;
      }
      if c.id == 0 {
        c := c.(id := shareId);
        shareId := (shareId + 1) % 0x1_0000_0000;
        count := count + 1;
      }
      clients := clients[k := clients[k].(outbox := clients[k].outbox + [NewCard(c)])];
      sent := 1;
    }

    method SendCardToAllClients(card: Card) returns (c: Card)
      requires Valid()
      modifies this`shareId, this`clients, this`count
      ensures Valid()
      ensures SentAll(c, clients, count) == SendToAll(cfg, old(clients), card, old(count))
    {
      hide Accepts, SendToClient;
      c := card;
      var k := 0;
      while k < |clients|
        invariant Valid() && 0 <= k <= |clients| == |old(clients)|
        invariant SentAll(c, clients[..k], count) == SendToAll(cfg, old(clients)[..k], card, old(count))
        invariant clients[k..] == old(clients)[k..]
      {
        assert old(clients)[..k + 1][..k] == old(clients)[..k];
        assert clients[k] == clients[k..][0] == old(clients)[k];
        var n: nat;
        c, n := SendCardToClient(c, k);
        k := k + 1;
      }
      assert old(clients)[..k] == old(clients) && clients[..k] == clients;
    }

    method SendRemoveCardToClients(card: Card)
      requires Valid()
      modifies this`clients
      ensures Valid()
      ensures |clients| == |old(clients)|
      ensures forall k :: 0 <= k < |clients| ==>
                            clients[k] == if old(clients)[k].connected && card.id != 0 && ValidForClient(cfg, old(clients)[k].peer, card)
                                          then old(clients)[k].(outbox := old(clients)[k].outbox + [Removed(card.id)])
                                          else old(clients)[k]
    {
      hide ValidForClient;
      if card.id == 0 {
        return;
      }
      var k := 0;
      while k < |clients|
        invariant 0 <= k <= |clients| == |old(clients)|
        invariant forall i :: k <= i < |clients| ==> clients[i] == old(clients)[i]
        invariant forall i :: 0 <= i < k ==>
                                clients[i] == if old(clients)[i].connected && card.id != 0 && ValidForClient(cfg, old(clients)[i].peer, card)
                                              then old(clients)[i].(outbox := old(clients)[i].outbox + [Removed(card.id)])
                                              else old(clients)[i]
      {
        if clients[k].connected && ValidForClient(cfg, clients[k].peer, card) {
          clients := clients[k := clients[k].(outbox := clients[k].outbox + [Removed(card.id)])];
        }
        k := k + 1;
      }
    }

    /** Takes a card that is already reported out of the list and keeps its id. */
    method FindReportedCard(card1: Card, now: int) returns (before: Option<Card>, c: Card)
      modifies this`reported
      ensures var i := FindReported(old(reported), card1, now);
              if i == |old(reported)| then reported == old(reported) && before == None && c == card1
              else
                var o := old(reported)[i];
                reported == old(reported)[..i] + old(reported)[i + 1..] && before == Some(o) &&
                c == card1.(id := o.id, timeout := o.timeout)
    {
      hide SameCard, TimedOut;
      var i := 0;
      while i < |reported|
        invariant 0 <= i <= |reported| && reported == old(reported)
        invariant FindReported(reported, card1, now) == i + FindReported(reported[i..], card1, now)
      {
        if SameCard(card1, reported[i]) && !TimedOut(reported[i], now) {
          assert FindReported(reported[i..], card1, now) == 0;
          var card2 := reported[i];
          reported := reported[..i] + reported[i + 1..];
          return Some(card2), card1.(id := card2.id, timeout := card2.timeout);
        }
        assert reported[i..][1..] == reported[i + 1..];
        i := i + 1;
      }
      return None, card1;
    }

    method WithdrawAll()
      requires Valid()
      modifies this`clients
      ensures Valid()
      ensures clients == Withdraw(cfg, old(clients), reported)
    {
      hide ValidForClient;
      var i := 0;
      assert reported[..0] == [];
      while i < |reported|
        invariant Valid() && 0 <= i <= |reported| && |clients| == |old(clients)|
        invariant forall k :: 0 <= k < |clients| ==>
                                clients[k] == if old(clients)[k].connected
                                              then old(clients)[k].(outbox := old(clients)[k].outbox + Withdrawals(cfg, old(clients)[k].peer, reported[..i]))
                                              else old(clients)[k]
      {
        assert reported[..i + 1][..i] == reported[..i];
        SendRemoveCardToClients(reported[i]);
        i := i + 1;
      }
      assert reported[..i] == reported;
    }

    /** The first half of update_card_list: what stays in reported is left over. */
    method CompareAll(offered: seq<Card>, now: int) returns (entries: seq<Entry>)
      modifies this`reported
      ensures Compared(reported, entries) == Compare(old(reported), offered, now)
    {
      hide SameCard, TimedOut, FindReported;
      entries := [];
      var i := 0;
      while i < |offered|
        invariant 0 <= i <= |offered|
        invariant Compared(reported, entries) == Compare(old(reported), offered[..i], now)
      {
        assert offered[..i + 1][..i] == offered[..i];
        var before, c := FindReportedCard(offered[i], now);
        entries := entries + [Entry(c, before)];
        i := i + 1;
      }
      assert offered[..i] == offered;
    }

    /** The second half: every new card goes out; returns the list to report. */
    method AnnounceAll(entries: seq<Entry>) returns (list: seq<Card>)
      requires Valid()
      modifies this`shareId, this`clients, this`count
      ensures Valid()
      ensures Share(list, count, clients) == Announce(cfg, entries, old(clients), old(count))
    {
      hide SendToAll;
      list := [];
      var i := 0;
      while i < |entries|
        invariant Valid() && 0 <= i <= |entries|
        invariant Share(list, count, clients) == Announce(cfg, entries[..i], old(clients), old(count))
      {
        assert entries[..i + 1][..i] == entries[..i];
        var c := entries[i].card;
        if entries[i].before.None? {
          c := SendCardToAllClients(c);
        }
        list := list + [c];
        i := i + 1;
      }
      assert entries[..i] == entries;
    }

    method UpdateCardList(offered: seq<Card>, now: int)
      requires Valid()
      modifies this
      ensures Valid()
      ensures View() == Update(cfg, old(View()), offered, now)
    {
      hide Compare, Withdraw, Announce;
      var entries := CompareAll(offered, now);
      WithdrawAll();
      reported := AnnounceAll(entries);
    }

    /** A client connects and is sent the whole list. */
    method ReportCards(p: Peer)
      requires Valid()
      modifies this
      ensures Valid()
      ensures View() == Connect(cfg, old(View()), p)
    {
      hide SendToClient, Accepts;
      var k := |clients|;
      clients := clients + [Client(p, [], true)];
      var i := 0;
      var list: seq<Card> := [];
      while i < |reported|
        invariant Valid() && 0 <= i <= |reported| && reported == old(reported)
        invariant |clients| == k + 1 && clients[..k] == old(clients)
        invariant Report(list, clients[k], count) == ReportAll(cfg, reported[..i], Client(p, [], true), old(count))
      {
        assert reported[..i + 1][..i] == reported[..i];
        var c, n := SendCardToClient(reported[i], k);
        list := list + [c];
        i := i + 1;
      }
      assert reported[..i] == reported;
      reported := list;
      assert clients == old(clients) + [clients[k]];
    }
  }
}
