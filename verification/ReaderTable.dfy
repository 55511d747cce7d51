/**
 The reader's side of a CCcam connection: the table of cards announced by the server, its
 statistics, and the pointers other parts of the session keep into it.
 */
module ReaderTable {
  import opened Bytes
  import opened Cards
  import opened CardWire
  import opened Forwarding

  /** The reader's configuration; the two functions stand for its CAID and ident tables. */
  datatype Reader = Reader(no: nat, grp: set<nat>, maxhops: int8, mindown: int8, caidAllowed: u16 -> bool,
                           identAllowed: (u16, seq<Provider>) -> bool, reshare: int8)

  /** A request under way, with the card it was sent for. */
  datatype Pending = Pending(sendIdx: byte, ecmIdx: u16, card: Option<nat>)

  datatype Stats = Stats(hop1: int, hop2: int, hopx: int, reshare0: int, reshare1: int, reshare2: int, resharex: int)

  /** The part of the connection data that belongs together. */
  datatype Table = Table(cards: seq<Held>, lastEmm: Option<nat>, pending: seq<Pending>, stats: Stats, next: nat)

  const NO_STATS := Stats(0, 0, 0, 0, 0, 0, 0)

  // ---------------------------------------------------------------- admission

  /** A card as announced becomes a card of this reader, or is filtered. */
  function Admit(r: Reader, cfg: ShareConfig, own: NodeId, card: Card): Option<Card> {
    var level: int8 := if r.reshare > -1 then r.reshare else cfg.reshare;
    var c := card.(originReader := Some(r.no), grp := r.grp, rdrReshare := level as int % 256);
    if own in c.remoteNodes || !r.identAllowed(c.caid, c.providers) then None else Some(c)
  }

  /** What a card taken in is bound by when it is passed on: the level set for the reader, or the
      global one where none is set, and the groups of the reader. */
  lemma {:induction false} AdmitBinds(r: Reader, cfg: ShareConfig, own: NodeId, card: Card)
    ensures var a := Admit(r, cfg, own, card);
            a.Some? ==>
              && a.value.originReader == Some(r.no) && a.value.grp == r.grp && own !in a.value.remoteNodes
              && ReaderLevel(cfg, a.value) == if r.reshare < 0 then cfg.reshare else r.reshare
  {
  }

  /** The checks made on the message before it is parsed. */
  predicate WorthReading(r: Reader, data: seq<byte>) {
    |data| >= 12 &&
    (var caid := SidAt(data, 8);
     caid != 0 && (data[10] as int) < r.maxhops + 1 && data[11] as int >= r.mindown && r.caidAllowed(caid))
  }

  function Intake(r: Reader, cfg: ShareConfig, own: NodeId, data: seq<byte>, ext: bool): Option<Card> {
    if !WorthReading(r, data) then None
    else
      var c := ReadCard(data, ext);
      if c.None? then None else Admit(r, cfg, own, c.value)
  }

  /** The card as it enters the table: one hop further away. */
  function Stored(card: Card): Card {
    card.(cardType := RemoteCard, hop := (card.hop as int + 1) % 256)
  }

  // ---------------------------------------------------------------- statistics

  /** The classes that are counted. */
  datatype Kind = Hop1 | Hop2 | HopX | Reshare0 | Reshare1 | Reshare2 | ReshareX

  predicate Is(k: Kind, c: Card) {
    match k
    case Hop1 => c.hop == 1
    case Hop2 => c.hop == 2
    case HopX => c.hop != 1 && c.hop != 2
    case Reshare0 => c.reshare == 0
    case Reshare1 => c.reshare == 1
    case Reshare2 => c.reshare == 2
    case ReshareX => c.reshare > 2
  }

  function Tally(s: Stats, c: Card, d: int): Stats {
    var h := if c.hop == 1 then s.(hop1 := s.hop1 + d)
             else if c.hop == 2 then s.(hop2 := s.hop2 + d)
             else s.(hopx := s.hopx + d);
    if c.reshare == 0 then h.(reshare0 := h.reshare0 + d)
    else if c.reshare == 1 then h.(reshare1 := h.reshare1 + d)
    else if c.reshare == 2 then h.(reshare2 := h.reshare2 + d)
    else h.(resharex := h.resharex + d)
  }

  function Count(cards: seq<Held>, k: Kind): nat {
    if cards == [] then 0 else Count(cards[1..], k) + (if Is(k, cards[0].card) then 1 else 0)
  }

  /** Each number counts the listed cards of its class. */
  ghost predicate Accurate(s: Stats, cards: seq<Held>) {
    && s.hop1 == Count(cards, Hop1) && s.hop2 == Count(cards, Hop2) && s.hopx == Count(cards, HopX)
    && s.reshare0 == Count(cards, Reshare0) && s.reshare1 == Count(cards, Reshare1)
    && s.reshare2 == Count(cards, Reshare2) && s.resharex == Count(cards, ReshareX)
  }

  // ---------------------------------------------------------------- specification of the operations

  function ListedAt(cards: seq<Held>, addr: nat): (i: nat)
    ensures i <= |cards|
    ensures i < |cards| ==> cards[i].addr == addr
    ensures forall k :: 0 <= k < i ==> cards[k].addr != addr
  {
    First(cards, (h: Held) => h.addr == addr)
  }

  predicate Known(cards: seq<Held>, card: Card) {
    exists i :: 0 <= i < |cards| && (cards[i].card.id == card.id || SameCard(cards[i].card, card))
  }

  function NewCard(t: Table, card: Card): Table {
    if Known(t.cards, card) then t.(next := t.next + 1)
    else
      var c := Stored(card);
      t.(cards := t.cards + [Held(t.next, c)], stats := Tally(t.stats, c, 1), next := t.next + 1)
  }

  function DroppedFor(s: seq<Pending>, addr: nat): seq<Pending> {
    if s == [] then [] else (if s[0].card == Some(addr) then [] else [s[0]]) + DroppedFor(s[1..], addr)
  }

  function Nulled(s: seq<Pending>, addr: nat): (r: seq<Pending>)
    ensures |r| == |s|
  {
    seq(|s|, i requires 0 <= i < |s| => if s[i].card == Some(addr) then s[i].(card := None) else s[i])
  }

  function RemoveAt(t: Table, i: nat): Table
    requires i < |t.cards|
  {
    var h := t.cards[i];
    Table(t.cards[..i] + t.cards[i + 1..],
          if t.lastEmm == Some(h.addr) then None else t.lastEmm,
          DroppedFor(t.pending, h.addr),
          Tally(t.stats, h.card, -1),
          t.next)
  }

  /** cc_card_removed from position i on. */
  function RemoveFrom(t: Table, id: u32, i: nat): Table
    requires i <= |t.cards|
    decreases |t.cards| - i
  {
    if i == |t.cards| then t
    else if t.cards[i].card.id == id then RemoveFrom(RemoveAt(t, i), id, i)
    else RemoveFrom(t, id, i + 1)
  }

  function MoveToEnd(t: Table, addr: nat): Table {
    var i := ListedAt(t.cards, addr);
    if i == |t.cards| then t
    else t.(cards := t.cards[..i] + t.cards[i + 1..] + [t.cards[i]], pending := Nulled(t.pending, addr))
  }

  /** The request that is under way with this index, or the length of the list. */
  function FirstSent(s: seq<Pending>, sendIdx: byte): (i: nat)
    ensures i <= |s|
    ensures i < |s| ==> s[i].sendIdx == sendIdx
    ensures forall k :: 0 <= k < i ==> s[k].sendIdx != sendIdx
  {
    First(s, (p: Pending) => p.sendIdx == sendIdx)
  }

  /** A request is sent: it takes the place of one with the same index. */
  function Sending(t: Table, sendIdx: byte, ecmIdx: u16, addr: nat): Table {
    var i := FirstSent(t.pending, sendIdx);
    var p := Pending(sendIdx, ecmIdx, Some(addr));
    t.(pending := if i < |t.pending| then t.pending[i := p] else t.pending + [p])
  }

  function Taken(t: Table, i: nat): Table
    requires i < |t.pending|
  {
    t.(pending := t.pending[..i] + t.pending[i + 1..])
  }

  /** An answer ends its request; a bad one moves the card it was sent for to the end. */
  function Answering(t: Table, sendIdx: byte, bad: bool): Table {
    var i := FirstSent(t.pending, sendIdx);
    if i == |t.pending| then t
    else if bad && t.pending[i].card.Some? then MoveToEnd(Taken(t, i), t.pending[i].card.value)
    else Taken(t, i)
  }

  function Empty(next: nat): Table {
    Table([], None, [], NO_STATS, next)
  }

  function Cleared(t: Table): Table {
    Empty(t.next)
  }

  // ---------------------------------------------------------------- the invariant

  ghost predicate Listed(cards: seq<Held>, p: Option<nat>) {
    p.None? || exists i :: 0 <= i < |cards| && cards[i].addr == p.value
  }

  ghost predicate Apart(a: Held, b: Held) {
    a.addr != b.addr && a.card.id != b.card.id && !SameCard(a.card, b.card)
  }

  ghost predicate AllApart(cards: seq<Held>) {
    forall i, j :: 0 <= i < j < |cards| ==> Apart(cards[i], cards[j])
  }

  /** An answer belongs to at most one request. */
  ghost predicate Unmistakable(s: seq<Pending>) {
    forall i, j :: 0 <= i < j < |s| ==> s[i].sendIdx != s[j].sendIdx
  }

  ghost predicate Consistent(t: Table) {
    && AllApart(t.cards)
    && (forall i :: 0 <= i < |t.cards| ==> t.cards[i].addr < t.next && t.cards[i].card.cardType.RemoteCard?)
    && Accurate(t.stats, t.cards)
    && Listed(t.cards, t.lastEmm)
    && (forall i :: 0 <= i < |t.pending| ==> Listed(t.cards, t.pending[i].card))
    && Unmistakable(t.pending)
  }

  lemma {:induction false} CountSplit(a: seq<Held>, b: seq<Held>, k: Kind)
    ensures Count(a + b, k) == Count(a, k) + Count(b, k)
  {
    if a == [] {
      assert a + b == b;
    } else {
      CountSplit(a[1..], b, k);
      assert (a + b)[1..] == a[1..] + b;
    }
  }

  lemma {:induction false} CountAround(cards: seq<Held>, i: nat)
    requires i < |cards|
    ensures forall k :: Count(cards, k) == Count(cards[..i] + cards[i + 1..], k) + (if Is(k, cards[i].card) then 1 else 0)
  {
    forall k ensures Count(cards, k) == Count(cards[..i] + cards[i + 1..], k) + (if Is(k, cards[i].card) then 1 else 0) {
      assert cards == cards[..i] + cards[i..];
      assert cards[i..][1..] == cards[i + 1..];
      CountSplit(cards[..i], cards[i..], k);
      CountSplit(cards[..i], cards[i + 1..], k);
    }
  }

  lemma {:induction false} CountAppend(cards: seq<Held>, h: Held)
    ensures forall k :: Count(cards + [h], k) == Count(cards, k) + (if Is(k, h.card) then 1 else 0)
  {
    CountAround(cards + [h], |cards|);
    assert (cards + [h])[..|cards|] + (cards + [h])[|cards| + 1..] == cards;
  }

  lemma {:induction false} TallyAdds(s: Stats, cards: seq<Held>, h: Held)
    requires Accurate(s, cards)
    ensures Accurate(Tally(s, h.card, 1), cards + [h])
  {
    CountAppend(cards, h);
  }

  lemma {:induction false} TallyRemoves(s: Stats, cards: seq<Held>, i: nat)
    requires i < |cards| && Accurate(s, cards)
    ensures Accurate(Tally(s, cards[i].card, -1), cards[..i] + cards[i + 1..])
  {
    CountAround(cards, i);
  }

  // ---------------------------------------------------------------- every operation keeps it

  /** Parsed and listed cards are remote ones, so the check made before storing is good after. */
  lemma {:induction false} StoredSame(a: Card, card: Card)
    ensures a.cardType.RemoteCard? && SameCard(a, Stored(card)) && card.cardType.RemoteCard? ==> SameCard(a, card)
  {
  }

  lemma {:induction false} ListedMore(cards: seq<Held>, h: Held, p: Option<nat>)
    requires Listed(cards, p)
    ensures Listed(cards + [h], p)
  {
    if p.Some? {
      var i :| 0 <= i < |cards| && cards[i].addr == p.value;
      assert (cards + [h])[i].addr == p.value;
    }
  }

  lemma {:induction false} NewCardConsistent(t: Table, card: Card)
    requires Consistent(t) && card.cardType.RemoteCard?
    ensures Consistent(NewCard(t, card))
  {
    hide Accurate, Tally, Count;
    if !Known(t.cards, card) {
      var h := Held(t.next, Stored(card));
      TallyAdds(t.stats, t.cards, h);
      forall i | 0 <= i < |t.cards| ensures Apart(t.cards[i], h) {
        StoredSame(t.cards[i].card, card);
      }
      ListedMore(t.cards, h, t.lastEmm);
      forall i | 0 <= i < |t.pending| ensures Listed(t.cards + [h], t.pending[i].card) {
        ListedMore(t.cards, h, t.pending[i].card);
      }
    }
  }

  lemma {:induction false} ListedElsewhere(cards: seq<Held>, i: nat, p: Option<nat>)
    requires i < |cards| && Listed(cards, p) && p != Some(cards[i].addr)
    ensures Listed(cards[..i] + cards[i + 1..], p)
  {
    if p.Some? {
      var k :| 0 <= k < |cards| && cards[k].addr == p.value;
      assert (cards[..i] + cards[i + 1..])[if k < i then k else k - 1].addr == p.value;
    }
  }

  lemma {:induction false} DroppedForExactly(s: seq<Pending>, addr: nat)
    ensures forall q :: q in DroppedFor(s, addr) <==> q in s && q.card != Some(addr)
  {
    if s == [] {
    } else {
      DroppedForExactly(s[1..], addr);
      assert s == [s[0]] + s[1..];
    }
  }

  /** Removing a card forgets the pointers to it, and no others. */
  lemma {:induction false} RemovingForgets(t: Table, i: nat)
    requires i < |t.cards|
    ensures var after, addr := RemoveAt(t, i), t.cards[i].addr;
            && (forall a :: after.lastEmm == Some(a) <==> t.lastEmm == Some(a) && a != addr)
            && (forall q :: q in after.pending <==> q in t.pending && q.card != Some(addr))
            && after.cards == t.cards[..i] + t.cards[i + 1..]
  {
    DroppedForExactly(t.pending, t.cards[i].addr);
  }

  lemma {:induction false} DroppedForKeeps(s: seq<Pending>, addr: nat)
    ensures forall q :: q in DroppedFor(s, addr) ==> q in s && q.card != Some(addr)
    ensures Unmistakable(s) ==> Unmistakable(DroppedFor(s, addr))
  {
    if s == [] {
    } else {
      DroppedForKeeps(s[1..], addr);
      if Unmistakable(s) {
        assert forall q :: q in s[1..] ==> q.sendIdx != s[0].sendIdx;
        assert Unmistakable(s[1..]);
      }
    }
  }

  lemma {:induction false} RemoveAtConsistent(t: Table, i: nat)
    requires Consistent(t) && i < |t.cards|
    ensures Consistent(RemoveAt(t, i))
  {
    hide Accurate, Tally, Count, Apart, DroppedFor;
    var after := RemoveAt(t, i);
    TallyRemoves(t.stats, t.cards, i);
    if t.lastEmm != Some(t.cards[i].addr) {
      ListedElsewhere(t.cards, i, t.lastEmm);
    }
    DroppedForKeeps(t.pending, t.cards[i].addr);
    forall k | 0 <= k < |after.pending| ensures Listed(after.cards, after.pending[k].card) {
      assert after.pending[k] in t.pending;
      ListedElsewhere(t.cards, i, after.pending[k].card);
    }
  }

  lemma {:induction false} CardsLeft(t: Table, i: nat)
    requires i < |t.cards|
    ensures RemoveAt(t, i).cards == t.cards[..i] + t.cards[i + 1..]
  {
  }

  lemma {:induction false} RemoveFromConsistent(t: Table, id: u32, i: nat)
    requires Consistent(t) && i <= |t.cards|
    ensures Consistent(RemoveFrom(t, id, i))
    ensures forall k :: i <= k < |RemoveFrom(t, id, i).cards| ==> RemoveFrom(t, id, i).cards[k].card.id != id
    ensures i <= |RemoveFrom(t, id, i).cards| && RemoveFrom(t, id, i).cards[..i] == t.cards[..i]
    decreases |t.cards| - i
  {
    hide Consistent, RemoveAt;
    if i == |t.cards| {
    } else {
      if t.cards[i].card.id == id {
        RemoveAtConsistent(t, i);
        CardsLeft(t, i);
        RemoveFromConsistent(RemoveAt(t, i), id, i);
      } else {
        RemoveFromConsistent(t, id, i + 1);
        var after := RemoveFrom(t, id, i + 1);
        assert after.cards[i] == after.cards[..i + 1][i];
        assert after.cards[..i] == after.cards[..i + 1][..i];
      }
    }
  }

  lemma {:induction false} MoveToEndSends(t: Table, addr: nat)
    ensures |MoveToEnd(t, addr).pending| == |t.pending|
    ensures forall k :: 0 <= k < |t.pending| ==> MoveToEnd(t, addr).pending[k].sendIdx == t.pending[k].sendIdx
  {
  }

  lemma {:induction false} MovedApart(cards: seq<Held>, i: nat)
    requires i < |cards| && AllApart(cards)
    ensures AllApart(cards[..i] + cards[i + 1..] + [cards[i]])
  {
    var after := cards[..i] + cards[i + 1..] + [cards[i]];
    assert forall k :: 0 <= k < |after| ==> after[k] == cards[if k < i then k else if k < |after| - 1 then k + 1 else i];
  }

  lemma {:induction false} StillUnmistakable(a: seq<Pending>, b: seq<Pending>)
    requires Unmistakable(a) && |a| == |b| && forall k :: 0 <= k < |a| ==> a[k].sendIdx == b[k].sendIdx
    ensures Unmistakable(b)
  {
  }

  lemma {:induction false} NothingListed(cards: seq<Held>)
    ensures Listed(cards, None)
  {
  }

  lemma {:induction false} AccurateMoved(s: Stats, cards: seq<Held>, i: nat)
    requires i < |cards| && Accurate(s, cards)
    ensures Accurate(s, cards[..i] + cards[i + 1..] + [cards[i]])
  {
    CountAround(cards, i);
    CountAppend(cards[..i] + cards[i + 1..], cards[i]);
  }

  lemma {:induction false} MovedListed(cards: seq<Held>, i: nat, p: Option<nat>)
    requires i < |cards| && Listed(cards, p)
    ensures Listed(cards[..i] + cards[i + 1..] + [cards[i]], p)
  {
    if p == Some(cards[i].addr) {
      assert (cards[..i] + cards[i + 1..] + [cards[i]])[|cards| - 1] == cards[i];
    } else {
      ListedElsewhere(cards, i, p);
      ListedMore(cards[..i] + cards[i + 1..], cards[i], p);
    }
  }

  lemma {:induction false} MoveToEndConsistent(t: Table, addr: nat)
    requires Consistent(t)
    ensures Consistent(MoveToEnd(t, addr))
  {
    hide Accurate, Count, AllApart, Unmistakable, Listed;
    var i := ListedAt(t.cards, addr);
    if i < |t.cards| {
      var after := MoveToEnd(t, addr);
      MovedApart(t.cards, i);
      assert forall k :: 0 <= k < |after.cards| ==> after.cards[k] in t.cards;
      AccurateMoved(t.stats, t.cards, i);
      MoveToEndSends(t, addr);
      StillUnmistakable(t.pending, after.pending);
      MovedListed(t.cards, i, t.lastEmm);
      NothingListed(after.cards);
      assert after.pending == Nulled(t.pending, addr);
      forall k | 0 <= k < |t.pending| ensures Listed(after.cards, after.pending[k].card) {
        MovedListed(t.cards, i, t.pending[k].card);
      }
    }
  }

  lemma {:induction false} SendingConsistent(t: Table, sendIdx: byte, ecmIdx: u16, at: nat)
    requires Consistent(t) && at < |t.cards|
    ensures Consistent(Sending(t, sendIdx, ecmIdx, t.cards[at].addr))
  {
    hide Accurate, AllApart;
  }

  lemma {:induction false} TakenConsistent(t: Table, i: nat)
    requires Consistent(t) && i < |t.pending|
    ensures Consistent(Taken(t, i))
    ensures FirstSent(Taken(t, i).pending, t.pending[i].sendIdx) == |t.pending| - 1
  {
    hide Accurate, AllApart;
    var rest := Taken(t, i).pending;
    assert forall k :: 0 <= k < |rest| ==> rest[k] == t.pending[if k < i then k else k + 1];
  }

  lemma {:induction false} TakenShorter(t: Table, i: nat)
    requires i < |t.pending|
    ensures |Taken(t, i).pending| == |t.pending| - 1
  {
  }

  lemma {:induction false} AnsweringConsistent(t: Table, sendIdx: byte, bad: bool)
    requires Consistent(t)
    ensures Consistent(Answering(t, sendIdx, bad))
    ensures FirstSent(Answering(t, sendIdx, bad).pending, sendIdx) == |Answering(t, sendIdx, bad).pending|
  {
    hide Consistent, MoveToEnd, Taken;
    var i := FirstSent(t.pending, sendIdx);
    if i < |t.pending| {
      TakenConsistent(t, i);
      assert |Taken(t, i).pending| == |t.pending| - 1 by { TakenShorter(t, i); }
      if t.pending[i].card.Some? {
        MoveToEndConsistent(Taken(t, i), t.pending[i].card.value);
        MoveToEndSends(Taken(t, i), t.pending[i].card.value);
      }
    }
  }

  /** A bad answer: its request is gone, the card it was sent for is last, all the others are where
      they were, and no request points at that card any more. Any other answer ends its request
      and nothing else. */
  lemma {:induction false} AnswerMovesCard(t: Table, sendIdx: byte, bad: bool, i: nat, k: nat)
    requires Consistent(t) && i < |t.pending| && t.pending[i].sendIdx == sendIdx
    requires k < |t.cards| && t.pending[i].card == Some(t.cards[k].addr)
    ensures var after := Answering(t, sendIdx, bad);
            && after.stats == t.stats && after.lastEmm == t.lastEmm
            && |after.pending| == |t.pending| - 1
            && (forall x :: 0 <= x < |after.pending| ==>
                              var was := t.pending[if x < i then x else x + 1];
                              after.pending[x] == if bad && was.card == Some(t.cards[k].addr) then was.(card := None) else was)
            && (if bad then after.cards == Without(t.cards, k) + [t.cards[k]] else after.cards == t.cards)
  {
    hide Accurate, Count;
    assert FirstSent(t.pending, sendIdx) == i;
    assert ListedAt(t.cards, t.cards[k].addr) == k;
  }

  // ---------------------------------------------------------------- runs

  /** What can happen in a session. The position of a card stands for a pointer obtained
      from the table while it was locked. */
  datatype Event =
    | CardAnnounced(data: seq<byte>, ext: bool)
    | CardRemoved(id: u32)
    | EmmCard(at: nat)
    | RequestSent(sendIdx: byte, ecmIdx: u16, at: nat)
    | RequestAnswered(sendIdx: byte, bad: bool)
    | CardFailed(addr: nat)
    | ServerData

  function Happens(r: Reader, cfg: ShareConfig, own: NodeId, t: Table, e: Event): Table {
    match e
    case CardAnnounced(data, ext) =>
      var c := Intake(r, cfg, own, data, ext);
      if c.None? then t else NewCard(t, c.value)
    case CardRemoved(id) => RemoveFrom(t, id, 0)
    case EmmCard(at) => if at < |t.cards| then t.(lastEmm := Some(t.cards[at].addr)) else t
    case RequestSent(sendIdx, ecmIdx, at) =>
      if at < |t.cards| then Sending(t, sendIdx, ecmIdx, t.cards[at].addr) else t
    case RequestAnswered(sendIdx, bad) => Answering(t, sendIdx, bad)
    case CardFailed(addr) => MoveToEnd(t, addr)
    case ServerData => Cleared(t)
  }

  function After(r: Reader, cfg: ShareConfig, own: NodeId, t: Table, events: seq<Event>): Table
    decreases |events|
  {
    if events == [] then t
    else Happens(r, cfg, own, After(r, cfg, own, t, events[..|events| - 1]), events[|events| - 1])
  }

  lemma {:induction false} EmmConsistent(t: Table, at: nat)
    requires Consistent(t) && at < |t.cards|
    ensures Consistent(t.(lastEmm := Some(t.cards[at].addr)))
  {
  }

  lemma {:induction false} IntakeIsRemote(r: Reader, cfg: ShareConfig, own: NodeId, data: seq<byte>, ext: bool)
    ensures var c := Intake(r, cfg, own, data, ext);
            c.Some? ==> c.value.cardType.RemoteCard? && own !in c.value.remoteNodes && c.value.hop as int <= r.maxhops
  {
  }

  lemma {:induction false} EmptyConsistent(first: nat)
    ensures Consistent(Empty(first))
  {
  }

  lemma {:induction false} HappensConsistent(r: Reader, cfg: ShareConfig, own: NodeId, t: Table, e: Event)
    requires Consistent(t)
    ensures Consistent(Happens(r, cfg, own, t, e))
  {
    hide Consistent, NewCard, RemoveFrom, MoveToEnd, Intake, Sending, Answering;
    match e
    case CardAnnounced(data, ext) =>
      var c := Intake(r, cfg, own, data, ext);
      IntakeIsRemote(r, cfg, own, data, ext);
      if c.Some? {
        NewCardConsistent(t, c.value);
      }
    case CardRemoved(id) => RemoveFromConsistent(t, id, 0);
    case EmmCard(at) =>
      if at < |t.cards| {
        EmmConsistent(t, at);
      }
    case RequestSent(sendIdx, ecmIdx, at) =>
      if at < |t.cards| {
        SendingConsistent(t, sendIdx, ecmIdx, at);
      }
    case RequestAnswered(sendIdx, bad) => AnsweringConsistent(t, sendIdx, bad);
    case CardFailed(addr) => MoveToEndConsistent(t, addr);
    case ServerData => EmptyConsistent(t.next);
  }

  /** In every state of a session: ids, cards and addresses are pairwise different, every
      statistic counts its class, no pointer dangles, and no two requests under way have one
      index. */
  lemma {:induction false} SessionConsistent(r: Reader, cfg: ShareConfig, own: NodeId, first: nat, events: seq<Event>)
    ensures Consistent(After(r, cfg, own, Empty(first), events))
    decreases |events|
  {
    hide Consistent, Happens;
    if events == [] {
      EmptyConsistent(first);
    } else {
      var n := |events| - 1;
      SessionConsistent(r, cfg, own, first, events[..n]);
      HappensConsistent(r, cfg, own, After(r, cfg, own, Empty(first), events[..n]), events[n]);
    }
  }

  // ---------------------------------------------------------------- the program

  lemma {:induction false} DroppedOne(list: seq<Pending>, i: nat, addr: nat)
    requires i < |list|
    ensures DroppedFor(list[i..], addr) ==
            if list[i].card == Some(addr) then DroppedFor(list[i + 1..], addr) else [list[i]] + DroppedFor(list[i + 1..], addr)
  {
    assert list[i..][1..] == list[i + 1..];
  }

  lemma {:induction false} NoneDropped(addr: nat)
    ensures DroppedFor([], addr) == []
  {
  }

  lemma {:induction false} Regroup(a: seq<Pending>, p: Pending, b: seq<Pending>)
    ensures a + ([p] + b) == (a + [p]) + b
  {
  }

  class ReaderSession {
    const reader: Reader
    const cfg: ShareConfig
    const own: NodeId
    var cards: seq<Held>
    var lastEmmCard: Option<nat>
    var extendedEcmIdx: seq<Pending>
    var stats: Stats
    var next: nat

    ghost function View(): Table
      reads this
    {
      Table(cards, lastEmmCard, extendedEcmIdx, stats, next)
    }

    ghost predicate Valid()
      reads this
    {
      Consistent(View())
    }

    constructor (reader: Reader, cfg: ShareConfig, own: NodeId, first: nat)
      ensures Valid() && View() == Empty(first)
      ensures this.reader == reader && this.cfg == cfg && this.own == own
    {
      this.reader, this.cfg, this.own := reader, cfg, own;
      cards, lastEmmCard, extendedEcmIdx, stats, next := [], None, [], NO_STATS, first;
      new;
      hide Consistent;
      EmptyConsistent(first);
    }

    /** The filters of MSG_NEW_CARD; data is the message without its header. */
    method ReadAndFilter(data: seq<byte>, ext: bool) returns (c: Option<Card>)
      ensures c == Intake(reader, cfg, own, data, ext)
    {
      hide WorthReading, ReadCard;
      if !WorthReading(reader, data) {
        return None;
      }
      var buf := new byte[|data|](i requires 0 <= i < |data| => data[i]);
      assert buf[..|data|] == data;
      var parsed := ParseCard(buf, |data|, ext);
      if parsed.None? {
        return None;
      }
      var level: int8 := if reader.reshare > -1 then reader.reshare else cfg.reshare;
      var card := parsed.value.(originReader := Some(reader.no), grp := reader.grp, rdrReshare := level as int % 256);
      if own in card.remoteNodes || !reader.identAllowed(card.caid, card.providers) {
        return None;
      }
      c := Some(card);
    }

    /** MSG_NEW_CARD and MSG_NEW_CARD_SIDINFO. */
    method MsgNewCard(data: seq<byte>, ext: bool)
      requires Valid()
      modifies this`cards, this`stats, this`next
      ensures Valid()
      ensures var c := Intake(reader, cfg, own, data, ext);
              View() == if c.None? then old(View()) else NewCard(old(View()), c.value)
    {
      hide Consistent, Tally, SameCard, Intake, Stored;
      var parsed := ReadAndFilter(data, ext);
      if parsed.None? {
        return;
      }
      var card := parsed.value;
      IntakeIsRemote(reader, cfg, own, data, ext);
      NewCardConsistent(View(), card);
      var i := 0;
      while i < |cards|
        invariant 0 <= i <= |cards|
        invariant forall k :: 0 <= k < i ==> cards[k].card.id != card.id && !SameCard(cards[k].card, card)
      {
        if cards[i].card.id == card.id || SameCard(cards[i].card, card) {
          next := next + 1;
          return;
        }
        i := i + 1;
      }
      card := Stored(card);
      cards := cards + [Held(next, card)];
      next := next + 1;
      stats := Tally(stats, card, 1);
    }

    /** free_extended_ecm_idx_by_card with null_only: entries for the card are dropped ... */
    method DropPending(addr: nat)
      modifies this`extendedEcmIdx
      ensures extendedEcmIdx == DroppedFor(old(extendedEcmIdx), addr)
    {
      hide DroppedFor;
      var list, kept := extendedEcmIdx, [];
      var i := 0;
      assert kept + DroppedFor(list[0..], addr) == DroppedFor(list, addr) by { assert list[0..] == list; }
      while i < |list|
        invariant 0 <= i <= |list|
        invariant kept + DroppedFor(list[i..], addr) == DroppedFor(list, addr)
      {
        var eei := list[i];
        DroppedOne(list, i, addr);
        if eei.card != Some(addr) {
          Regroup(kept, eei, DroppedFor(list[i + 1..], addr));
          kept := kept + [eei];
        }
        i := i + 1;
      }
      assert list[i..] == [];
      NoneDropped(addr);
      extendedEcmIdx := kept;
    }

    /** ... and without it, they forget the card. */
    method NullPending(addr: nat)
      modifies this`extendedEcmIdx
      ensures extendedEcmIdx == Nulled(old(extendedEcmIdx), addr)
    {
      var i := 0;
      while i < |extendedEcmIdx|
        invariant 0 <= i <= |extendedEcmIdx| == |old(extendedEcmIdx)|
        invariant forall k :: 0 <= k < i ==> extendedEcmIdx[k] == Nulled(old(extendedEcmIdx), addr)[k]
        invariant forall k :: i <= k < |extendedEcmIdx| ==> extendedEcmIdx[k] == old(extendedEcmIdx)[k]
      {
        if extendedEcmIdx[i].card == Some(addr) {
          extendedEcmIdx := extendedEcmIdx[i := extendedEcmIdx[i].(card := None)];
        }
        i := i + 1;
      }
    }

    method CcCardRemoved(shareId: u32)
      requires Valid()
      modifies this`cards, this`lastEmmCard, this`extendedEcmIdx, this`stats
      ensures Valid()
      ensures View() == RemoveFrom(old(View()), shareId, 0)
      ensures forall k :: 0 <= k < |cards| ==> cards[k].card.id != shareId
    {
      RemoveFromConsistent(View(), shareId, 0);
      hide Consistent, Tally;
      var i := 0;
      while i < |cards|
        invariant 0 <= i <= |cards|
        invariant RemoveFrom(View(), shareId, i) == RemoveFrom(old(View()), shareId, 0)
        decreases |cards| - i
      {
        if cards[i].card.id == shareId {
          ghost var before := View();
          var h := cards[i];
          cards := cards[..i] + cards[i + 1..];
          if lastEmmCard == Some(h.addr) {
            lastEmmCard := None;
          }
          DropPending(h.addr);
          stats := Tally(stats, h.card, -1);
          assert View() == RemoveAt(before, i);
        } else {
          i := i + 1;
        }
      }
    }

    method FindCard(addr: nat) returns (i: nat)
      ensures i == ListedAt(cards, addr)
    {
      hide Consistent;
      i := 0;
      while i < |cards| && cards[i].addr != addr
        invariant 0 <= i <= |cards|
        invariant forall k :: 0 <= k < i ==> cards[k].addr != addr
      {
        i := i + 1;
      }
    }

    method MoveCardToEnd(addr: nat)
      requires Valid()
      modifies this`cards, this`extendedEcmIdx
      ensures Valid()
      ensures View() == MoveToEnd(old(View()), addr)
    {
      MoveToEndConsistent(View(), addr);
      hide Consistent, Nulled, ListedAt;
      var i := FindCard(addr);
      if i < |cards| {
        var card := cards[i];
        NullPending(addr);
        cards := cards[..i] + cards[i + 1..] + [card];
      }
    }

    /** get_extended_ecm_idx. */
    method GetExtendedEcmIdx(sendIdx: byte, removeItem: bool) returns (eei: Option<Pending>)
      modifies this`extendedEcmIdx
      ensures var was := old(extendedEcmIdx);
              var i := FirstSent(was, sendIdx);
              if i == |was| then eei == None && extendedEcmIdx == was
              else eei == Some(was[i]) && extendedEcmIdx == if removeItem then was[..i] + was[i + 1..] else was
    {
      var i := 0;
      while i < |extendedEcmIdx| && extendedEcmIdx[i].sendIdx != sendIdx
        invariant 0 <= i <= |extendedEcmIdx|
        invariant forall k :: 0 <= k < i ==> extendedEcmIdx[k].sendIdx != sendIdx
      {
        i := i + 1;
      }
      assert i == FirstSent(extendedEcmIdx, sendIdx);
      if i == |extendedEcmIdx| {
        return None;
      }
      eei := Some(extendedEcmIdx[i]);
      if removeItem {
        extendedEcmIdx := extendedEcmIdx[..i] + extendedEcmIdx[i + 1..];
      }
    }

    /** A request goes out for the card at this position of the table. */
    method SendRequest(sendIdx: byte, ecmIdx: u16, at: nat)
      requires Valid() && at < |cards|
      modifies this`extendedEcmIdx
      ensures Valid()
      ensures View() == Sending(old(View()), sendIdx, ecmIdx, cards[at].addr)
    {
      SendingConsistent(View(), sendIdx, ecmIdx, at);
      hide Consistent;
      var eei := Pending(sendIdx, ecmIdx, Some(cards[at].addr));
      var i := 0;
      while i < |extendedEcmIdx| && extendedEcmIdx[i].sendIdx != sendIdx
        invariant 0 <= i <= |extendedEcmIdx|
        invariant forall k :: 0 <= k < i ==> extendedEcmIdx[k].sendIdx != sendIdx
      {
        i := i + 1;
      }
      assert i == FirstSent(extendedEcmIdx, sendIdx);
      extendedEcmIdx := if i < |extendedEcmIdx| then extendedEcmIdx[i := eei] else extendedEcmIdx + [eei];
    }

    /** What the answer to a request does to the table; bad: there was no usable word in it. */
    method AnswerReceived(sendIdx: byte, bad: bool)
      requires Valid()
      modifies this`cards, this`extendedEcmIdx
      ensures Valid()
      ensures View() == Answering(old(View()), sendIdx, bad)
      ensures forall k :: 0 <= k < |extendedEcmIdx| ==> extendedEcmIdx[k].sendIdx != sendIdx
    {
      AnsweringConsistent(View(), sendIdx, bad);
      hide Consistent, MoveToEnd;
      ghost var before := View();
      ghost var i := FirstSent(extendedEcmIdx, sendIdx);
      if i < |extendedEcmIdx| {
        TakenConsistent(View(), i);
      }
      var eei := GetExtendedEcmIdx(sendIdx, true);
      assert i < |before.pending| ==> View() == Taken(before, i);
      if eei.Some? && eei.value.card.Some? && bad {
        MoveCardToEnd(eei.value.card.value);
      }
    }
  }
}
