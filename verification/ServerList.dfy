/**
 The server's list of cards to share, and how add_card_to_serverlist puts one more card
 into it: dropping duplicates, preferring fewer hops, or merging providers.
 */
module ServerList {
  import opened Bytes
  import opened Cards

  /** cc_minimize_cards. */
  datatype Minimize = MinimizeNone | MinimizeHops | MinimizeCaid | MinimizeTransparent

  datatype Config = Config(minimize: Minimize, forwardOrigin: bool)

  /** The branch the configuration selects. */
  datatype Mode = Plain | Hops | Caid

  function ModeOf(cfg: Config): Mode {
    if cfg.minimize.MinimizeCaid? && !cfg.forwardOrigin then Caid
    else if cfg.minimize.MinimizeHops? && !cfg.forwardOrigin then Hops
    else Plain
  }

  /** A card handed over, either for good or to be copied. */
  datatype Offer = Offer(held: Held, free: bool)

  /** The list, the addresses released so far, the next address of the allocator, and the
      duplicate counter. */
  datatype Table = Table(items: seq<Held>, freed: seq<nat>, next: nat, dups: nat)

  // ---------------------------------------------------------------- specification

  predicate Matches(mode: Mode, offered: Card, listed: Card) {
    match mode
    case Plain => SameCard(offered, listed)
    case Hops => SameCard2(offered, listed, false) && EqualProviders(offered.providers, listed.providers)
    case Caid =>
      && SameCard2(offered, listed, false)
      && |offered.providers| - NumSame(offered.providers, listed.providers) + |listed.providers| <= CS_MAXPROV
  }

  function FirstMatch(mode: Mode, c: Card, items: seq<Held>): (i: nat)
    ensures i <= |items|
    ensures forall k :: 0 <= k < i ==> !Matches(mode, c, items[k].card)
    ensures i < |items| ==> Matches(mode, c, items[i].card)
  {
    First(items, (h: Held) => Matches(mode, c, h.card))
  }

  /** The card that enters the list: the one offered, or a copy at a new address. */
  function Newcomer(mode: Mode, next: nat, o: Offer): Held {
    if o.free then o.held
    else
      var copy := CopyCard(o.held.card);
      Held(next, if mode.Caid? then copy.(hop := 0) else copy)
  }

  /** Removing the item at i and inserting through the same iterator: the place is kept,
      except that after removing the head the iterator is exhausted and appends. */
  function Displace(items: seq<Held>, i: nat, n: Held): seq<Held>
    requires i < |items|
  {
    if i == 0 then items[1..] + [n] else items[i := n]
  }

  function Merged(mode: Mode, listed: Card, offered: Card): Card {
    match mode
    case Plain => listed
    case Hops =>
      var c := listed.(grp := listed.grp + offered.grp,
                       providers := AddProviders(listed.providers, offered.providers));
      MergeSids(c, offered)
    case Caid =>
      var c := listed.(grp := listed.grp + offered.grp,
                       providers := AddProviders(listed.providers, offered.providers),
                       remoteNodes := []);
      MergeSids(c, offered)
  }

  predicate Drops(mode: Mode, listed: Card, offered: Card) {
    !mode.Caid? && listed.hop > offered.hop
  }

  function Add(mode: Mode, t: Table, o: Offer): Table {
    var i := FirstMatch(mode, o.held.card, t.items);
    var next := if o.free then t.next else t.next + 1;
    if i == |t.items| then
      Table(t.items + [Newcomer(mode, t.next, o)], t.freed, next, t.dups)
    else if Drops(mode, t.items[i].card, o.held.card) then
      Table(Displace(t.items, i, Newcomer(mode, t.next, o)), t.freed + [t.items[i].addr], next, t.dups + 1)
    else
      Table(t.items[i := t.items[i].(card := Merged(mode, t.items[i].card, o.held.card))],
            if o.free then t.freed + [o.held.addr] else t.freed, t.next, t.dups + 1)
  }

  function AddAll(mode: Mode, t: Table, offers: seq<Offer>): Table
    decreases |offers|
  {
    if offers == [] then t else Add(mode, AddAll(mode, t, offers[..|offers| - 1]), offers[|offers| - 1])
  }

  function Empty(first: nat): Table {
    Table([], [], first, 0)
  }

  // ---------------------------------------------------------------- one card a class

  /** What a class of duplicates has in common, per mode. */
  datatype Class =
    | PlainClass(remoteId: u32, caid: u16, cardType: CardType, sidtab: Option<nat>, grp: set<nat>,
                 serial: Serial, firstNode: Option<NodeId>)
    | HopsClass(caid: u16, cardType: CardType, sidtab: Option<nat>, serial: Serial, provs: set<u32>)

  function ClassOf(mode: Mode, c: Card): Class {
    if mode.Plain? then
      PlainClass(c.remoteId, c.caid, c.cardType, c.sidtab, c.grp, c.hexserial,
                 if c.remoteNodes == [] then None else Some(c.remoteNodes[0]))
    else
      HopsClass(c.caid, c.cardType, c.sidtab, c.hexserial, Provs(c.providers))
  }

  /** equal_providers is set equality only on lists without repetitions. */
  ghost predicate Regular(mode: Mode, c: Card) {
    mode.Hops? ==> DistinctProvs(c.providers)
  }

  lemma {:induction false} MatchIsClass(mode: Mode, a: Card, b: Card)
    requires !mode.Caid? && Regular(mode, a) && Regular(mode, b)
    ensures Matches(mode, a, b) <==> ClassOf(mode, a) == ClassOf(mode, b)
  {
    if mode.Hops? {
      EqualProvidersIsSetEquality(a.providers, b.providers);
      CountProvs(a.providers);
      CountProvs(b.providers);
    }
  }

  lemma {:induction false} NoProvs()
    ensures Provs([]) == {}
  {
  }

  lemma {:induction false} NewcomerKeepsClass(mode: Mode, t: Table, o: Offer)
    requires !mode.Caid? && Regular(mode, o.held.card)
    ensures var n := Newcomer(mode, t.next, o).card;
            n.hop == o.held.card.hop && ClassOf(mode, n) == ClassOf(mode, o.held.card) && Regular(mode, n)
  {
    hide EqualProviders, Provs;
    CopyIsSameCard(o.held.card);
    AddNodesCopies(o.held.card.remoteNodes);
    AddProvidersUnites([], o.held.card.providers);
    AddProvidersDistinct([], o.held.card.providers);
    NoProvs();
  }

  lemma {:induction false} MergeKeepsClass(mode: Mode, listed: Card, offered: Card)
    requires !mode.Caid? && Regular(mode, listed) && Regular(mode, offered) && Matches(mode, offered, listed)
    ensures var m := Merged(mode, listed, offered);
            m.hop == listed.hop && ClassOf(mode, m) == ClassOf(mode, listed) && Regular(mode, m)
  {
    if mode.Hops? {
      MatchIsClass(mode, offered, listed);
      AddProvidersFixpoint(listed.providers, offered.providers);
    }
  }

  /** The item stands for the offer: same class, no more hops. */
  ghost predicate Covers(mode: Mode, item: Held, o: Offer) {
    ClassOf(mode, item.card) == ClassOf(mode, o.held.card) && item.card.hop <= o.held.card.hop
  }

  ghost predicate Listed(mode: Mode, items: seq<Held>, o: Offer) {
    exists x :: x in items && Covers(mode, x, o)
  }

  /** The item's class and hop count are those of some offer. */
  ghost predicate ComesFrom(mode: Mode, item: Held, offers: seq<Offer>) {
    exists o :: o in offers && ClassOf(mode, item.card) == ClassOf(mode, o.held.card) && item.card.hop == o.held.card.hop
  }

  ghost predicate OnePerClass(mode: Mode, items: seq<Held>) {
    forall i, j :: 0 <= i < j < |items| ==> ClassOf(mode, items[i].card) != ClassOf(mode, items[j].card)
  }

  /** Every offered class is listed exactly once, with the least hop count offered for it,
      and nothing else is listed. */
  ghost predicate Deduplicated(mode: Mode, items: seq<Held>, offers: seq<Offer>) {
    && OnePerClass(mode, items)
    && (forall x :: x in items ==> Regular(mode, x.card) && ComesFrom(mode, x, offers))
    && (forall o :: o in offers ==> Listed(mode, items, o))
  }

  lemma {:induction false} Rotated(mode: Mode, items: seq<Held>, offers: seq<Offer>)
    requires items != [] && Deduplicated(mode, items, offers)
    ensures Deduplicated(mode, items[1..] + [items[0]], offers)
  {
  }

  lemma {:induction false} ComesFromMore(mode: Mode, item: Held, offers: seq<Offer>, o: Offer)
    ensures ComesFrom(mode, item, offers) ==> ComesFrom(mode, item, offers + [o])
    ensures ClassOf(mode, item.card) == ClassOf(mode, o.held.card) && item.card.hop == o.held.card.hop ==>
              ComesFrom(mode, item, offers + [o])
  {
  }

  lemma {:induction false} StaysOrReplaced<T>(items: seq<T>, i: nat, n: T, x: T)
    requires i < |items| && x in items
    ensures x in items[i := n] || x == items[i]
  {
    var k :| 0 <= k < |items| && items[k] == x;
    assert k != i ==> items[i := n][k] == x;
  }

  lemma {:induction false} ReplacedStillLists(mode: Mode, items: seq<Held>, i: nat, n: Held, p: Offer)
    requires i < |items| && Listed(mode, items, p)
    requires ClassOf(mode, n.card) == ClassOf(mode, items[i].card) && n.card.hop <= items[i].card.hop
    ensures Listed(mode, items[i := n], p)
  {
    hide ClassOf;
    var x :| x in items && Covers(mode, x, p);
    StaysOrReplaced(items, i, n, x);
    assert items[i := n][i] == n;
    if x !in items[i := n] {
      assert Covers(mode, n, p);
    }
  }

  lemma {:induction false} CoveredIsListed(mode: Mode, items: seq<Held>, x: Held, o: Offer)
    requires x in items && Covers(mode, x, o)
    ensures Listed(mode, items, o)
  {
  }

  /** The member of o's class is replaced by one with the smaller of the two hop counts. */
  lemma {:induction false} ReplacedDeduplicates(mode: Mode, items: seq<Held>, offers: seq<Offer>, o: Offer, i: nat, n: Held)
    requires i < |items| && Deduplicated(mode, items, offers)
    requires Regular(mode, n.card)
    requires ClassOf(mode, n.card) == ClassOf(mode, items[i].card) == ClassOf(mode, o.held.card)
    requires n.card.hop == if items[i].card.hop > o.held.card.hop then o.held.card.hop else items[i].card.hop
    ensures Deduplicated(mode, items[i := n], offers + [o])
  {
    hide ClassOf, Regular, Listed;
    var after := items[i := n];
    forall p | p in offers + [o] ensures Listed(mode, after, p) {
      if p == o {
        assert after[i] == n && Covers(mode, n, o);
        CoveredIsListed(mode, after, n, o);
      } else {
        ReplacedStillLists(mode, items, i, n, p);
      }
    }
    forall x | x in after ensures Regular(mode, x.card) && ComesFrom(mode, x, offers + [o]) {
      assert ComesFrom(mode, items[i], offers);
      ComesFromMore(mode, x, offers, o);
    }
  }

  lemma {:induction false} AppendedOnePerClass(mode: Mode, items: seq<Held>, n: Held)
    requires OnePerClass(mode, items)
    requires forall i :: 0 <= i < |items| ==> ClassOf(mode, items[i].card) != ClassOf(mode, n.card)
    ensures OnePerClass(mode, items + [n])
  {
    hide ClassOf;
  }

  lemma {:induction false} AppendedListed(mode: Mode, items: seq<Held>, n: Held, o: Offer)
    requires Listed(mode, items, o) || Covers(mode, n, o)
    ensures Listed(mode, items + [n], o)
  {
    hide Covers;
    if Listed(mode, items, o) {
      var x :| x in items && Covers(mode, x, o);
      assert x in items + [n];
    } else {
      assert n in items + [n];
    }
  }

  lemma {:induction false} AppendedDeduplicates(mode: Mode, items: seq<Held>, offers: seq<Offer>, o: Offer, n: Held)
    requires Deduplicated(mode, items, offers)
    requires Regular(mode, n.card)
    requires ClassOf(mode, n.card) == ClassOf(mode, o.held.card) && n.card.hop == o.held.card.hop
    requires forall i :: 0 <= i < |items| ==> ClassOf(mode, items[i].card) != ClassOf(mode, o.held.card)
    ensures Deduplicated(mode, items + [n], offers + [o])
  {
    hide ClassOf, Regular, OnePerClass, Listed, ComesFrom;
    var after := items + [n];
    AppendedOnePerClass(mode, items, n);
    forall p | p in offers + [o] ensures Listed(mode, after, p) {
      assert p == o ==> Covers(mode, n, o);
      assert p != o ==> p in offers;
      AppendedListed(mode, items, n, p);
    }
    forall x | x in after ensures Regular(mode, x.card) && ComesFrom(mode, x, offers + [o]) {
      assert x == n || x in items;
      ComesFromMore(mode, x, offers, o);
    }
  }

  lemma {:induction false} MembersAreRegular(mode: Mode, items: seq<Held>, offers: seq<Offer>)
    requires Deduplicated(mode, items, offers)
    ensures forall k :: 0 <= k < |items| ==> Regular(mode, items[k].card)
  {
  }

  lemma {:induction false} AddDeduplicates(mode: Mode, t: Table, offers: seq<Offer>, o: Offer)
    requires !mode.Caid? && Regular(mode, o.held.card) && Deduplicated(mode, t.items, offers)
    ensures Deduplicated(mode, Add(mode, t, o).items, offers + [o])
  {
    hide ClassOf, Regular, Matches, Newcomer, Merged, Deduplicated;
    MembersAreRegular(mode, t.items, offers);
    var i := FirstMatch(mode, o.held.card, t.items);
    forall k | 0 <= k < |t.items|
      ensures Matches(mode, o.held.card, t.items[k].card) <==> ClassOf(mode, t.items[k].card) == ClassOf(mode, o.held.card)
    {
      MatchIsClass(mode, o.held.card, t.items[k].card);
    }
    NewcomerKeepsClass(mode, t, o);
    var n := Newcomer(mode, t.next, o);
    if i == |t.items| {
      AppendedDeduplicates(mode, t.items, offers, o, n);
    } else if Drops(mode, t.items[i].card, o.held.card) {
      if i == 0 {
        Rotated(mode, t.items, offers);
        var turned := t.items[1..] + [t.items[0]];
        ReplacedDeduplicates(mode, turned, offers, o, |turned| - 1, n);
        assert turned[|turned| - 1 := n] == t.items[1..] + [n];
      } else {
        ReplacedDeduplicates(mode, t.items, offers, o, i, n);
      }
    } else {
      MergeKeepsClass(mode, t.items[i].card, o.held.card);
      var m := t.items[i].(card := Merged(mode, t.items[i].card, o.held.card));
      ReplacedDeduplicates(mode, t.items, offers, o, i, m);
    }
  }

  /** The main result for the modes that drop duplicates: after any sequence of calls from an
      empty list, exactly one card a class offered, with its least hop count. */
  lemma {:induction false} AddAllDeduplicates(mode: Mode, first: nat, offers: seq<Offer>)
    requires !mode.Caid?
    requires forall k :: 0 <= k < |offers| ==> Regular(mode, offers[k].held.card)
    ensures Deduplicated(mode, AddAll(mode, Empty(first), offers).items, offers)
    decreases |offers|
  {
    hide ClassOf, Regular, Add, ComesFrom, Listed;
    if offers == [] {
    } else {
      var n := |offers| - 1;
      assert forall k :: 0 <= k < n ==> offers[..n][k] == offers[k];
      AddAllDeduplicates(mode, first, offers[..n]);
      AddDeduplicates(mode, AddAll(mode, Empty(first), offers[..n]), offers[..n], offers[n]);
      assert offers == offers[..n] + [offers[n]];
    }
  }

  // ---------------------------------------------------------------- repeated providers

  lemma {:induction false} HasItsOwn(a: seq<Provider>, b: seq<Provider>)
    requires Provs(a) == Provs(b)
    ensures EqualProviders(a, b) <==> |a| == |b|
  {
    hide Provs;
    forall i | 0 <= i < |a| ensures HasProv(b, a[i].prov) {
      HasProvIsMembership(a, a[i].prov);
      HasProvIsMembership(b, a[i].prov);
    }
  }

  lemma {:induction false} CopyHasEach(c: Card)
    ensures var ps := CopyCard(c).providers; Provs(ps) == Provs(c.providers) && DistinctProvs(ps)
    ensures EqualProviders(c.providers, CopyCard(c).providers) <==> DistinctProvs(c.providers)
  {
    hide EqualProviders, Provs;
    var copy := CopyCard(c).providers;
    AddProvidersUnites([], c.providers);
    AddProvidersDistinct([], c.providers);
    NoProvs();
    assert Provs(copy) == Provs(c.providers);
    CountProvs(copy);
    CountsEachOnce(c.providers);
    assert |copy| == |Provs(c.providers)|;
    HasItsOwn(c.providers, copy);
  }

  lemma {:induction false} AddedTwice(mode: Mode, first: nat, o: Offer)
    ensures AddAll(mode, Empty(first), [o, o]) == Add(mode, Add(mode, Empty(first), o), o)
  {
    hide Add;
    assert [o, o][..1] == [o] && [o][..0] == [];
    assert AddAll(mode, Empty(first), []) == Empty(first);
    assert AddAll(mode, Empty(first), [o]) == Add(mode, Empty(first), o);
  }

  lemma {:induction false} CopyKeepsHop(c: Card)
    ensures CopyCard(c).hop == c.hop
  {
  }

  lemma {:induction false} TwoOfAClass(items: seq<Held>, offers: seq<Offer>)
    requires |items| == 2 && items[0].card == items[1].card
    ensures !Deduplicated(Hops, items, offers)
  {
  }

  lemma {:induction false} CopyMatches(c: Card)
    ensures Matches(Hops, c, CopyCard(c)) <==> DistinctProvs(c.providers)
  {
    hide CopyCard, EqualProviders;
    CopyHasEach(c);
    CopyIsSameCard(c);
  }

  lemma {:induction false} HopsTwice(first: nat, h: Held)
    ensures var o := Offer(h, false);
            var items := Add(Hops, Add(Hops, Empty(first), o), o).items;
            if DistinctProvs(h.card.providers) then |items| == 1
            else items == [Held(first, CopyCard(h.card)), Held(first + 1, CopyCard(h.card))]
  {
    hide CopyCard, Merged, EqualProviders, SameCard2;
    var o := Offer(h, false);
    var copy := Held(first, CopyCard(h.card));
    assert Add(Hops, Empty(first), o) == Table([copy], [], first + 1, 0);
    CopyMatches(h.card);
    CopyKeepsHop(h.card);
  }

  /** With MINIMIZE_HOPS, a card offered twice to be copied is listed once exactly if it repeats
      no provider. */
  lemma {:induction false} OfferedTwice(first: nat, h: Held)
    ensures var o := Offer(h, false);
            var items := AddAll(Hops, Empty(first), [o, o]).items;
            && (|items| == 1 <==> DistinctProvs(h.card.providers))
            && (Deduplicated(Hops, items, [o, o]) <==> DistinctProvs(h.card.providers))
  {
    hide Add, CopyCard, Deduplicated;
    var o := Offer(h, false);
    AddedTwice(Hops, first, o);
    HopsTwice(first, h);
    var items := AddAll(Hops, Empty(first), [o, o]).items;
    if DistinctProvs(h.card.providers) {
      AddAllDeduplicates(Hops, first, [o, o]);
    } else {
      TwoOfAClass(items, [o, o]);
    }
  }

  ghost predicate CopiedFrom(offers: seq<Offer>, stock: set<Card>) {
    forall k :: 0 <= k < |offers| ==> !offers[k].free && offers[k].held.card in stock
  }

  /** What MINIMIZE_HOPS may be offered without losing count: whatever is copied from a stock of
      cards, the list is free of duplicates, exactly if no card of the stock repeats a provider. */
  lemma {:induction false} HopsDeduplicatesExactly(stock: set<Card>)
    ensures (forall offers :: CopiedFrom(offers, stock) ==> Deduplicated(Hops, AddAll(Hops, Empty(0), offers).items, offers)) <==>
            (forall c :: c in stock ==> DistinctProvs(c.providers))
  {
    hide Deduplicated, AddAll, DistinctProvs;
    if forall c :: c in stock ==> DistinctProvs(c.providers) {
      forall offers | CopiedFrom(offers, stock)
        ensures Deduplicated(Hops, AddAll(Hops, Empty(0), offers).items, offers)
      {
        AddAllDeduplicates(Hops, 0, offers);
      }
    } else {
      var c :| c in stock && !DistinctProvs(c.providers);
      var o := Offer(Held(0, c), false);
      OfferedTwice(0, o.held);
      assert CopiedFrom([o, o], stock);
    }
  }

  // ---------------------------------------------------------------- every card is listed or released

  function Addrs(items: seq<Held>): (a: seq<nat>)
    ensures |a| == |items|
  {
    seq(|items|, i requires 0 <= i < |items| => items[i].addr)
  }

  /** All addresses the list answers for, with how often it does. */
  ghost function Owned(t: Table): multiset<nat> {
    multiset(Addrs(t.items)) + multiset(t.freed)
  }

  /** Addresses handed over for good. */
  function GivenAddrs(offers: seq<Offer>): seq<nat>
    decreases |offers|
  {
    if offers == [] then []
    else
      GivenAddrs(offers[..|offers| - 1]) +
      (if offers[|offers| - 1].free then [offers[|offers| - 1].held.addr] else [])
  }

  lemma {:induction false} DisplaceOwns(items: seq<Held>, freed: seq<nat>, i: nat, n: Held)
    requires i < |items|
    ensures multiset(Addrs(Displace(items, i, n))) + multiset(freed + [items[i].addr]) ==
            multiset(Addrs(items)) + multiset(freed) + multiset{n.addr}
  {
    var a := Addrs(items);
    if i == 0 {
      assert Addrs(items[1..] + [n]) == a[1..] + [n.addr];
      assert a == [a[0]] + a[1..];
    } else {
      assert Addrs(items[i := n]) == a[i := n.addr];
    }
  }

  lemma {:induction false} AppendOwns(items: seq<Held>, n: Held)
    ensures Addrs(items + [n]) == Addrs(items) + [n.addr]
  {
  }

  lemma {:induction false} RewriteOwns(items: seq<Held>, i: nat, c: Card)
    requires i < |items|
    ensures Addrs(items[i := items[i].(card := c)]) == Addrs(items)
  {
  }

  /** One call adds to what the list answers for exactly the card given, or the copy made. */
  lemma {:induction false} AddOwns(mode: Mode, t: Table, o: Offer)
    ensures var after := Add(mode, t, o);
            && Owned(after) == Owned(t) + (if o.free then multiset{o.held.addr}
                                           else if after.next > t.next then multiset{t.next} else multiset{})
            && t.next <= after.next <= t.next + 1
            && (o.free ==> after.next == t.next)
  {
    hide FirstMatch, Matches, Merged, Drops, CopyCard, Displace, Addrs;
    var i := FirstMatch(mode, o.held.card, t.items);
    var n := Newcomer(mode, t.next, o);
    if i == |t.items| {
      AppendOwns(t.items, n);
    } else if Drops(mode, t.items[i].card, o.held.card) {
      DisplaceOwns(t.items, t.freed, i, n);
    } else {
      RewriteOwns(t.items, i, Merged(mode, t.items[i].card, o.held.card));
    }
  }

  lemma {:induction false} EmptyOwnsNothing(first: nat)
    ensures forall a :: Owned(Empty(first))[a] == 0
  {
  }

  /** In every mode, after any sequence of calls: an address handed over for good, or made
      for a copy, is listed or released, and never both and never twice. */
  lemma {:induction false} AddAllAccounts(mode: Mode, first: nat, offers: seq<Offer>)
    requires NoDuplicates(GivenAddrs(offers))
    requires forall a :: a in GivenAddrs(offers) ==> a < first
    ensures var t := AddAll(mode, Empty(first), offers);
            && first <= t.next
            && forall a :: Owned(t)[a] == if a in GivenAddrs(offers) || first <= a < t.next then 1 else 0
    decreases |offers|
  {
    hide Add, Owned;
    if offers == [] {
      EmptyOwnsNothing(first);
    } else {
      var n := |offers| - 1;
      var given := GivenAddrs(offers[..n]);
      assert given == GivenAddrs(offers)[..|given|];
      assert forall a :: a in given ==> a in GivenAddrs(offers);
      AddAllAccounts(mode, first, offers[..n]);
      AddOwns(mode, AddAll(mode, Empty(first), offers[..n]), offers[n]);
      if offers[n].free {
        var addr := offers[n].held.addr;
        assert GivenAddrs(offers) == given + [addr];
        assert addr in GivenAddrs(offers);
        assert addr !in given by {
          assert forall k :: 0 <= k < |given| ==> GivenAddrs(offers)[k] == given[k] && GivenAddrs(offers)[|given|] == addr;
        }
        assert forall a :: a in GivenAddrs(offers) <==> a in given || a == addr;
      }
    }
  }

  // ---------------------------------------------------------------- merging by CAID

  datatype CaidClass = CaidClass(caid: u16, cardType: CardType, sidtab: Option<nat>, serial: Serial)

  function CaidClassOf(c: Card): CaidClass {
    CaidClass(c.caid, c.cardType, c.sidtab, c.hexserial)
  }

  /** An offered card that repeats no provider is merged exactly into a card of its class with
      which it stays within the cap. */
  lemma {:induction false} MergesIfFits(listed: Card, offered: Card)
    requires DistinctProvs(offered.providers)
    ensures Matches(Caid, offered, listed) <==>
            CaidClassOf(offered) == CaidClassOf(listed) && |AddProviders(listed.providers, offered.providers)| <= CS_MAXPROV
  {
    hide AddProviders;
    MergedLength(listed.providers, offered.providers);
  }

  /** Which branch a configuration selects: cards are only thinned out or merged where they are
      not forwarded as they came. */
  lemma {:induction false} OnlyWhereAsked(cfg: Config)
    ensures cfg.forwardOrigin ==> ModeOf(cfg) == Plain
    ensures !cfg.forwardOrigin ==> (ModeOf(cfg) == Caid <==> cfg.minimize == MinimizeCaid)
    ensures !cfg.forwardOrigin ==> (ModeOf(cfg) == Hops <==> cfg.minimize == MinimizeHops)
  {
  }

  /** The providers listed for a class. */
  ghost function ListedProvs(items: seq<Held>, class_: CaidClass): set<u32>
    decreases |items|
  {
    if items == [] then {}
    else
      var n := |items| - 1;
      ListedProvs(items[..n], class_) +
      (if CaidClassOf(items[n].card) == class_ then Provs(items[n].card.providers) else {})
  }

  ghost function OfferedProvs(offers: seq<Offer>, class_: CaidClass): set<u32>
    decreases |offers|
  {
    if offers == [] then {}
    else
      var n := |offers| - 1;
      OfferedProvs(offers[..n], class_) +
      (if CaidClassOf(offers[n].held.card) == class_ then Provs(offers[n].held.card.providers) else {})
  }

  lemma {:induction false} ListedProvsUpdate(items: seq<Held>, i: nat, n: Held, more: set<u32>, class_: CaidClass)
    requires i < |items| && CaidClassOf(n.card) == CaidClassOf(items[i].card)
    requires Provs(n.card.providers) == Provs(items[i].card.providers) + more
    ensures ListedProvs(items[i := n], class_) ==
            ListedProvs(items, class_) + (if CaidClassOf(n.card) == class_ then more else {})
    decreases |items|
  {
    hide Provs, CaidClassOf;
    var last := |items| - 1;
    if i == last {
      assert items[i := n][..last] == items[..last];
    } else {
      ListedProvsUpdate(items[..last], i, n, more, class_);
      assert items[i := n][..last] == items[..last][i := n];
    }
  }

  ghost predicate WithinCap(items: seq<Held>) {
    forall i :: 0 <= i < |items| ==> |items[i].card.providers| <= CS_MAXPROV
  }

  lemma {:induction false} MergedByCaid(listed: Card, offered: Card)
    ensures var m := Merged(Caid, listed, offered);
            CaidClassOf(m) == CaidClassOf(listed) && m.providers == AddProviders(listed.providers, offered.providers)
  {
    hide AddProviders;
  }

  lemma {:induction false} NewcomerByCaid(next: nat, o: Offer)
    ensures var n := Newcomer(Caid, next, o).card;
            && CaidClassOf(n) == CaidClassOf(o.held.card)
            && n.providers == if o.free then o.held.card.providers else AddProviders([], o.held.card.providers)
  {
    hide AddProviders;
  }

  /** Merging within the match condition stays within the cap. */
  lemma {:induction false} MatchKeepsCap(listed: Card, offered: Card)
    requires Matches(Caid, offered, listed)
    ensures |AddProviders(listed.providers, offered.providers)| <= CS_MAXPROV && CaidClassOf(offered) == CaidClassOf(listed)
  {
    hide AddProviders;
  }

  lemma {:induction false} AddMerges(t: Table, o: Offer, class_: CaidClass)
    ensures ListedProvs(Add(Caid, t, o).items, class_) ==
            ListedProvs(t.items, class_) +
            (if CaidClassOf(o.held.card) == class_ then Provs(o.held.card.providers) else {})
    ensures WithinCap(t.items) && |o.held.card.providers| <= CS_MAXPROV ==> WithinCap(Add(Caid, t, o).items)
  {
    hide Provs, AddProviders, Merged, Newcomer, Matches, CaidClassOf;
    var i := FirstMatch(Caid, o.held.card, t.items);
    if i == |t.items| {
      var n := Newcomer(Caid, t.next, o);
      NewcomerByCaid(t.next, o);
      AddProvidersUnites([], o.held.card.providers);
      NoProvs();
      assert (t.items + [n])[..i] == t.items;
    } else {
      var listed := t.items[i].card;
      var m := t.items[i].(card := Merged(Caid, listed, o.held.card));
      MergedByCaid(listed, o.held.card);
      MatchKeepsCap(listed, o.held.card);
      AddProvidersUnites(listed.providers, o.held.card.providers);
      ListedProvsUpdate(t.items, i, m, Provs(o.held.card.providers), class_);
    }
  }

  /** The main result for MINIMIZE_CAID: merging loses no provider, invents none, and no
      listed card goes over the cap when no offered card does. */
  lemma {:induction false} AddAllMerges(first: nat, offers: seq<Offer>, class_: CaidClass)
    ensures var items := AddAll(Caid, Empty(first), offers).items;
            && ListedProvs(items, class_) == OfferedProvs(offers, class_)
            && ((forall k :: 0 <= k < |offers| ==> |offers[k].held.card.providers| <= CS_MAXPROV) ==> WithinCap(items))
    decreases |offers|
  {
    hide Add, Provs;
    if offers == [] {
    } else {
      var n := |offers| - 1;
      assert forall k :: 0 <= k < n ==> offers[..n][k] == offers[k];
      AddAllMerges(first, offers[..n], class_);
      AddMerges(AddAll(Caid, Empty(first), offers[..n]), offers[n], class_);
    }
  }

  // ---------------------------------------------------------------- the program

  class CardList {
    var items: seq<Held>
    var freed: seq<nat>
    var next: nat
    var dups: nat

    ghost function View(): Table
      reads this
    {
      Table(items, freed, next, dups)
    }

    constructor (first: nat)
      ensures View() == Empty(first)
    {
      items, freed, next, dups := [], [], first, 0;
    }

    /** The iteration at the start of each branch. */
    method FindMatch(mode: Mode, card: Card) returns (i: nat)
      ensures i == FirstMatch(mode, card, items)
    {
      i := 0;
      while i < |items|
        invariant 0 <= i <= |items|
        invariant FirstMatch(mode, card, items) == i + FirstMatch(mode, card, items[i..])
      {
        var card2 := items[i].card;
        var found: bool;
        match mode {
          case Plain =>
            found := SameCard(card, card2);
          case Hops =>
            found := SameCard2(card, card2, false);
            if found {
              found := CompareProviders(card.providers, card2.providers);
            }
          case Caid =>
            found := SameCard2(card, card2, false);
            if found {
              var nsame := NumSameProviders(card.providers, card2.providers);
              var ndiff := |card.providers| - nsame;
              found := ndiff + |card2.providers| <= CS_MAXPROV;
            }
        }
        assert found == Matches(mode, card, items[i..][0].card);
        if found {
          return;
        }
        assert items[i..][1..] == items[i + 1..];
        i := i + 1;
      }
    }

    /** Inserts the offered card, or a copy, and says at which address. */
    method TakeIn(mode: Mode, o: Offer) returns (n: Held)
      modifies this`next
      ensures n == Newcomer(mode, old(next), o)
      ensures next == if o.free then old(next) else old(next) + 1
    {
      if o.free {
        n := o.held;
      } else {
        var card2 := o.held.card.(id := 0,
                                  goodsids := CopyGoodSids([], o.held.card.goodsids),
                                  badsids := CopyBadSids([], o.held.card.badsids),
                                  providers := [], remoteNodes := []);
        if mode == Caid {
          card2 := card2.(hop := 0);
        }
        var modified: bool;
        card2, modified := AddCardProviders(card2, o.held.card, true);
        n := Held(next, card2);
        next := next + 1;
      }
    }

    method AddCardToServerlist(cfg: Config, o: Offer) returns (modified: bool)
      modifies this
      ensures View() == Add(ModeOf(cfg), old(View()), o)
      ensures modified <==> (FirstMatch(ModeOf(cfg), o.held.card, old(items)) == |old(items)| ||
                             Drops(ModeOf(cfg), old(items)[FirstMatch(ModeOf(cfg), o.held.card, old(items))].card, o.held.card))
    {
      hide FirstMatch, MergeSids, Newcomer, Matches, SameCard, SameCard2;
      var mode := ModeOf(cfg);
      var i := FindMatch(mode, o.held.card);
      modified := false;
      if i == |items| {
        var n := TakeIn(mode, o);
        items := items + [n];
        modified := true;
      } else if mode != Caid && items[i].card.hop > o.held.card.hop {
        freed := freed + [items[i].addr];
        dups := dups + 1;
        var n := TakeIn(mode, o);
        items := Displace(items, i, n);
        modified := true;
        assert View() == Add(mode, old(View()), o);
      } else {
        dups := dups + 1;
        var card2 := items[i].card;
        if mode != Plain {
          card2 := card2.(grp := card2.grp + o.held.card.grp);
          var added: bool;
          card2, added := AddCardProviders(card2, o.held.card, false);
          if mode == Caid {
            card2 := card2.(remoteNodes := []);
          }
          card2 := MergeSids(card2, o.held.card);
        }
        assert card2 == Merged(mode, items[i].card, o.held.card);
        items := items[i := items[i].(card := card2)];
        if o.free {
          freed := freed + [o.held.addr];
        }
        assert View() == Add(mode, old(View()), o);
      }
    }
  }
}
