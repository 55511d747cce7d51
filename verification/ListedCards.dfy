/**
 Which of the cards offered the server lists: of each class of duplicates the first one with
 the least hops, together with the groups of all that came after it.
 */
module ListedCards {
  import opened Bytes
  import opened Cards
  import opened ServerList

  ghost predicate SameClass(mode: Mode, a: Card, b: Card) {
    ClassOf(mode, a) == ClassOf(mode, b)
  }

  /** Offer k is the first of its class with the least hop count of the class. */
  ghost predicate FirstLeast(mode: Mode, offers: seq<Offer>, k: nat) {
    && k < |offers|
    && forall j :: 0 <= j < |offers| && SameClass(mode, offers[j].held.card, offers[k].held.card) ==>
                     if j < k then offers[j].held.card.hop > offers[k].held.card.hop
                     else offers[j].held.card.hop >= offers[k].held.card.hop
  }

  /** The listed card is the one of the offer, or a copy of it, in all but its groups and services. */
  ghost predicate IsOf(x: Held, o: Offer) {
    var c := if o.free then o.held.card else CopyCard(o.held.card);
    && (o.free ==> x.addr == o.held.addr)
    && x.card == c.(grp := x.card.grp, goodsids := x.card.goodsids, badsids := x.card.badsids)
  }

  /** It is in every group that an offer of its class from k on is in, and in no other. */
  ghost predicate HasGroups(mode: Mode, x: Held, offers: seq<Offer>, k: nat)
    requires k < |offers|
  {
    forall g :: g in x.card.grp <==>
                exists j :: k <= j < |offers| && SameClass(mode, offers[j].held.card, offers[k].held.card) &&
                            g in offers[j].held.card.grp
  }

  ghost predicate StandsFor(mode: Mode, x: Held, offers: seq<Offer>, k: nat) {
    && FirstLeast(mode, offers, k)
    && SameClass(mode, x.card, offers[k].held.card)
    && IsOf(x, offers[k])
    && HasGroups(mode, x, offers, k)
  }

  ghost predicate AllFirstLeast(mode: Mode, items: seq<Held>, offers: seq<Offer>) {
    forall x :: x in items ==> exists k: nat :: StandsFor(mode, x, offers, k)
  }

  /** A further offer of another class changes nothing. */
  lemma {:induction false} StillStands(mode: Mode, x: Held, offers: seq<Offer>, k: nat, o: Offer)
    requires StandsFor(mode, x, offers, k) && !SameClass(mode, o.held.card, offers[k].held.card)
    ensures StandsFor(mode, x, offers + [o], k)
  {
    hide SameClass, IsOf;
    var all := offers + [o];
    assert forall j :: 0 <= j < |offers| ==> all[j] == offers[j];
  }

  lemma {:induction false} NowStands(mode: Mode, x: Held, offers: seq<Offer>, o: Offer)
    requires IsOf(x, o) && SameClass(mode, x.card, o.held.card) && x.card.grp == o.held.card.grp
    requires forall j :: 0 <= j < |offers| && SameClass(mode, offers[j].held.card, o.held.card) ==>
                           offers[j].held.card.hop > o.held.card.hop
    ensures StandsFor(mode, x, offers + [o], |offers|)
  {
    hide IsOf;
    var all := offers + [o];
    assert forall j :: 0 <= j < |offers| ==> all[j] == offers[j];
    assert all[|offers|] == o;
    assert SameClass(mode, o.held.card, o.held.card);
  }

  /** Merging two cards of a class adds groups and services, and nothing else. */
  lemma {:induction false} MergingAdds(mode: Mode, a: Card, b: Card)
    requires !mode.Caid? && Regular(mode, a) && Regular(mode, b) && SameClass(mode, a, b)
    ensures var m := Merged(mode, a, b); m == a.(grp := a.grp + b.grp, goodsids := m.goodsids, badsids := m.badsids)
  {
    hide MergeSids, AddProviders, Provs, DistinctProvs;
    if mode.Hops? {
      AddProvidersFixpoint(a.providers, b.providers);
      var c := a.(grp := a.grp + b.grp, providers := AddProviders(a.providers, b.providers));
      MergesServices(c, b);
    } else {
      assert a.grp + b.grp == a.grp;
    }
  }

  /** What the offer's class is told apart by is not merged. */
  lemma {:induction false} MergedIsOf(x: Held, y: Held, o: Offer)
    requires IsOf(x, o) && x.addr == y.addr
    requires y.card == x.card.(grp := y.card.grp, goodsids := y.card.goodsids, badsids := y.card.badsids)
    ensures IsOf(y, o)
  {
  }

  lemma {:induction false} MergedLeast(mode: Mode, offers: seq<Offer>, k: nat, o: Offer)
    requires FirstLeast(mode, offers, k) && offers[k].held.card.hop <= o.held.card.hop
    ensures FirstLeast(mode, offers + [o], k)
  {
    hide SameClass;
    var all := offers + [o];
    assert forall j :: 0 <= j < |offers| ==> all[j] == offers[j];
  }

  lemma {:induction false} MergedGroups(mode: Mode, x: Held, y: Held, offers: seq<Offer>, k: nat, o: Offer)
    requires k < |offers| && HasGroups(mode, x, offers, k)
    requires SameClass(mode, o.held.card, offers[k].held.card) && y.card.grp == x.card.grp + o.held.card.grp
    ensures HasGroups(mode, y, offers + [o], k)
  {
    hide SameClass;
    var all := offers + [o];
    assert all[|offers|] == o;
    assert forall j :: 0 <= j < |offers| ==> all[j] == offers[j];
  }

  /** A further offer of the class, with no less hops, adds its groups. */
  lemma {:induction false} MergedStands(mode: Mode, x: Held, offers: seq<Offer>, k: nat, o: Offer)
    requires !mode.Caid? && StandsFor(mode, x, offers, k)
    requires Regular(mode, x.card) && Regular(mode, o.held.card)
    requires SameClass(mode, x.card, o.held.card) && x.card.hop <= o.held.card.hop
    requires x.card.hop == offers[k].held.card.hop
    ensures StandsFor(mode, x.(card := Merged(mode, x.card, o.held.card)), offers + [o], k)
  {
    hide Merged, HasGroups, Matches, IsOf, ClassOf, Regular;
    var m := Merged(mode, x.card, o.held.card);
    MatchIsClass(mode, o.held.card, x.card);
    MergeKeepsClass(mode, x.card, o.held.card);
    MergingAdds(mode, x.card, o.held.card);
    MergedIsOf(x, x.(card := m), offers[k]);
    MergedGroups(mode, x, x.(card := m), offers, k, o);
    MergedLeast(mode, offers, k, o);
  }

  // ---------------------------------------------------------------- one more offer

  ghost predicate Knows(mode: Mode, items: seq<Held>, o: Offer, i: nat) {
    && i <= |items|
    && (i < |items| ==> SameClass(mode, items[i].card, o.held.card))
    && (forall j :: 0 <= j < |items| && j != i ==> !SameClass(mode, items[j].card, o.held.card))
  }

  /** The first match is the only one of the class. */
  lemma {:induction false} MatchIsOnlyOne(mode: Mode, items: seq<Held>, offers: seq<Offer>, o: Offer)
    requires !mode.Caid? && Regular(mode, o.held.card) && Deduplicated(mode, items, offers)
    ensures Knows(mode, items, o, FirstMatch(mode, o.held.card, items))
  {
    hide ClassOf, Regular, Matches;
    MembersAreRegular(mode, items, offers);
    forall k | 0 <= k < |items|
      ensures Matches(mode, o.held.card, items[k].card) <==> ClassOf(mode, items[k].card) == ClassOf(mode, o.held.card)
    {
      MatchIsClass(mode, o.held.card, items[k].card);
    }
  }

  /** Where the class is not listed, or with more hops, no offer before had as few. */
  lemma {:induction false} EarlierHaveMore(mode: Mode, items: seq<Held>, offers: seq<Offer>, o: Offer, i: nat)
    requires Deduplicated(mode, items, offers) && Knows(mode, items, o, i)
    requires i < |items| ==> items[i].card.hop > o.held.card.hop
    ensures forall j :: 0 <= j < |offers| && SameClass(mode, offers[j].held.card, o.held.card) ==>
                          offers[j].held.card.hop > o.held.card.hop
  {
    hide ClassOf, Regular;
    forall j | 0 <= j < |offers| && SameClass(mode, offers[j].held.card, o.held.card)
      ensures offers[j].held.card.hop > o.held.card.hop
    {
      assert Listed(mode, items, offers[j]);
      var x :| x in items && Covers(mode, x, offers[j]);
      var at :| 0 <= at < |items| && items[at] == x;
      assert at == i;
    }
  }

  lemma {:induction false} OthersStand(mode: Mode, items: seq<Held>, offers: seq<Offer>, o: Offer, i: nat, j: nat)
    requires AllFirstLeast(mode, items, offers) && Knows(mode, items, o, i) && j < |items| && j != i
    ensures exists k: nat :: StandsFor(mode, items[j], offers + [o], k)
  {
    hide ClassOf, IsOf, HasGroups;
    assert items[j] in items;
    var k: nat :| StandsFor(mode, items[j], offers, k);
    StillStands(mode, items[j], offers, k, o);
  }

  /** What is in the list after a call: the cards that did not match, and the one in the place
      of the match. */
  lemma {:induction false} AddedOrKept(mode: Mode, t: Table, o: Offer, x: Held)
    requires x in Add(mode, t, o).items
    ensures var i := FirstMatch(mode, o.held.card, t.items);
            (exists j :: 0 <= j < |t.items| && j != i && x == t.items[j]) ||
            x == if i < |t.items| && !Drops(mode, t.items[i].card, o.held.card)
                 then t.items[i].(card := Merged(mode, t.items[i].card, o.held.card)) else Newcomer(mode, t.next, o)
  {
    hide Merged, Newcomer, Drops, FirstMatch;
    var i := FirstMatch(mode, o.held.card, t.items);
    var after := Add(mode, t, o).items;
    var k :| 0 <= k < |after| && after[k] == x;
    if i < |t.items| && Drops(mode, t.items[i].card, o.held.card) && i == 0 {
      assert k < |after| - 1 ==> x == t.items[k + 1];
    } else {
      assert k != i ==> x == t.items[k];
    }
  }

  lemma {:induction false} NewcomerIsOf(mode: Mode, t: Table, o: Offer)
    requires !mode.Caid? && Regular(mode, o.held.card)
    ensures var n := Newcomer(mode, t.next, o);
            IsOf(n, o) && SameClass(mode, n.card, o.held.card) && n.card.grp == o.held.card.grp
  {
    hide Provs, DistinctProvs, AddProviders, AddNodes, CopyGoodSids, CopyBadSids;
    assert SameClass(mode, Newcomer(mode, t.next, o).card, o.held.card) by {
      hide Newcomer, ClassOf;
      NewcomerKeepsClass(mode, t, o);
    }
  }

  lemma {:induction false} IsOfHop(x: Held, o: Offer)
    requires IsOf(x, o)
    ensures x.card.hop == o.held.card.hop
  {
  }

  lemma {:induction false} ListedMerges(mode: Mode, items: seq<Held>, offers: seq<Offer>, o: Offer, i: nat)
    requires !mode.Caid? && Regular(mode, o.held.card) && Deduplicated(mode, items, offers)
    requires AllFirstLeast(mode, items, offers) && i < |items| && Knows(mode, items, o, i)
    requires !Drops(mode, items[i].card, o.held.card)
    ensures exists k: nat :: StandsFor(mode, items[i].(card := Merged(mode, items[i].card, o.held.card)), offers + [o], k)
  {
    hide ClassOf, Regular, Merged, HasGroups, Deduplicated;
    var x := items[i];
    assert x in items;
    var k: nat :| StandsFor(mode, x, offers, k);
    assert x.card.hop == offers[k].held.card.hop by { IsOfHop(x, offers[k]); }
    MembersAreRegular(mode, items, offers);
    MergedStands(mode, x, offers, k, o);
  }

  lemma {:induction false} AddFirstLeast(mode: Mode, t: Table, offers: seq<Offer>, o: Offer)
    requires !mode.Caid? && Regular(mode, o.held.card) && Deduplicated(mode, t.items, offers)
    requires AllFirstLeast(mode, t.items, offers)
    ensures AllFirstLeast(mode, Add(mode, t, o).items, offers + [o])
  {
    hide ClassOf, Regular, Newcomer, Merged, Deduplicated, StandsFor, FirstMatch;
    var items := t.items;
    var i := FirstMatch(mode, o.held.card, items);
    var after := Add(mode, t, o).items;
    MatchIsOnlyOne(mode, items, offers, o);
    var n := Newcomer(mode, t.next, o);
    var merges := i < |items| && !Drops(mode, items[i].card, o.held.card);
    if merges {
      ListedMerges(mode, items, offers, o, i);
    } else {
      EarlierHaveMore(mode, items, offers, o, i);
      NewcomerIsOf(mode, t, o);
      NowStands(mode, n, offers, o);
    }
    forall x | x in after ensures exists k: nat :: StandsFor(mode, x, offers + [o], k) {
      AddedOrKept(mode, t, o, x);
      if j :| 0 <= j < |items| && j != i && x == items[j] {
        OthersStand(mode, items, offers, o, i, j);
      } else if merges {
        assert x == items[i].(card := Merged(mode, items[i].card, o.held.card));
      } else {
        assert x == n;
      }
    }
  }

  /** The main result: whatever is offered, in whatever order, each listed card is the first of
      its class with the least hop count, at its own address or copied, changed only in its
      groups, which are those of all offers of the class from it on, and in its services. */
  lemma {:induction false} FirstLeastIsListed(mode: Mode, first: nat, offers: seq<Offer>)
    requires !mode.Caid?
    requires forall k :: 0 <= k < |offers| ==> Regular(mode, offers[k].held.card)
    ensures AllFirstLeast(mode, AddAll(mode, Empty(first), offers).items, offers)
    decreases |offers|
  {
    hide Regular, Add, StandsFor, Deduplicated;
    if offers == [] {
    } else {
      var n := |offers| - 1;
      assert forall k :: 0 <= k < n ==> offers[..n][k] == offers[k];
      FirstLeastIsListed(mode, first, offers[..n]);
      AddAllDeduplicates(mode, first, offers[..n]);
      AddFirstLeast(mode, AddAll(mode, Empty(first), offers[..n]), offers[..n], offers[n]);
      assert offers == offers[..n] + [offers[n]];
    }
  }

  // ---------------------------------------------------------------- MINIMIZE_CAID

  function Taken(o: Offer): Card {
    if o.free then o.held.card else CopyCard(o.held.card).(hop := 0)
  }

  /** The listed card is the one of the offer, or a copy of it without hops. Once it is merged
      with others it may have more groups, providers and services, and has no path. */
  ghost predicate GrownFrom(x: Held, o: Offer) {
    && (o.free ==> x.addr == o.held.addr)
    && (x.card == Taken(o) ||
        x.card == Taken(o).(grp := x.card.grp, providers := x.card.providers, remoteNodes := [],
                            goodsids := x.card.goodsids, badsids := x.card.badsids))
  }

  ghost predicate GroupsOffered(x: Held, offers: seq<Offer>) {
    forall g :: g in x.card.grp ==>
      exists o :: o in offers && g in o.held.card.grp && CaidClassOf(o.held.card) == CaidClassOf(x.card)
  }

  /** One listed card has all the groups and providers of the offer, and nothing to tell apart
      from it by. */
  ghost predicate Within(o: Offer, x: Held) {
    && CaidClassOf(o.held.card) == CaidClassOf(x.card)
    && o.held.card.grp <= x.card.grp && Provs(o.held.card.providers) <= Provs(x.card.providers)
  }

  ghost predicate Grown(x: Held, offers: seq<Offer>) {
    GroupsOffered(x, offers) && exists o :: o in offers && GrownFrom(x, o)
  }

  ghost predicate Kept(items: seq<Held>, o: Offer) {
    exists x :: x in items && Within(o, x)
  }

  ghost predicate Gathered(items: seq<Held>, offers: seq<Offer>) {
    && (forall x :: x in items ==> Grown(x, offers))
    && (forall o :: o in offers ==> Kept(items, o))
  }

  lemma {:induction false} MergedGathers(x: Held, offers: seq<Offer>, o: Offer)
    requires Matches(Caid, o.held.card, x.card) && Grown(x, offers)
    ensures var y := x.(card := Merged(Caid, x.card, o.held.card));
            Within(o, y) && (forall p :: Within(p, x) ==> Within(p, y)) && Grown(y, offers + [o])
  {
    hide MergeSids, AddProviders, Provs, Taken;
    var card := x.card.(grp := x.card.grp + o.held.card.grp,
                        providers := AddProviders(x.card.providers, o.held.card.providers), remoteNodes := []);
    MergesServices(card, o.held.card);
    AddProvidersUnites(x.card.providers, o.held.card.providers);
    var y := x.(card := Merged(Caid, x.card, o.held.card));
    var p :| p in offers && GrownFrom(x, p);
    assert p in offers + [o] && GrownFrom(y, p);
    assert o in offers + [o] && forall q :: q in offers ==> q in offers + [o];
  }

  lemma {:induction false} NewcomerGathers(next: nat, o: Offer, offers: seq<Offer>)
    ensures var n := Newcomer(Caid, next, o);
            Within(o, n) && Grown(n, offers + [o])
  {
    hide AddProviders, Provs, AddNodes, CopyGoodSids, CopyBadSids;
    AddProvidersUnites([], o.held.card.providers);
    NoProvs();
    assert o in offers + [o];
  }

  lemma {:induction false} StaysGrown(x: Held, offers: seq<Offer>, o: Offer)
    requires Grown(x, offers)
    ensures Grown(x, offers + [o])
  {
    hide GrownFrom;
    assert forall q :: q in offers ==> q in offers + [o];
  }

  lemma {:induction false} StaysKept(items: seq<Held>, i: nat, y: Held, p: Offer)
    requires i < |items| && Kept(items, p) && (Within(p, items[i]) ==> Within(p, y))
    ensures Kept(items[i := y], p)
  {
    hide Within;
    var x :| x in items && Within(p, x);
    var k :| 0 <= k < |items| && items[k] == x;
    assert items[i := y][k] == if k == i then y else x;
  }

  lemma {:induction false} KeptInMore(items: seq<Held>, y: Held, p: Offer)
    requires Kept(items, p) || Within(p, y)
    ensures Kept(items + [y], p)
  {
    hide Within;
    if Within(p, y) {
      assert y in items + [y];
    } else {
      var x :| x in items && Within(p, x);
      assert x in items + [y];
    }
  }

  lemma {:induction false} KeptAt(items: seq<Held>, i: nat, p: Offer)
    requires i < |items| && Within(p, items[i])
    ensures Kept(items, p)
  {
  }

  lemma {:induction false} GrewAt(items: seq<Held>, i: nat, y: Held, offers: seq<Offer>, o: Offer)
    requires i < |items| && Gathered(items, offers) && Within(o, y) && Grown(y, offers + [o])
    requires forall p :: Within(p, items[i]) ==> Within(p, y)
    ensures Gathered(items[i := y], offers + [o])
  {
    hide Grown, Within, Kept;
    forall x | x in items[i := y] ensures Grown(x, offers + [o]) {
      if x != y {
        StaysGrown(x, offers, o);
      }
    }
    forall p | p in offers + [o] ensures Kept(items[i := y], p) {
      if p in offers {
        StaysKept(items, i, y, p);
      } else {
        KeptAt(items[i := y], i, p);
      }
    }
  }

  lemma {:induction false} GrewLonger(items: seq<Held>, y: Held, offers: seq<Offer>, o: Offer)
    requires Gathered(items, offers) && Within(o, y) && Grown(y, offers + [o])
    ensures Gathered(items + [y], offers + [o])
  {
    hide Grown, Within, Kept;
    forall x | x in items + [y] ensures Grown(x, offers + [o]) {
      if x != y {
        StaysGrown(x, offers, o);
      }
    }
    forall p | p in offers + [o] ensures Kept(items + [y], p) {
      KeptInMore(items, y, p);
    }
  }

  lemma {:induction false} AddGathers(t: Table, offers: seq<Offer>, o: Offer)
    requires Gathered(t.items, offers)
    ensures Gathered(Add(Caid, t, o).items, offers + [o])
  {
    hide Matches, Merged, Newcomer, Grown, Within, Kept;
    var i := FirstMatch(Caid, o.held.card, t.items);
    if i < |t.items| {
      assert t.items[i] in t.items;
      MergedGathers(t.items[i], offers, o);
      GrewAt(t.items, i, t.items[i].(card := Merged(Caid, t.items[i].card, o.held.card)), offers, o);
    } else {
      var y := Newcomer(Caid, t.next, o);
      NewcomerGathers(t.next, o, offers);
      GrewLonger(t.items, y, offers, o);
    }
  }

  /** The main result for MINIMIZE_CAID: each listed card is one that was offered, alone or
      merged with others; it has no group that was not offered for its class; and all groups
      and providers of every offer are together in one listed card of its class. */
  lemma {:induction false} AllGathered(first: nat, offers: seq<Offer>)
    ensures Gathered(AddAll(Caid, Empty(first), offers).items, offers)
    decreases |offers|
  {
    hide Add, Grown, Kept;
    if offers == [] {
    } else {
      var n := |offers| - 1;
      AllGathered(first, offers[..n]);
      AddGathers(AddAll(Caid, Empty(first), offers[..n]), offers[..n], offers[n]);
      assert offers == offers[..n] + [offers[n]];
    }
  }

  // ---------------------------------------------------------------- places and counts

  /** The cards that do not match keep their order. The one in the place of the match stands
      where it stood, or last where the match was first and had more hops, or at the end where
      there was none. */
  lemma {:induction false} OthersKeepOrder(mode: Mode, t: Table, o: Offer)
    ensures var i := FirstMatch(mode, o.held.card, t.items);
            var after := Add(mode, t, o).items;
            var k := if i == 0 < |t.items| && Drops(mode, t.items[0].card, o.held.card) then |t.items| - 1 else i;
            && k < |after|
            && after[..k] + after[k + 1..] == if i < |t.items| then t.items[..i] + t.items[i + 1..] else t.items
  {
    hide Merged, Newcomer, Drops, FirstMatch;
  }

  /** The counter of duplicates and the list together count the offers, in every mode. */
  lemma {:induction false} DuplicatesCounted(mode: Mode, first: nat, offers: seq<Offer>)
    ensures var t := AddAll(mode, Empty(first), offers); |t.items| + t.dups == |offers|
    decreases |offers|
  {
    hide Merged, Newcomer, Drops, FirstMatch;
    if offers == [] {
    } else {
      DuplicatesCounted(mode, first, offers[..|offers| - 1]);
    }
  }
}
