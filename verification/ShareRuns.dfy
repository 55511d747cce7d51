/**
 Runs of small networks in which a node that merges cards by CAID breaks the hop counts, and
 so exactly which networks keep them: HopsMatchExactly.
 */
module ShareRuns {
  import opened Bytes
  import opened Cards
  import opened CardWire
  import opened Forwarding
  import opened ServerList
  import opened ShareNetwork
  import R = ReaderTable

  /** A client that takes everything, at level 10. */
  function OpenPeer(n: NodeId): Peer {
    Peer(n, {}, (c, ps, t) => true, 255, 10, 1)
  }

  /** A reader that takes everything. */
  function OpenReader(): R.Reader {
    R.Reader(7, {}, 127, 0, c => true, (c, ps) => true, 10)
  }

  /** A card without providers or service ids, and in no group. */
  ghost predicate IsPlain(c: Card) {
    && c.caid == 0x0100 && c.providers == [] && c.goodsids == [] && c.badsids == [] && c.sidtab == None && c.grp == {}
    && !c.cardType.ByServiceUser? && (c.originReader.Some? ==> c.rdrReshare == 10) && |c.remoteNodes| < 4
  }

  function OwnCard(remoteId: u32, hop: byte): Card {
    Card(0, remoteId, 0x0100, hop, 0, Zeros(8), [], [], [], [], None, LocalCard, None, {}, 0, 0, false)
  }

  /** The card as b has it after a has sent it. */
  function Arrived(c: Card, id: u32, a: NodeId): Card {
    Card(id, c.remoteId, c.caid, (c.hop as int + 1) % 256, 10, c.hexserial, [], [], [], c.remoteNodes + [a],
         Some(7), RemoteCard, None, {}, 10, 0, false)
  }

  // ---------------------------------------------------------------- one hop

  lemma {:induction false} PlainSize(c: Card, a: NodeId)
    requires IsPlain(c)
    ensures |Encode(c, NO_SERVICES, Some(a), false, true)| <= CC_MAXMSGSIZE
  {
    hide Encode, Flatten, ProviderParts, SidParts, NodeParts, Counts, Fixed;
    Layout(c, NO_SERVICES, Some(a), false, true, []);
  }

  lemma {:induction false} OpenTakes(cfg: ShareConfig, n: NodeId, c: Card)
    requires IsPlain(c) && c.hop <= 127 && n !in c.remoteNodes
    ensures Accepts(cfg, OpenPeer(n), c) && NewReshare(cfg, OpenPeer(n), c) == 10
  {
  }

  lemma {:induction false} CaidReadsBack(c: Card, a: NodeId)
    requires IsPlain(c)
    ensures |Encode(c, NO_SERVICES, Some(a), false, true)| >= 10 && SidAt(Encode(c, NO_SERVICES, Some(a), false, true), 8) == c.caid
  {
    hide Encode, Flatten, ProviderParts, SidParts, NodeParts, Counts, Fixed, U32At, SidAt;
    PlainSize(c, a);
    var data := Encode(c, NO_SERVICES, Some(a), false, true);
    assert data + [] == data;
    Layout(c, NO_SERVICES, Some(a), false, true, []);
    FixedReadsBack(data, c, true);
  }

  lemma {:induction false} OpenReads(cfg: ShareConfig, b: NodeId, c: Card, a: NodeId)
    requires IsPlain(c) && c.hop <= 127 && c.reshare == 10 && b !in c.remoteNodes && a != b
    ensures var got := R.Intake(OpenReader(), cfg, b, Encode(c, NO_SERVICES, Some(a), false, true), false);
            got.Some? && R.Stored(got.value) == Arrived(c, c.id, a)
  {
    hide Encode, ReadCard, Flatten, ProviderParts, SidParts, NodeParts, Counts, Fixed, U32At, SidAt;
    PlainSize(c, a);
    var data := Encode(c, NO_SERVICES, Some(a), false, true);
    assert data + [] == data;
    PathReadsBack(c, NO_SERVICES, Some(a), false, true);
    CardRoundTrip(c, NO_SERVICES, Some(a), false, true, []);
    CaidReadsBack(c, a);
    assert AnnouncedGoods(c, NO_SERVICES, false) == [] && AnnouncedBads(c, NO_SERVICES, false) == [];
    assert b !in c.remoteNodes + [a];
  }

  lemma {:induction false} AfterMore(w: World, s: Net, steps: seq<Step>, more: seq<Step>)
    ensures After(w, s, steps + more) == After(w, After(w, s, steps), more)
    decreases |more|
  {
    hide Next;
    if more == [] {
      assert steps + more == steps;
    } else {
      var n := |more| - 1;
      AfterMore(w, s, steps, more[..n]);
      assert (steps + more)[..|steps + more| - 1] == steps + more[..n];
    }
  }

  lemma {:induction false} AfterOne(w: World, s: Net, step: Step)
    ensures After(w, s, [step]) == Next(w, s, step)
  {
    hide Next;
    assert [step][..0] == [];
    assert After(w, s, []) == s;
  }

  function HandOver(a: NodeId, b: NodeId, id: u32): seq<Step> {
    [Forward(a, 0, id, OpenPeer(b), NO_SERVICES, false, true)] + [Deliver(0, OpenReader())]
  }

  /** With nothing under way, the first card of a's list goes over to b. */
  lemma {:induction false} GoesOver(w: World, s: Net, a: NodeId, b: NodeId, c: Card, id: u32)
    requires a in w && b in w && a in s.nodes && b in s.nodes && a != b
    requires s.packets == [] && s.nodes[a].shared == [c] && IsPlain(c) && c.hop <= 127 && b !in c.remoteNodes
    requires forall x :: x in s.nodes[b].received ==> x.id != id && x.remoteId != c.remoteId
    ensures After(w, s, HandOver(a, b, id)) ==
            Net(s.nodes[b := s.nodes[b].(received := s.nodes[b].received + [Arrived(c, id, a)])], [])
  {
    hide Encode, R.Intake, Accepts, NewReshare;
    var card := c.(id := id, reshare := 10);
    var p := Packet(a, b, card, NO_SERVICES, false, true);
    OpenTakes(w[a].cfg, b, c);
    PlainSize(card, a);
    var mid := Next(w, s, Forward(a, 0, id, OpenPeer(b), NO_SERVICES, false, true));
    assert mid == s.(packets := [p]);
    OpenReads(w[b].cfg, b, card, a);
    var got := R.Intake(OpenReader(), w[b].cfg, b, Message(p), false);
    assert !AlreadyHas(s.nodes[b].received, OpenReader(), got.value) by {
      assert got.value.id == id && got.value.remoteId == c.remoteId;
      assert forall i :: 0 <= i < |s.nodes[b].received| ==> s.nodes[b].received[i] in s.nodes[b].received;
    }
    assert Without(mid.packets, 0) == [];
    AfterMore(w, s, [Forward(a, 0, id, OpenPeer(b), NO_SERVICES, false, true)], [Deliver(0, OpenReader())]);
    AfterOne(w, s, Forward(a, 0, id, OpenPeer(b), NO_SERVICES, false, true));
    AfterOne(w, mid, Deliver(0, OpenReader()));
  }

  // ---------------------------------------------------------------- building the lists

  lemma {:induction false} ListsOne(mode: Mode, o: Offer)
    ensures AddAll(mode, Empty(0), [o]).items == [Newcomer(mode, 0, o)]
    ensures AddAll(mode, Empty(0), [o]).next == if o.free then 0 else 1
    ensures HeldCards([Newcomer(mode, 0, o)]) == [Newcomer(mode, 0, o).card]
  {
    hide Newcomer, Matches;
    assert [o][..0] == [];
    assert AddAll(mode, Empty(0), []) == Empty(0);
  }

  /** A received plain card as a CAID-merging node lists it: with its path, but no hops. */
  lemma {:induction false} CopiedWithoutHops(c: Card)
    requires IsPlain(c) && |c.remoteNodes| == 1
    ensures Newcomer(Caid, 0, Offer(Held(0, c), false)).card == c.(id := 0, hop := 0)
  {
    AddNodesCopies(c.remoteNodes);
    assert CopyGoodSids([], []) == [] && CopyBadSids([], []) == [] && AddProviders([], []) == [];
  }

  lemma {:induction false} NothingToMerge(c: Card, d: Card)
    requires c.goodsids == [] && c.badsids == [] && d.goodsids == []
    ensures MergeSids(c, d) == c
  {
  }

  /** Two of one class are merged: no path, no hops. */
  lemma {:induction false} MergedWithoutPath(c: Card, d: Card)
    requires IsPlain(c) && IsPlain(d) && |c.remoteNodes| == 1 && SameCard2(d, c, false)
    ensures AddAll(Caid, Empty(0), [Offer(Held(0, c), false), Offer(Held(0, d), false)]).items ==
            [Held(0, c.(id := 0, hop := 0, remoteNodes := []))]
  {
    hide CopyCard, MergeSids;
    var o1, o2 := Offer(Held(0, c), false), Offer(Held(0, d), false);
    ListsOne(Caid, o1);
    CopiedWithoutHops(c);
    assert [o1, o2][..1] == [o1];
    var listed := c.(id := 0, hop := 0);
    assert Matches(Caid, d, listed);
    assert AddProviders([], []) == [];
    NothingToMerge(listed.(grp := {}, remoteNodes := []), d);
    assert listed.grp + d.grp == {};
  }

  // ---------------------------------------------------------------- the runs

  function SendOwn(a: NodeId, b: NodeId, k: u32, hop: byte): seq<Step> {
    [Rebuild(a, 0, [Offer(Held(0, OwnCard(k, hop)), true)])] + HandOver(a, b, k)
  }

  lemma {:induction false} Rebuilds(w: World, s: Net, n: NodeId, offers: seq<Offer>, cards: seq<Card>)
    requires n in w && n in s.nodes && forall o :: o in offers ==> MayOffer(w, s, n, o)
    requires HeldCards(AddAll(w[n].mode, Empty(0), offers).items) == cards
    ensures Next(w, s, Rebuild(n, 0, offers)) == s.(nodes := s.nodes[n := s.nodes[n].(shared := cards)])
  {
    hide AddAll, MayOffer;
  }

  lemma {:induction false} SendsOwn(w: World, s: Net, a: NodeId, b: NodeId, k: u32, hop: byte)
    requires a in w && b in w && a in s.nodes && b in s.nodes && a != b && s.packets == []
    requires hop in w[a].ccHops && hop <= 127
    requires forall x :: x in s.nodes[b].received ==> x.id != k && x.remoteId != k
    ensures var own := OwnCard(k, hop);
            After(w, s, SendOwn(a, b, k, hop)) ==
            Net(s.nodes[a := s.nodes[a].(shared := [own])]
                       [b := s.nodes[b].(received := s.nodes[b].received + [Arrived(own, k, a)])], [])
  {
    hide Next, Add, AddAll;
    var own := OwnCard(k, hop);
    var o := Offer(Held(0, own), true);
    var step := Rebuild(a, 0, [o]);
    var mid := s.(nodes := s.nodes[a := s.nodes[a].(shared := [own])]);
    ListsOne(w[a].mode, o);
    assert Next(w, s, step) == mid by { Rebuilds(w, s, a, [o], [own]); }
    AfterMore(w, s, [step], HandOver(a, b, k));
    AfterOne(w, s, step);
    GoesOver(w, mid, a, b, own, k);
  }

  /** A card of a is copied by b, which merges by CAID, and goes on to a third node: it has
      two nodes on its path and one hop. */
  function ThirdNodeRun(a: NodeId, b: NodeId, c: NodeId, hop: byte): seq<Step> {
    SendOwn(a, b, 1, hop) + ([Rebuild(b, 0, [Offer(Held(0, Arrived(OwnCard(1, hop), 1, a)), false)])] + HandOver(b, c, 2))
  }

  lemma {:induction false} ThirdNodeMiscounts(w: World, a: NodeId, b: NodeId, c: NodeId, hop: byte)
    requires a in w && b in w && c in w && a != b && a != c && b != c
    requires w[b].mode.Caid? && hop in w[a].ccHops && hop <= 127
    ensures var s := After(w, Start(w), ThirdNodeRun(a, b, c, hop));
            && c in s.nodes
            && exists x :: x in s.nodes[c].received && x.remoteNodes == [a, b] && x.hop == 1 && !HopOk(w, x)
  {
    hide Next, Add, AddAll;
    var s0 := Start(w);
    var r := Arrived(OwnCard(1, hop), 1, a);
    var o := Offer(Held(0, r), false);
    SendsOwn(w, s0, a, b, 1, hop);
    var s1 := After(w, s0, SendOwn(a, b, 1, hop));
    AfterMore(w, s0, SendOwn(a, b, 1, hop), [Rebuild(b, 0, [o])] + HandOver(b, c, 2));
    ListsOne(Caid, o);
    CopiedWithoutHops(r);
    var listed := r.(id := 0, hop := 0);
    assert s1.nodes[b].received == [r];
    Rebuilds(w, s1, b, [o], [listed]);
    var s2 := s1.(nodes := s1.nodes[b := s1.nodes[b].(shared := [listed])]);
    AfterMore(w, s1, [Rebuild(b, 0, [o])], HandOver(b, c, 2));
    AfterOne(w, s1, Rebuild(b, 0, [o]));
    GoesOver(w, s2, b, c, listed, 2);
    var x := Arrived(listed, 2, b);
    assert s2.nodes[c].received + [x] == [x];
    assert x.remoteNodes == [a, b] && x.hop == 1;
  }

  function BothOf(a: NodeId, hop: byte): seq<Offer> {
    [Offer(Held(0, Arrived(OwnCard(1, hop), 1, a)), false), Offer(Held(0, Arrived(OwnCard(2, hop), 2, a)), false)]
  }

  /** Two cards of a are merged by b, which merges by CAID, and announced back to a. */
  function ComeBackRun(a: NodeId, b: NodeId, hop: byte): seq<Step> {
    SendOwn(a, b, 1, hop) + (SendOwn(a, b, 2, hop) + ([Rebuild(b, 0, BothOf(a, hop))] + HandOver(b, a, 3)))
  }

  lemma {:induction false} TwoArrive(w: World, a: NodeId, b: NodeId, hop: byte)
    requires a in w && b in w && a != b && hop in w[a].ccHops && hop <= 127
    ensures var s := After(w, After(w, Start(w), SendOwn(a, b, 1, hop)), SendOwn(a, b, 2, hop));
            && s.nodes.Keys == w.Keys && s.packets == [] && s.nodes[a].received == []
            && s.nodes[b].received == [Arrived(OwnCard(1, hop), 1, a), Arrived(OwnCard(2, hop), 2, a)]
  {
    hide After, SendOwn;
    SendsOwn(w, Start(w), a, b, 1, hop);
    var s1 := After(w, Start(w), SendOwn(a, b, 1, hop));
    assert s1.nodes[b].received == [Arrived(OwnCard(1, hop), 1, a)];
    SendsOwn(w, s1, a, b, 2, hop);
  }

  lemma {:induction false} MergedArrivals(a: NodeId, hop: byte)
    requires hop <= 127
    ensures AddAll(Caid, Empty(0), BothOf(a, hop)).items ==
            [Held(0, Arrived(OwnCard(1, hop), 1, a).(id := 0, hop := 0, remoteNodes := []))]
  {
    hide CopyCard, MergeSids, Add, AddAll;
    var r1, r2 := Arrived(OwnCard(1, hop), 1, a), Arrived(OwnCard(2, hop), 2, a);
    MergedWithoutPath(r1, r2);
  }

  lemma {:induction false} MergedGoesBack(w: World, s: Net, a: NodeId, b: NodeId, hop: byte)
    requires a in w && b in w && a != b && w[b].mode.Caid? && hop <= 127
    requires s.nodes.Keys == w.Keys && s.packets == [] && s.nodes[a].received == []
    requires s.nodes[b].received == [Arrived(OwnCard(1, hop), 1, a), Arrived(OwnCard(2, hop), 2, a)]
    ensures var after := After(w, s, [Rebuild(b, 0, BothOf(a, hop))] + HandOver(b, a, 3));
            && a in after.nodes
            && exists x :: x in after.nodes[a].received && x.remoteId == 1 && x.remoteNodes == [b] && x.hop == 1
  {
    hide Next, Add, AddAll, After;
    var r1 := Arrived(OwnCard(1, hop), 1, a);
    var step := Rebuild(b, 0, BothOf(a, hop));
    MergedArrivals(a, hop);
    var m := r1.(id := 0, hop := 0, remoteNodes := []);
    assert HeldCards([Held(0, m)]) == [m];
    Rebuilds(w, s, b, BothOf(a, hop), [m]);
    var s1 := s.(nodes := s.nodes[b := s.nodes[b].(shared := [m])]);
    AfterMore(w, s, [step], HandOver(b, a, 3));
    AfterOne(w, s, step);
    GoesOver(w, s1, b, a, m, 3);
    var x := Arrived(m, 3, b);
    assert s1.nodes[a].received + [x] == [x];
    assert x.remoteNodes == [b];
  }

  /** a takes its own cards for cards of b, one hop away. */
  lemma {:induction false} MergedCardsComeBack(w: World, a: NodeId, b: NodeId, hop: byte)
    requires a in w && b in w && a != b
    requires w[b].mode.Caid? && hop in w[a].ccHops && hop <= 127
    ensures var s := After(w, Start(w), ComeBackRun(a, b, hop));
            && a in s.nodes
            && exists x :: x in s.nodes[a].received && x.remoteId == 1 && x.remoteNodes == [b] && x.hop == 1
  {
    hide After, SendOwn, BothOf, HandOver;
    var s1 := After(w, Start(w), SendOwn(a, b, 1, hop));
    var s2 := After(w, s1, SendOwn(a, b, 2, hop));
    TwoArrive(w, a, b, hop);
    MergedGoesBack(w, s2, a, b, hop);
    var last := [Rebuild(b, 0, BothOf(a, hop))] + HandOver(b, a, 3);
    AfterMore(w, Start(w), SendOwn(a, b, 1, hop), SendOwn(a, b, 2, hop) + last);
    AfterMore(w, s1, SendOwn(a, b, 2, hop), last);
  }

  // ---------------------------------------------------------------- exactly when hops match

  lemma {:induction false} BreaksHops(w: World, a: NodeId, b: NodeId)
    requires a in w && b in w && a != b && w[b].mode.Caid? && Source(w, a) && !Pair(w, a, b)
    ensures exists steps :: !HopsMatch(w, After(w, Start(w), steps))
  {
    hide After;
    var hop :| hop in w[a].ccHops && hop <= 127;
    if 0 in w[b].ccHops {
      var c :| c in w && c != a && c != b;
      ThirdNodeMiscounts(w, a, b, c, hop);
      assert !HopsMatch(w, After(w, Start(w), ThirdNodeRun(a, b, c, hop)));
    } else {
      MergedCardsComeBack(w, a, b, hop);
      var s := After(w, Start(w), ComeBackRun(a, b, hop));
      var x :| x in s.nodes[a].received && x.remoteNodes == [b] && x.hop == 1;
      assert !HopOk(w, x);
      assert !HopsMatch(w, After(w, Start(w), ComeBackRun(a, b, hop)));
    }
  }

  /** Hop counts match paths in all runs exactly if no node that merges by CAID can get a card
      and pass it on, short of the one case of a pair. */
  lemma {:induction false} HopsMatchExactly(w: World)
    ensures (forall steps :: HopsMatch(w, After(w, Start(w), steps))) <==> KeepsHops(w)
  {
    hide HopsMatch, After;
    if KeepsHops(w) {
      forall steps ensures HopsMatch(w, After(w, Start(w), steps)) {
        KeptHopsMatch(w, steps);
      }
    } else {
      var a, b :| a in w && b in w && a != b && w[b].mode.Caid? && Source(w, a) && !Pair(w, a, b);
      BreaksHops(w, a, b);
    }
  }

  // ---------------------------------------------------------------- cards that do not fit

  /** Without extended messages a merged card always fits: it has no path, and within
      CS_MAXPROV there is room for its providers. */
  lemma {:induction false} MergedFitsPlain(p: Packet)
    requires p.card.remoteNodes == [] && |p.card.providers| <= CS_MAXPROV && !p.ext
    ensures |Message(p)| <= CC_MAXMSGSIZE
  {
    hide Message;
    NoSids(p.card, p.sv);
    FitsExactly(p);
  }

  function Providers(first: nat, n: nat): (ps: seq<Provider>)
    requires first + n <= 0x100_0000
    ensures |ps| == n
  {
    seq(n, i requires 0 <= i < n => Provider(first + i, [0, 0, 0, 0]))
  }

  lemma {:induction false} ProvsConcat(a: seq<Provider>, b: seq<Provider>)
    ensures Provs(a + b) == Provs(a) + Provs(b)
  {
  }

  lemma {:induction false} ProvidersUnite(n: nat, m: nat)
    requires n + m <= 0x100_0000
    ensures |AddProviders(Providers(0, n), Providers(n, m))| == n + m
  {
    var a, b, all := Providers(0, n), Providers(n, m), Providers(0, n + m);
    var r := AddProviders(a, b);
    AddProvidersUnites(a, b);
    AddProvidersDistinct(a, b);
    assert all == a + b;
    assert Provs(all) == Provs(a) + Provs(b) by { ProvsConcat(a, b); }
    CountProvs(all);
    CountProvs(r);
  }

  /** A card of this node with a service table behind it. */
  function ServiceCard(first: nat): Card
    requires first <= 64
  {
    Card(0, 1, 0x0100, 0, 10, Zeros(8), Providers(first, 64), [], [], [], None, ByServiceReader, Some(0), {}, 0, 0, false)
  }

  /** One table, with as many ids as an announcement takes. */
  function FullTable(): Services {
    Services([Service([], seq(MAX_TABLE_SIDS, _ => 1))], {})
  }

  function OwnPacket(a: NodeId, b: NodeId, card: Card): Packet {
    Packet(a, b, card, FullTable(), true, true)
  }

  lemma {:induction false} MergedKeeps(c: Card, d: Card)
    ensures var m := Merged(Caid, c, d);
            m.providers == AddProviders(c.providers, d.providers) && m.sidtab == c.sidtab && m.remoteNodes == []
  {
    hide AddProviders;
  }

  lemma {:induction false} TableAnnounced(c: Card)
    requires c.sidtab == Some(0)
    ensures |AnnouncedGoods(c, FullTable(), true)| == MAX_TABLE_SIDS && AnnouncedBads(c, FullTable(), true) == []
  {
    var sv := FullTable();
    assert ChosenSids(sv, c.caid, 1) == ChosenSids(sv, c.caid, 0) + [];
  }

  /** With extended messages it need not: two cards that fit are merged within CS_MAXPROV
      into one that does not. */
  lemma {:induction false} MergedTooLong(a: NodeId, b: NodeId)
    ensures var c, d := ServiceCard(0), ServiceCard(64);
            var items := AddAll(Caid, Empty(0), [Offer(Held(0, c), true), Offer(Held(1, d), true)]).items;
            && |Message(OwnPacket(a, b, c))| <= CC_MAXMSGSIZE && |Message(OwnPacket(a, b, d))| <= CC_MAXMSGSIZE
            && |items| == 1 && |items[0].card.providers| <= CS_MAXPROV
            && |Message(OwnPacket(a, b, items[0].card))| > CC_MAXMSGSIZE
  {
    hide Message, MergeSids, AddProviders, Provs;
    var c, d := ServiceCard(0), ServiceCard(64);
    var o1, o2 := Offer(Held(0, c), true), Offer(Held(1, d), true);
    ListsOne(Caid, o1);
    assert [o1, o2][..1] == [o1];
    assert Matches(Caid, d, c);
    assert FirstMatch(Caid, d, [Held(0, c)]) == 0;
    var items := AddAll(Caid, Empty(0), [o1, o2]).items;
    MergedKeeps(c, d);
    assert items == [Held(0, Merged(Caid, c, d))];
    ProvidersUnite(64, 64);
    FitsExactly(OwnPacket(a, b, c));
    FitsExactly(OwnPacket(a, b, d));
    FitsExactly(OwnPacket(a, b, items[0].card));
    TableAnnounced(c);
    TableAnnounced(d);
    TableAnnounced(items[0].card);
  }
}
