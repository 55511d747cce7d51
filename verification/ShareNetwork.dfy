/**
 A network of nodes that share cards with each other. Each node keeps the cards it has
 received, builds its share list from them and from its own cards, and sends listed cards
 to its clients, which filter them and pass them on in turn. No card comes back to a node
 it has passed, and each step along a path costs reshare.

 Holds without stealth mode. An announcement that does not fit a message is not sent here
 (FitsExactly says which ones do); the program writes past its buffer. Whether the hop counts match the paths depends on which nodes
 merge cards by CAID, as that forgets paths and hops.
 */
module ShareNetwork {
  import opened Bytes
  import opened Cards
  import opened CardWire
  import opened Forwarding
  import opened ServerList
  import R = ReaderTable

  /** A node's settings: ccHops are the hop counts its own cards start with. */
  datatype Site = Site(cfg: ShareConfig, mode: Mode, ccHops: set<byte>)

  type World = map<NodeId, Site>

  datatype NodeState = NodeState(received: seq<Card>, shared: seq<Card>)

  /** An announcement under way; the card already carries the level it is announced with. */
  datatype Packet = Packet(from: NodeId, to: NodeId, card: Card, sv: Services, ext: bool, au: bool)

  datatype Net = Net(nodes: map<NodeId, NodeState>, packets: seq<Packet>)

  datatype Step =
    | Rebuild(node: NodeId, first: nat, offers: seq<Offer>)
    | Forward(node: NodeId, which: nat, id: u32, peer: Peer, sv: Services, ext: bool, au: bool)
    | Deliver(packet: nat, reader: R.Reader)
    | Lose(packet: nat)
    | Withdraw(node: NodeId, which: nat)

  // ---------------------------------------------------------------- steps

  ghost predicate IsOwnCard(w: World, n: NodeId, c: Card)
    requires n in w
  {
    !c.cardType.RemoteCard? && c.remoteNodes == [] && c.hop in w[n].ccHops
  }

  /** Own cards are handed over, received ones are copied. */
  ghost predicate MayOffer(w: World, s: Net, n: NodeId, o: Offer)
    requires n in w && n in s.nodes
  {
    if o.free then IsOwnCard(w, n, o.held.card) else o.held.card in s.nodes[n].received
  }

  function HeldCards(items: seq<Held>): (cs: seq<Card>)
    ensures |cs| == |items|
  {
    seq(|items|, i requires 0 <= i < |items| => items[i].card)
  }

  function Message(p: Packet): seq<byte> {
    Encode(p.card, p.sv, Some(p.from), p.ext, p.au)
  }

  /** The reader's own duplicate check. */
  predicate AlreadyHas(received: seq<Card>, r: R.Reader, c: Card) {
    exists i :: 0 <= i < |received| && received[i].originReader == Some(r.no) &&
                (received[i].id == c.id || SameCard(received[i], c))
  }

  ghost function Next(w: World, s: Net, step: Step): Net {
    match step
    case Rebuild(n, first, offers) =>
      if n in w && n in s.nodes && (forall o :: o in offers ==> MayOffer(w, s, n, o)) then
        s.(nodes := s.nodes[n := s.nodes[n].(shared := HeldCards(AddAll(w[n].mode, Empty(first), offers).items))])
      else s
    case Forward(n, k, id, peer, sv, ext, au) =>
      if n in w && n in s.nodes && k < |s.nodes[n].shared| && Accepts(w[n].cfg, peer, s.nodes[n].shared[k]) then
        var c := s.nodes[n].shared[k];
        var p := Packet(n, peer.nodeId, c.(id := id, reshare := NewReshare(w[n].cfg, peer, c)), sv, ext, au);
        if |Message(p)| <= CC_MAXMSGSIZE then s.(packets := s.packets + [p]) else s
      else s
    case Deliver(i, r) =>
      if i < |s.packets| && s.packets[i].to in w && s.packets[i].to in s.nodes then
        var p := s.packets[i];
        var rest := Without(s.packets, i);
        var c := R.Intake(r, w[p.to].cfg, p.to, Message(p), p.ext);
        var node := s.nodes[p.to];
        if c.None? || AlreadyHas(node.received, r, c.value) then s.(packets := rest)
        else Net(s.nodes[p.to := node.(received := node.received + [R.Stored(c.value)])], rest)
      else s
    case Lose(i) => if i < |s.packets| then s.(packets := Without(s.packets, i)) else s
    case Withdraw(n, i) =>
      if n in s.nodes && i < |s.nodes[n].received| then
        var node := s.nodes[n];
        s.(nodes := s.nodes[n := node.(received := Without(node.received, i))])
      else s
  }

  ghost function After(w: World, s: Net, steps: seq<Step>): Net
    decreases |steps|
  {
    if steps == [] then s else Next(w, After(w, s, steps[..|steps| - 1]), steps[|steps| - 1])
  }

  ghost function Start(w: World): Net {
    Net(map n | n in w :: NodeState([], []), [])
  }

  // ---------------------------------------------------------------- the invariant

  /** What is claimed of a run: strict, that nobody ignores reshare levels; exact, that hops
      match paths. */
  datatype Claim = Claim(strict: bool, exact: bool)

  /** The path visits no node twice and has not been at the holder. */
  ghost predicate PathOk(w: World, holder: NodeId, c: Card) {
    && c.cardType.RemoteCard?
    && NoDuplicates(c.remoteNodes)
    && holder !in c.remoteNodes
    && (forall n :: n in c.remoteNodes ==> n in w)
  }

  /** The path accounts for every hop since the count the origin started with. */
  ghost predicate HopOk(w: World, c: Card) {
    && c.remoteNodes != [] && c.remoteNodes[0] in w
    && exists h :: h in w[c.remoteNodes[0]].ccHops && c.hop as int == h as int + |c.remoteNodes|
  }

  /** Level and path length together stay bounded. */
  ghost predicate LevelOk(c: Card) {
    c.cardType.RemoteCard? ==> c.reshare as int + |c.remoteNodes| <= 128
  }

  /** The node has a card of its own that a reader may take. */
  ghost predicate Source(w: World, n: NodeId) {
    n in w && exists h :: h in w[n].ccHops && h <= 127
  }

  ghost predicate Pair(w: World, a: NodeId, b: NodeId) {
    a != b && w.Keys == {a, b} && 0 in w[b].ccHops
  }

  /** A node that merges by CAID either gets no cards, or it starts its own cards at 0 and
      has nobody to pass a card on to but the one it comes from. */
  ghost predicate KeepsHops(w: World) {
    forall a, b :: a in w && b in w && a != b && w[b].mode.Caid? && Source(w, a) ==> Pair(w, a, b)
  }

  ghost predicate SharedHopOk(w: World, n: NodeId, c: Card)
    requires n in w
  {
    if w[n].mode.Caid? then c.hop == 0 && exists a :: Pair(w, a, n) else HopOk(w, c)
  }

  ghost predicate SharedOk(w: World, n: NodeId, c: Card, k: Claim)
    requires n in w
  {
    && (if c.cardType.RemoteCard? then PathOk(w, n, c) else IsOwnCard(w, n, c))
    && (k.strict ==> LevelOk(c))
    && (k.exact && c.cardType.RemoteCard? ==> SharedHopOk(w, n, c))
  }

  ghost predicate ReceivedOk(w: World, n: NodeId, c: Card, k: Claim) {
    && PathOk(w, n, c) && c.remoteNodes != [] && c.hop <= 128
    && (k.strict ==> LevelOk(c))
    && (k.exact ==> HopOk(w, c))
  }

  /** The level already counts the step the card is about to make. */
  ghost predicate PacketOk(w: World, p: Packet, k: Claim) {
    && p.from in w
    && (if p.card.cardType.RemoteCard? then PathOk(w, p.from, p.card) else IsOwnCard(w, p.from, p.card))
    && (k.strict ==> p.card.reshare as int + |p.card.remoteNodes| + 1 <= 128)
    && (k.exact && p.card.cardType.RemoteCard? ==> SharedHopOk(w, p.from, p.card))
    && |Message(p)| <= CC_MAXMSGSIZE
  }

  ghost predicate NetOk(w: World, s: Net, k: Claim) {
    && s.nodes.Keys == w.Keys
    && (forall n, c :: n in s.nodes && c in s.nodes[n].received ==> ReceivedOk(w, n, c, k))
    && (forall n, c :: n in s.nodes && c in s.nodes[n].shared ==> SharedOk(w, n, c, k))
    && (forall p :: p in s.packets ==> PacketOk(w, p, k))
  }

  /** No forwarding step ignores reshare levels. */
  ghost predicate Minds(w: World, step: Step) {
    step.Forward? && step.node in w ==> !IgnoresReshare(w[step.node].cfg, step.peer)
  }

  // ---------------------------------------------------------------- building the share list

  /** What may be offered: own cards for good, received ones to be copied. */
  ghost predicate OfferOk(w: World, n: NodeId, o: Offer, k: Claim)
    requires n in w
  {
    if o.free then IsOwnCard(w, n, o.held.card) else ReceivedOk(w, n, o.held.card, k)
  }

  /** A CAID-merging node that has received a card is one of a pair. */
  lemma {:induction false} FedNodesArePaired(w: World, n: NodeId, c: Card)
    requires KeepsHops(w) && n in w && w[n].mode.Caid?
    requires PathOk(w, n, c) && HopOk(w, c) && c.hop <= 128
    ensures exists a :: Pair(w, a, n)
  {
    var a := c.remoteNodes[0];
    var h :| h in w[a].ccHops && c.hop as int == h as int + |c.remoteNodes|;
    assert Source(w, a);
  }

  lemma {:induction false} NewcomerShares(w: World, n: NodeId, next: nat, o: Offer, k: Claim)
    requires n in w && OfferOk(w, n, o, k) && (k.exact ==> KeepsHops(w))
    ensures SharedOk(w, n, Newcomer(w[n].mode, next, o).card, k)
  {
    hide KeepsHops, Source, Pair;
    AddNodesCopies(o.held.card.remoteNodes);
    if k.exact && !o.free && w[n].mode.Caid? {
      FedNodesArePaired(w, n, o.held.card);
    }
  }

  lemma {:induction false} MergeShares(w: World, n: NodeId, listed: Card, offered: Card, k: Claim)
    requires n in w && SharedOk(w, n, listed, k)
    ensures SharedOk(w, n, Merged(w[n].mode, listed, offered), k)
  {
    hide AddProviders, Pair;
  }

  lemma {:induction false} AddShares(w: World, n: NodeId, t: Table, o: Offer, k: Claim)
    requires n in w && OfferOk(w, n, o, k) && (k.exact ==> KeepsHops(w))
    requires forall x :: x in t.items ==> SharedOk(w, n, x.card, k)
    ensures forall x :: x in Add(w[n].mode, t, o).items ==> SharedOk(w, n, x.card, k)
  {
    hide SharedOk, OfferOk, Matches, MergeSids, KeepsHops;
    var mode := w[n].mode;
    var i := FirstMatch(mode, o.held.card, t.items);
    NewcomerShares(w, n, t.next, o, k);
    if i < |t.items| {
      MergeShares(w, n, t.items[i].card, o.held.card, k);
    }
  }

  lemma {:induction false} AddAllShares(w: World, n: NodeId, first: nat, offers: seq<Offer>, k: Claim)
    requires n in w && (k.exact ==> KeepsHops(w))
    requires forall o :: o in offers ==> OfferOk(w, n, o, k)
    ensures forall x :: x in AddAll(w[n].mode, Empty(first), offers).items ==> SharedOk(w, n, x.card, k)
    decreases |offers|
  {
    hide SharedOk, OfferOk, Add, KeepsHops;
    if offers == [] {
    } else {
      var i := |offers| - 1;
      AddAllShares(w, n, first, offers[..i], k);
      AddShares(w, n, AddAll(w[n].mode, Empty(first), offers[..i]), offers[i], k);
    }
  }

  // ---------------------------------------------------------------- one step along a path

  /** Which announcements fit a message. */
  lemma {:induction false} FitsExactly(p: Packet)
    ensures |Message(p)| <= CC_MAXMSGSIZE <==>
            (if p.ext then 32 else 30) + 7 * |p.card.providers| + 8 * |p.card.remoteNodes| +
            2 * (|AnnouncedGoods(p.card, p.sv, p.ext)| + |AnnouncedBads(p.card, p.sv, p.ext)|) <= CC_MAXMSGSIZE
  {
    hide Encode, AnnouncedGoods, AnnouncedBads, Fixed, Counts, ProviderParts, SidParts, NodeParts, Flatten, NodeCount;
    Layout(p.card, p.sv, Some(p.from), p.ext, p.au, []);
  }

  lemma {:induction false} OffThePath(cfg: ShareConfig, peer: Peer, c: Card)
    requires Accepts(cfg, peer, c)
    ensures peer.nodeId !in c.remoteNodes && NewReshare(cfg, peer, c) >= 0
  {
  }

  lemma {:induction false} ForwardOk(w: World, n: NodeId, c: Card, id: u32, peer: Peer, sv: Services, ext: bool, au: bool,
          k: Claim)
    requires n in w && SharedOk(w, n, c, k) && Accepts(w[n].cfg, peer, c)
    requires k.strict ==> !IgnoresReshare(w[n].cfg, peer)
    requires |Message(Packet(n, peer.nodeId, c.(id := id, reshare := NewReshare(w[n].cfg, peer, c)), sv, ext, au))| <= CC_MAXMSGSIZE
    ensures PacketOk(w, Packet(n, peer.nodeId, c.(id := id, reshare := NewReshare(w[n].cfg, peer, c)), sv, ext, au), k)
    ensures peer.nodeId !in c.remoteNodes
  {
    hide Encode, NewReshare, Accepts, Pair;
    OffThePath(w[n].cfg, peer, c);
    AnnouncedReshareIsSmall(w[n].cfg, peer, c);
    if k.strict && c.cardType.RemoteCard? {
      ForwardingLowersReshare(w[n].cfg, peer, c);
    }
  }

  /** In a network of two, a path that has not been at b begins at a. */
  lemma {:induction false} OnlyTheOther(w: World, a: NodeId, b: NodeId, path: seq<NodeId>)
    requires Pair(w, a, b) && path != [] && b !in path && forall n :: n in path ==> n in w
    ensures path[0] == a
  {
    assert path[0] in w.Keys;
  }

  lemma {:induction false} StoredHopOk(w: World, p: Packet, c: Card, k: Claim)
    requires PacketOk(w, p, k) && p.to in w && k.exact
    requires c.remoteNodes == Path(p.card, Some(p.from)) && p.to !in c.remoteNodes
    requires c.hop == p.card.hop && c.hop <= 127
    ensures HopOk(w, R.Stored(c))
  {
    hide Encode, Message;
    var path := p.card.remoteNodes;
    var stored := R.Stored(c);
    assert stored.remoteNodes == path + [p.from] && stored.hop == c.hop + 1;
    if !p.card.cardType.RemoteCard? {
      assert c.hop in w[p.from].ccHops;
    } else if w[p.from].mode.Caid? {
      var a :| Pair(w, a, p.from);
      if path == [] {
        assert stored.remoteNodes == [p.from] && 0 in w[stored.remoteNodes[0]].ccHops;
        assert p.card.hop == 0;
      } else {
        OnlyTheOther(w, a, p.from, path);
        assert false;
      }
    } else {
      var h :| h in w[path[0]].ccHops && p.card.hop as int == h as int + |path|;
      assert stored.remoteNodes[0] == path[0] && stored.hop as int == h as int + |stored.remoteNodes|;
    }
  }

  lemma {:induction false} StoredPathOk(w: World, p: Packet, c: Card, k: Claim)
    requires PacketOk(w, p, k) && p.to in w
    requires c.remoteNodes == Path(p.card, Some(p.from)) && p.to !in c.remoteNodes
    requires c.hop == p.card.hop && c.hop <= 127 && c.reshare == p.card.reshare
    ensures ReceivedOk(w, p.to, R.Stored(c), k)
  {
    hide Encode, HopOk, SharedHopOk;
    assert R.Stored(c).remoteNodes == p.card.remoteNodes + [p.from];
    if k.exact {
      StoredHopOk(w, p, c, k);
    }
  }

  lemma {:induction false} MessageFits(w: World, p: Packet, k: Claim)
    requires PacketOk(w, p, k)
    ensures |Encode(p.card, p.sv, Some(p.from), p.ext, p.au)| <= CC_MAXMSGSIZE
  {
  }

  /** What the reader takes from a message is the card sent, with the sender on its path. */
  lemma {:induction false} TakenIn(w: World, p: Packet, r: R.Reader, k: Claim)
    requires PacketOk(w, p, k) && p.to in w
    ensures var c := R.Intake(r, w[p.to].cfg, p.to, Message(p), p.ext);
            c.Some? ==> ReceivedOk(w, p.to, R.Stored(c.value), k)
  {
    hide Encode, ReadCard, PacketOk, ReceivedOk;
    var c := R.Intake(r, w[p.to].cfg, p.to, Message(p), p.ext);
    if c.Some? {
      assert |Encode(p.card, p.sv, Some(p.from), p.ext, p.au)| <= CC_MAXMSGSIZE by { MessageFits(w, p, k); }
      PathReadsBack(p.card, p.sv, Some(p.from), p.ext, p.au);
      StoredPathOk(w, p, c.value, k);
    }
  }

  lemma {:induction false} OfferShares(w: World, s: Net, n: NodeId, o: Offer, k: Claim)
    requires NetOk(w, s, k) && n in w && n in s.nodes && MayOffer(w, s, n, o)
    ensures OfferOk(w, n, o, k)
  {
    hide ReceivedOk;
    assert !o.free ==> ReceivedOk(w, n, o.held.card, k);
  }

  lemma {:induction false} RebuildOk(w: World, s: Net, n: NodeId, first: nat, offers: seq<Offer>, k: Claim)
    requires (k.exact ==> KeepsHops(w)) && NetOk(w, s, k)
    ensures NetOk(w, Next(w, s, Rebuild(n, first, offers)), k)
  {
    hide SharedOk, ReceivedOk, PacketOk, OfferOk, AddAll, KeepsHops;
    if n in w && n in s.nodes && forall o :: o in offers ==> MayOffer(w, s, n, o) {
      forall o | o in offers ensures OfferOk(w, n, o, k) {
        OfferShares(w, s, n, o, k);
      }
      AddAllShares(w, n, first, offers, k);
    }
  }

  lemma {:induction false} ForwardStepOk(w: World, s: Net, n: NodeId, at: nat, id: u32, peer: Peer, sv: Services, ext: bool, au: bool,
          k: Claim)
    requires NetOk(w, s, k)
    requires k.strict ==> Minds(w, Forward(n, at, id, peer, sv, ext, au))
    ensures NetOk(w, Next(w, s, Forward(n, at, id, peer, sv, ext, au)), k)
  {
    hide SharedOk, ReceivedOk, PacketOk, ValidForClient, NewReshare, Encode;
    if n in w && n in s.nodes && at < |s.nodes[n].shared| && Accepts(w[n].cfg, peer, s.nodes[n].shared[at]) {
      var c := s.nodes[n].shared[at];
      var p := Packet(n, peer.nodeId, c.(id := id, reshare := NewReshare(w[n].cfg, peer, c)), sv, ext, au);
      if |Message(p)| <= CC_MAXMSGSIZE {
        ForwardOk(w, n, c, id, peer, sv, ext, au, k);
      }
    }
  }

  lemma {:induction false} DeliverOk(w: World, s: Net, i: nat, r: R.Reader, k: Claim)
    requires NetOk(w, s, k)
    ensures NetOk(w, Next(w, s, Deliver(i, r)), k)
  {
    hide SharedOk, ReceivedOk, PacketOk, AlreadyHas, Message, R.Intake, R.Stored;
    if i < |s.packets| && s.packets[i].to in w && s.packets[i].to in s.nodes {
      assert s.packets[i] in s.packets;
      TakenIn(w, s.packets[i], r, k);
      WithoutIn(s.packets, i);
    }
  }

  lemma {:induction false} LossOk(w: World, s: Net, i: nat, k: Claim)
    requires NetOk(w, s, k)
    ensures NetOk(w, Next(w, s, Lose(i)), k)
  {
    hide SharedOk, ReceivedOk, PacketOk;
    if i < |s.packets| {
      WithoutIn(s.packets, i);
    }
  }

  lemma {:induction false} WithdrawOk(w: World, s: Net, n: NodeId, i: nat, k: Claim)
    requires NetOk(w, s, k)
    ensures NetOk(w, Next(w, s, Withdraw(n, i)), k)
  {
    hide SharedOk, ReceivedOk, PacketOk;
    if n in s.nodes && i < |s.nodes[n].received| {
      WithoutIn(s.nodes[n].received, i);
    }
  }

  lemma {:induction false} NextOk(w: World, s: Net, step: Step, k: Claim)
    requires (k.exact ==> KeepsHops(w)) && NetOk(w, s, k) && (k.strict ==> Minds(w, step))
    ensures NetOk(w, Next(w, s, step), k)
  {
    hide NetOk, Next, Minds, KeepsHops;
    match step
    case Rebuild(n, first, offers) => RebuildOk(w, s, n, first, offers, k);
    case Forward(n, at, id, peer, sv, ext, au) => ForwardStepOk(w, s, n, at, id, peer, sv, ext, au, k);
    case Deliver(i, r) => DeliverOk(w, s, i, r, k);
    case Lose(i) => LossOk(w, s, i, k);
    case Withdraw(n, i) => WithdrawOk(w, s, n, i, k);
  }

  lemma {:induction false} AlwaysOk(w: World, steps: seq<Step>, k: Claim)
    requires k.exact ==> KeepsHops(w)
    requires k.strict ==> forall i :: 0 <= i < |steps| ==> Minds(w, steps[i])
    ensures NetOk(w, After(w, Start(w), steps), k)
    decreases |steps|
  {
    hide Next, SharedOk, ReceivedOk, PacketOk, KeepsHops;
    if steps == [] {
    } else {
      var n := |steps| - 1;
      AlwaysOk(w, steps[..n], k);
      NextOk(w, After(w, Start(w), steps[..n]), steps[n], k);
    }
  }

  // ---------------------------------------------------------------- levels and accounts

  /** The level each node allows each other one. */
  type Allowance = (NodeId, NodeId) -> int

  /** Cards are forwarded to clients whose accounts allow no more. */
  ghost predicate ForwardsWithin(w: World, step: Step, allowed: Allowance) {
    step.Forward? && step.node in w ==> ClientLevel(w[step.node].cfg, step.peer) <= allowed(step.node, step.peer.nodeId)
  }

  ghost predicate WithinAllowance(holder: NodeId, c: Card, allowed: Allowance) {
    c.remoteNodes != [] && c.reshare as int <= allowed(c.remoteNodes[|c.remoteNodes| - 1], holder)
  }

  ghost predicate LevelsWithin(s: Net, allowed: Allowance) {
    && (forall n, c :: n in s.nodes && c in s.nodes[n].received ==> WithinAllowance(n, c, allowed))
    && (forall p :: p in s.packets ==> p.card.reshare as int <= allowed(p.from, p.to) && |Message(p)| <= CC_MAXMSGSIZE)
  }

  lemma {:induction false} StoredWithin(w: World, p: Packet, r: R.Reader, allowed: Allowance)
    requires p.to in w && p.card.reshare as int <= allowed(p.from, p.to) && |Message(p)| <= CC_MAXMSGSIZE
    ensures var c := R.Intake(r, w[p.to].cfg, p.to, Message(p), p.ext);
            c.Some? ==> WithinAllowance(p.to, R.Stored(c.value), allowed)
  {
    hide Encode, ReadCard;
    PathReadsBack(p.card, p.sv, Some(p.from), p.ext, p.au);
    assert Path(p.card, Some(p.from)) == p.card.remoteNodes + [p.from];
  }

  lemma {:induction false} NextWithin(w: World, s: Net, step: Step, allowed: Allowance)
    requires LevelsWithin(s, allowed) && ForwardsWithin(w, step, allowed)
    ensures LevelsWithin(Next(w, s, step), allowed)
  {
    hide WithinAllowance, AddAll, Message, R.Intake, R.Stored, AlreadyHas, MayOffer, Accepts, NewReshare;
    match step
    case Rebuild(n, first, offers) =>
    case Forward(n, k, id, peer, sv, ext, au) =>
      if n in w && n in s.nodes && k < |s.nodes[n].shared| && Accepts(w[n].cfg, peer, s.nodes[n].shared[k]) {
        OffThePath(w[n].cfg, peer, s.nodes[n].shared[k]);
        LevelIsLeast(w[n].cfg, peer, s.nodes[n].shared[k]);
      }
    case Deliver(i, r) =>
      if i < |s.packets| && s.packets[i].to in w && s.packets[i].to in s.nodes {
        assert s.packets[i] in s.packets;
        StoredWithin(w, s.packets[i], r, allowed);
        WithoutIn(s.packets, i);
      }
    case Lose(i) =>
      if i < |s.packets| {
        WithoutIn(s.packets, i);
      }
    case Withdraw(n, i) =>
      if n in s.nodes && i < |s.nodes[n].received| {
        WithoutIn(s.nodes[n].received, i);
      }
  }

  lemma {:induction false} AlwaysWithin(w: World, steps: seq<Step>, allowed: Allowance)
    requires forall i :: 0 <= i < |steps| ==> ForwardsWithin(w, steps[i], allowed)
    ensures LevelsWithin(After(w, Start(w), steps), allowed)
    decreases |steps|
  {
    hide Next, ForwardsWithin, WithinAllowance;
    if steps == [] {
    } else {
      var n := |steps| - 1;
      AlwaysWithin(w, steps[..n], allowed);
      NextWithin(w, After(w, Start(w), steps[..n]), steps[n], allowed);
    }
  }

  // ---------------------------------------------------------------- no card twice

  /** Two cards that came in through one reader differ in their ids, and are not the same card. */
  ghost predicate NoTwins(received: seq<Card>) {
    forall i, j :: 0 <= i < j < |received| && received[i].originReader == received[j].originReader ==>
                     received[i].id != received[j].id && !SameCard(received[i], received[j])
  }

  ghost predicate Origins(received: seq<Card>) {
    forall i :: 0 <= i < |received| ==> received[i].originReader.Some? && received[i].cardType.RemoteCard?
  }

  lemma {:induction false} WithoutTwins(received: seq<Card>, i: nat)
    requires i < |received| && NoTwins(received) && Origins(received)
    ensures NoTwins(Without(received, i)) && Origins(Without(received, i))
  {
    hide SameCard;
    var left := Without(received, i);
    assert forall k :: 0 <= k < |left| ==> left[k] == received[if k < i then k else k + 1];
  }

  lemma {:induction false} AddedTwins(received: seq<Card>, r: R.Reader, c: Card)
    requires NoTwins(received) && Origins(received)
    requires !AlreadyHas(received, r, c) && c.originReader == Some(r.no) && c.cardType.RemoteCard?
    ensures NoTwins(received + [R.Stored(c)]) && Origins(received + [R.Stored(c)])
  {
    assert forall x: Card :: SameCard(x, R.Stored(c)) <==> SameCard(x, c);
    hide SameCard;
    var after := received + [R.Stored(c)];
    forall i | 0 <= i < |received| && received[i].originReader == Some(r.no)
      ensures received[i].id != c.id && !SameCard(received[i], R.Stored(c))
    {
    }
  }

  ghost predicate AllWithoutTwins(s: Net) {
    forall n :: n in s.nodes ==> NoTwins(s.nodes[n].received) && Origins(s.nodes[n].received)
  }

  lemma {:induction false} ReadIsRemote(data: seq<byte>, ext: bool)
    ensures ReadCard(data, ext).Some? ==> ReadCard(data, ext).value.cardType.RemoteCard?
  {
  }

  lemma {:induction false} IntakeIsRemote(r: R.Reader, cfg: ShareConfig, own: NodeId, data: seq<byte>, ext: bool)
    ensures var c := R.Intake(r, cfg, own, data, ext);
            c.Some? ==> c.value.originReader == Some(r.no) && c.value.cardType.RemoteCard?
  {
    hide ReadCard;
    ReadIsRemote(data, ext);
  }

  lemma {:induction false} StartTwins(w: World)
    ensures AllWithoutTwins(Start(w))
  {
  }

  lemma {:induction false} NextTwins(w: World, s: Net, step: Step)
    requires AllWithoutTwins(s)
    ensures AllWithoutTwins(Next(w, s, step))
  {
    hide NoTwins, Origins, AlreadyHas, R.Intake, R.Stored, Message, AddAll, MayOffer, Accepts, NewReshare, Without;
    match step
    case Deliver(i, r) =>
      if i < |s.packets| && s.packets[i].to in w && s.packets[i].to in s.nodes {
        var p := s.packets[i];
        IntakeIsRemote(r, w[p.to].cfg, p.to, Message(p), p.ext);
        var c := R.Intake(r, w[p.to].cfg, p.to, Message(p), p.ext);
        var received := s.nodes[p.to].received;
        if c.Some? && !AlreadyHas(received, r, c.value) {
          AddedTwins(received, r, c.value);
        }
      }
    case Withdraw(n, i) =>
      if n in s.nodes && i < |s.nodes[n].received| {
        WithoutTwins(s.nodes[n].received, i);
      }
    case Rebuild(n, first, offers) =>
    case Forward(n, k, id, peer, sv, ext, au) =>
    case Lose(i) =>
  }

  // ---------------------------------------------------------------- the results

  /** Over all runs: a node never holds the same card twice from one reader, nor two cards with
      one id. */
  lemma {:induction false} NeverTwice(w: World, steps: seq<Step>)
    ensures AllWithoutTwins(After(w, Start(w), steps))
    decreases |steps|
  {
    hide NoTwins, Origins, Next;
    if steps == [] {
      StartTwins(w);
    } else {
      NeverTwice(w, steps[..|steps| - 1]);
      NextTwins(w, After(w, Start(w), steps[..|steps| - 1]), steps[|steps| - 1]);
    }
  }

  /** Over all runs: no received card has a level above what the account for its holder allows at
      the node it came from. */
  lemma {:induction false} LevelsAllowed(w: World, steps: seq<Step>, allowed: Allowance, holder: NodeId, c: Card)
    requires forall i :: 0 <= i < |steps| ==> ForwardsWithin(w, steps[i], allowed)
    requires holder in After(w, Start(w), steps).nodes && c in After(w, Start(w), steps).nodes[holder].received
    ensures c.remoteNodes != [] && c.reshare as int <= allowed(c.remoteNodes[|c.remoteNodes| - 1], holder)
  {
    hide After, ForwardsWithin;
    AlwaysWithin(w, steps, allowed);
    assert WithinAllowance(holder, c, allowed);
  }

  /** Loop freedom, in every mode. After any run of rebuilding, forwarding, delivering, losing
      and withdrawing, the path of a received card is not empty, holds no node twice and not the
      holder, and is shorter than the number of nodes. */
  lemma {:induction false} LoopFree(w: World, steps: seq<Step>, holder: NodeId, c: Card)
    requires holder in w && holder in After(w, Start(w), steps).nodes
    requires c in After(w, Start(w), steps).nodes[holder].received
    ensures c.remoteNodes != [] && NoDuplicates(c.remoteNodes) && holder !in c.remoteNodes
    ensures forall n :: n in c.remoteNodes ==> n in w
    ensures |c.remoteNodes| < |w|
  {
    hide SharedOk, PacketOk;
    AlwaysOk(w, steps, Claim(false, false));
    assert ReceivedOk(w, holder, c, Claim(false, false));
    assert NoDuplicates(c.remoteNodes + [holder]);
    DistinctFit(c.remoteNodes + [holder], w.Keys);
  }

  /** Where no client ignores reshare levels, every step of a path has cost at least one:
      a card with k nodes on its path arrives with a level of at most 128 - k. So no path gets
      longer than 128 nodes, whatever the network and the modes. */
  lemma {:induction false} PropagationEnds(w: World, steps: seq<Step>, holder: NodeId, c: Card)
    requires forall i :: 0 <= i < |steps| ==> Minds(w, steps[i])
    requires holder in w && holder in After(w, Start(w), steps).nodes
    requires c in After(w, Start(w), steps).nodes[holder].received
    ensures c.reshare as int + |c.remoteNodes| <= 128
  {
    hide SharedOk, PacketOk;
    AlwaysOk(w, steps, Claim(true, false));
    assert ReceivedOk(w, holder, c, Claim(true, false));
  }

  /** Every received card has come as many hops as its path is long, counted from what the
      origin started with. */
  ghost predicate HopsMatch(w: World, s: Net) {
    forall n, c :: n in s.nodes && c in s.nodes[n].received ==> HopOk(w, c)
  }

  lemma {:induction false} KeptHopsMatch(w: World, steps: seq<Step>)
    requires KeepsHops(w)
    ensures HopsMatch(w, After(w, Start(w), steps))
  {
    hide SharedOk, PacketOk, HopOk, KeepsHops;
    var k := Claim(false, true);
    AlwaysOk(w, steps, k);
    var s := After(w, Start(w), steps);
    forall n, c | n in s.nodes && c in s.nodes[n].received ensures HopOk(w, c) {
      assert ReceivedOk(w, n, c, k);
    }
  }
}
