/**
 A network of nodes that push answers to each other. A node pushes what it has cached, its
 own answers and received ones, to any peer that MayPush lets have it; messages are encoded,
 may get lost, and are decoded by the peer under its own limits.

 Holds without stealth mode, and where each end knows the other by its true node id.
 */
module PushNetwork {
  import opened Bytes
  import opened Cards
  import opened CachePush

  /** limits[(a, b)]: a's settings for its connection to b. */
  datatype World = World(nodes: set<NodeId>, limits: map<(NodeId, NodeId), Limits>)

  datatype Packet = Packet(from: NodeId, to: NodeId, push: Push)

  datatype Net = Net(cached: map<NodeId, seq<Push>>, packets: seq<Packet>)

  datatype Step =
    | Originate(node: NodeId, answer: Push)
    | PushTo(node: NodeId, which: nat, peer: NodeId, idle: bool)
    | Deliver(packet: nat, rest: seq<byte>, filters: Filters)
    | Lose(packet: nat)
    | Forget(node: NodeId, which: nat)

  predicate Linked(w: World, a: NodeId, b: NodeId) {
    a in w.nodes && b in w.nodes && a != b && (a, b) in w.limits && (b, a) in w.limits
  }

  ghost function Next(w: World, s: Net, step: Step): Net {
    match step
    case Originate(n, p) =>
      if n in s.cached && p.nodes == [] then s.(cached := s.cached[n := s.cached[n] + [p]]) else s
    case PushTo(n, k, peer, idle) =>
      if n in s.cached && k < |s.cached[n]| && Linked(w, n, peer) && Sendable(s.cached[n][k]) &&
         MayPush(peer, w.limits[(n, peer)], s.cached[n][k], idle)
      then s.(packets := s.packets + [Packet(n, peer, s.cached[n][k])])
      else s
    case Deliver(i, rest, f) =>
      if i < |s.packets| && Sendable(s.packets[i].push) && Linked(w, s.packets[i].from, s.packets[i].to) &&
         s.packets[i].to in s.cached
      then
        var p := s.packets[i];
        var er := ReadPush(Encode(p.from, p.push) + rest, p.from, w.limits[(p.to, p.from)], f);
        Net(if er.Some? then s.cached[p.to := s.cached[p.to] + [er.value]] else s.cached, Without(s.packets, i))
      else s
    case Lose(i) => if i < |s.packets| then s.(packets := Without(s.packets, i)) else s
    case Forget(n, i) =>
      if n in s.cached && i < |s.cached[n]| then s.(cached := s.cached[n := Without(s.cached[n], i)]) else s
  }

  ghost function After(w: World, s: Net, steps: seq<Step>): Net
    decreases |steps|
  {
    if steps == [] then s else Next(w, After(w, s, steps[..|steps| - 1]), steps[|steps| - 1])
  }

  ghost function Start(w: World): Net {
    Net(map n | n in w.nodes :: [], [])
  }

  // ---------------------------------------------------------------- the invariant

  /** The path holds no node twice and not the holder; it is within the limits of both ends of
      the last link. */
  ghost predicate PathOk(w: World, holder: NodeId, p: Push) {
    && NoDuplicates(p.nodes)
    && holder !in p.nodes
    && (forall n :: n in p.nodes ==> n in w.nodes)
    && (p.nodes != [] ==>
          && Linked(w, p.nodes[0], holder)
          && |p.nodes| <= Bound(w.limits[(p.nodes[0], holder)], p.lg)
          && |p.nodes| <= Bound(w.limits[(holder, p.nodes[0])], p.lg))
  }

  ghost predicate PacketOk(w: World, k: Packet) {
    && Linked(w, k.from, k.to)
    && Sendable(k.push)
    && PathOk(w, k.from, k.push)
    && k.to !in k.push.nodes
    && |k.push.nodes| < Bound(w.limits[(k.from, k.to)], k.push.lg) <= 127
  }

  ghost predicate NetOk(w: World, s: Net) {
    && s.cached.Keys == w.nodes
    && (forall n, p :: n in s.cached && p in s.cached[n] ==> PathOk(w, n, p))
    && (forall k :: k in s.packets ==> PacketOk(w, k))
  }

  /** A packet let in has one node more on its path, within the limits of the receiver too. */
  lemma {:induction false} TakenIn(w: World, k: Packet, rest: seq<byte>, f: Filters)
    requires PacketOk(w, k)
    ensures var er := ReadPush(Encode(k.from, k.push) + rest, k.from, w.limits[(k.to, k.from)], f);
            er.Some? ==> PathOk(w, k.to, er.value)
  {
    hide ReadPush, Encode, MaxHop, MaxHopLg, Sendable;
    PushRoundTrip(k.from, k.push, rest, k.from, w.limits[(k.to, k.from)], f);
  }

  lemma {:induction false} PushToOk(w: World, s: Net, n: NodeId, k: nat, peer: NodeId, idle: bool)
    requires NetOk(w, s)
    ensures NetOk(w, Next(w, s, PushTo(n, k, peer, idle)))
  {
  }

  lemma {:induction false} DeliverOk(w: World, s: Net, i: nat, rest: seq<byte>, f: Filters)
    requires NetOk(w, s)
    ensures NetOk(w, Next(w, s, Deliver(i, rest, f)))
  {
    hide PathOk, PacketOk, Linked, Sendable, ReadPush, Encode, Without;
    if i < |s.packets| {
      assert s.packets[i] in s.packets;
      TakenIn(w, s.packets[i], rest, f);
      WithoutIn(s.packets, i);
    }
  }

  lemma {:induction false} NextOk(w: World, s: Net, step: Step)
    requires NetOk(w, s)
    ensures NetOk(w, Next(w, s, step))
  {
    hide PacketOk, Linked, Sendable, ReadPush, Encode, MayPush, Without, Bound;
    match step
    case Originate(n, p) =>
    case PushTo(n, k, peer, idle) => PushToOk(w, s, n, k, peer, idle);
    case Deliver(i, rest, f) => DeliverOk(w, s, i, rest, f);
    case Lose(i) => if i < |s.packets| { WithoutIn(s.packets, i); }
    case Forget(n, i) => if n in s.cached && i < |s.cached[n]| { WithoutIn(s.cached[n], i); }
  }

  lemma {:induction false} AlwaysOk(w: World, steps: seq<Step>)
    ensures NetOk(w, After(w, Start(w), steps))
    decreases |steps|
  {
    hide Next, PathOk, PacketOk;
    if steps == [] {
    } else {
      var k := |steps| - 1;
      AlwaysOk(w, steps[..k]);
      NextOk(w, After(w, Start(w), steps[..k]), steps[k]);
    }
  }

  // ---------------------------------------------------------------- the result

  /** Pushes never cycle. After any run over any peer graph, the path of every cached answer
      holds no node twice and not the node that caches it; it is shorter than the number of
      nodes, and within the limits that both ends of its last link set for answers of its
      kind. */
  lemma {:induction false} PushesNeverCycle(w: World, steps: seq<Step>, holder: NodeId, p: Push)
    requires holder in w.nodes && holder in After(w, Start(w), steps).cached
    requires p in After(w, Start(w), steps).cached[holder]
    ensures NoDuplicates(p.nodes) && holder !in p.nodes && |p.nodes| < |w.nodes|
    ensures p.nodes != [] ==>
              && Linked(w, p.nodes[0], holder)
              && |p.nodes| <= Bound(w.limits[(p.nodes[0], holder)], p.lg)
              && |p.nodes| <= Bound(w.limits[(holder, p.nodes[0])], p.lg)
  {
    hide PacketOk, Bound, Linked;
    AlwaysOk(w, steps);
    assert PathOk(w, holder, p);
    assert NoDuplicates(p.nodes + [holder]);
    DistinctFit(p.nodes + [holder], w.nodes);
  }
}
