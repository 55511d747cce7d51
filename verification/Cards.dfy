/**
 Share cards: their parts, when two of them count as the same, and how providers, nodes
 and service ids are copied from one card to another.
 */
module Cards {
  import opened Bytes

  type NodeId = n: seq<byte> | |n| == 8 witness [0, 0, 0, 0, 0, 0, 0, 0]

  type Serial = s: seq<byte> | |s| == 8 witness [0, 0, 0, 0, 0, 0, 0, 0]

  type Address4 = s: seq<byte> | |s| == 4 witness [0, 0, 0, 0]

  datatype Provider = Provider(prov: u32, sa: Address4)

  datatype Srvid = Srvid(sid: u16, chid: u16, ecmlen: byte)

  datatype SrvidBlock = SrvidBlock(srvid: Srvid, blockedTill: int)

  datatype CardType = LocalCard | ByServiceReader | ByServiceUser | ByCaid1 | ByCaid2 | ByCaid3 | RemoteCard

  /** Readers and service tables are named by numbers, a group mask is a set of groups. */
  datatype Card = Card(
    id: u32, remoteId: u32, caid: u16, hop: byte, reshare: byte, hexserial: Serial,
    providers: seq<Provider>, badsids: seq<SrvidBlock>, goodsids: seq<Srvid>, remoteNodes: seq<NodeId>,
    originReader: Option<nat>, cardType: CardType, sidtab: Option<nat>, grp: set<nat>,
    rdrReshare: byte, timeout: int, isExt: bool)

  /** A card and the address it lives at. */
  datatype Held = Held(addr: nat, card: Card)

  const CS_MAXPROV := 128

  // ---------------------------------------------------------------- same cards

  predicate SameFirstNode(a: Card, b: Card) {
    if a.remoteNodes == [] && b.remoteNodes == [] then true
    else if a.remoteNodes == [] || b.remoteNodes == [] then false
    else a.remoteNodes[0] == b.remoteNodes[0]
  }

  predicate SameCard2(a: Card, b: Card, compareGrp: bool) {
    && a.caid == b.caid
    && a.cardType == b.cardType
    && a.sidtab == b.sidtab
    && (!compareGrp || a.grp == b.grp)
    && a.hexserial == b.hexserial
  }

  predicate SameCard(a: Card, b: Card) {
    a.remoteId == b.remoteId && SameCard2(a, b, true) && SameFirstNode(a, b)
  }

  // ---------------------------------------------------------------- providers

  function Provs(ps: seq<Provider>): set<u32> {
    set p | p in ps :: p.prov
  }

  predicate HasProv(ps: seq<Provider>, prov: u32) {
    exists i :: 0 <= i < |ps| && ps[i].prov == prov
  }

  lemma {:induction false} HasProvIsMembership(ps: seq<Provider>, prov: u32)
    ensures HasProv(ps, prov) <==> prov in Provs(ps)
  {
  }

  method FindProv(ps: seq<Provider>, prov: u32) returns (found: bool)
    ensures found == HasProv(ps, prov)
  {
    var i := 0;
    while i < |ps|
      invariant 0 <= i <= |ps|
      invariant forall k :: 0 <= k < i ==> ps[k].prov != prov
    {
      if ps[i].prov == prov {
        return true;
      }
      i := i + 1;
    }
    return false;
  }

  /** How many entries of a have their provider in b. */
  function NumSame(a: seq<Provider>, b: seq<Provider>): (n: nat)
    ensures n <= |a|
  {
    if a == [] then 0
    else NumSame(a[..|a| - 1], b) + (if HasProv(b, a[|a| - 1].prov) then 1 else 0)
  }

  method NumSameProviders(a: seq<Provider>, b: seq<Provider>) returns (found: nat)
    ensures found == NumSame(a, b)
  {
    found := 0;
    var i := 0;
    while i < |a|
      invariant 0 <= i <= |a|
      invariant found == NumSame(a[..i], b)
    {
      var same := FindProv(b, a[i].prov);
      if same {
        found := found + 1;
      }
      assert a[..i + 1][..i] == a[..i];
      i := i + 1;
    }
    assert a[..|a|] == a;
  }

  predicate EqualProviders(a: seq<Provider>, b: seq<Provider>) {
    |a| == |b| && (forall i :: 0 <= i < |a| ==> HasProv(b, a[i].prov))
  }

  method CompareProviders(a: seq<Provider>, b: seq<Provider>) returns (equal: bool)
    ensures equal == EqualProviders(a, b)
  {
    if |a| != |b| {
      return false;
    }
    if |a| == 0 {
      return true;
    }
    var i := 0;
    while i < |a|
      invariant 0 <= i <= |a|
      invariant forall k :: 0 <= k < i ==> HasProv(b, a[k].prov)
    {
      var same := FindProv(b, a[i].prov);
      if !same {
        return false;
      }
      i := i + 1;
    }
    return true;
  }

  ghost predicate DistinctProvs(ps: seq<Provider>) {
    forall i, j :: 0 <= i < j < |ps| ==> ps[i].prov != ps[j].prov
  }

  lemma {:induction false} CountProvs(ps: seq<Provider>)
    ensures |Provs(ps)| <= |ps|
    ensures DistinctProvs(ps) ==> |Provs(ps)| == |ps|
  {
    if ps == [] {
      assert Provs(ps) == {};
    } else {
      var n := |ps| - 1;
      CountProvs(ps[..n]);
      assert ps == ps[..n] + [ps[n]];
      assert Provs(ps) == Provs(ps[..n]) + {ps[n].prov};
      if DistinctProvs(ps) {
        assert ps[n].prov !in Provs(ps[..n]);
      }
    }
  }

  /** A list has as many providers as entries exactly if it repeats none. */
  lemma {:induction false} CountsEachOnce(ps: seq<Provider>)
    ensures |Provs(ps)| == |ps| <==> DistinctProvs(ps)
  {
    CountProvs(ps);
    if !DistinctProvs(ps) {
      var i, j :| 0 <= i < j < |ps| && ps[i].prov == ps[j].prov;
      var rest := Without(ps, j);
      CountProvs(rest);
      forall v | v in Provs(ps) ensures v in Provs(rest) {
        var k :| 0 <= k < |ps| && ps[k].prov == v;
        assert rest[if k < j then k else if k == j then i else k - 1].prov == v;
      }
      assert Provs(rest) <= Provs(ps) by { WithoutIn(ps, j); }
      assert Provs(ps) == Provs(rest);
    }
  }

  lemma {:induction false} FreshValue(s: set<u32>, n: nat)
    requires |s| < n <= 0x1_0000_0000
    ensures exists v: u32 :: v < n && v !in s
    decreases n
  {
    var last: u32 := n - 1;
    if last in s {
      FreshValue(s - {last}, n - 1);
      var v: u32 :| v < n - 1 && v !in s - {last};
      assert v !in s;
    }
  }

  lemma {:induction false} SubsetOfSameSize<T>(a: set<T>, b: set<T>)
    requires a <= b && |b| <= |a|
    ensures a == b
  {
    assert |b - a| == |b| - |a|;
  }

  /** equal_providers means what its name says when the first card lists no provider twice. */
  lemma {:induction false} EqualProvidersIsSetEquality(a: seq<Provider>, b: seq<Provider>)
    requires DistinctProvs(a)
    ensures EqualProviders(a, b) <==> |a| == |b| && Provs(a) == Provs(b)
  {
    CountProvs(a);
    CountProvs(b);
    if EqualProviders(a, b) {
      forall v | v in Provs(a) ensures v in Provs(b) {
        HasProvIsMembership(a, v);
        HasProvIsMembership(b, v);
      }
      SubsetOfSameSize(Provs(a), Provs(b));
    } else if |a| == |b| && Provs(a) == Provs(b) {
      forall i | 0 <= i < |a| ensures HasProv(b, a[i].prov) {
        assert a[i] in a;
        HasProvIsMembership(b, a[i].prov);
      }
    }
  }

  lemma {:induction false} EqualsMore(a: seq<Provider>, i: nat, j: nat, v: u32)
    requires i < j < |a| && a[i].prov == a[j].prov && v !in Provs(a)
    ensures var b := a[j := a[j].(prov := v)]; EqualProviders(a, b) && |a| == |b| && Provs(a) != Provs(b)
  {
    var b := a[j := a[j].(prov := v)];
    forall k | 0 <= k < |a| ensures HasProv(b, a[k].prov) {
      assert b[if k == j then i else k].prov == a[k].prov;
    }
    assert b[j] in b;
  }

  /** Comparing decides set equality exactly for lists without repetitions: a list that repeats
      a provider equals another one with more. */
  lemma {:induction false} EqualProvidersExactly(a: seq<Provider>)
    requires |a| < 0x1_0000_0000
    ensures DistinctProvs(a) <==> forall b :: EqualProviders(a, b) <==> |a| == |b| && Provs(a) == Provs(b)
  {
    hide EqualProviders, Provs;
    if DistinctProvs(a) {
      forall b ensures EqualProviders(a, b) <==> |a| == |b| && Provs(a) == Provs(b) {
        EqualProvidersIsSetEquality(a, b);
      }
    } else {
      var i, j :| 0 <= i < j < |a| && a[i].prov == a[j].prov;
      CountProvs(a);
      FreshValue(Provs(a), 0x1_0000_0000);
      var v: u32 :| v !in Provs(a);
      EqualsMore(a, i, j, v);
    }
  }

  /** With a repeated provider it is not even symmetric. */
  lemma {:induction false} EqualProvidersNotSymmetric()
    ensures exists a, b :: EqualProviders(a, b) && !EqualProviders(b, a) && Provs(a) != Provs(b)
  {
    var one, two := Provider(1, [0, 0, 0, 0]), Provider(2, [0, 0, 0, 0]);
    var a, b := [one, one], [one, two];
    assert b[0].prov == 1;
    assert HasProv(b, 1);
    assert EqualProviders(a, b);
    assert b[1].prov == 2 && !HasProv(a, 2);
    assert two in b;
    assert 2 in Provs(b) && 2 !in Provs(a);
  }

  lemma {:induction false} LongerHasProv(a: seq<Provider>, b: seq<Provider>, prov: u32)
    requires a <= b
    ensures HasProv(a, prov) ==> HasProv(b, prov)
  {
  }

  /** The providers of dest, then those of src not there yet, in order. */
  function AddProviders(dest: seq<Provider>, src: seq<Provider>): (r: seq<Provider>)
    ensures dest <= r
    ensures |dest| <= |r| <= |dest| + |src| - NumSame(src, dest)
    decreases |src|
  {
    if src == [] then dest
    else
      var p := AddProviders(dest, src[..|src| - 1]);
      var last := src[|src| - 1];
      if HasProv(p, last.prov) then p
      else
        LongerHasProv(dest, p, last.prov);
        p + [last]
  }

  lemma {:induction false} ProvsAppend(ps: seq<Provider>, p: Provider)
    ensures Provs(ps + [p]) == Provs(ps) + {p.prov}
  {
  }

  lemma {:induction false} AddProvidersUnites(dest: seq<Provider>, src: seq<Provider>)
    ensures Provs(AddProviders(dest, src)) == Provs(dest) + Provs(src)
    decreases |src|
  {
    if src == [] {
    } else {
      var n := |src| - 1;
      AddProvidersUnites(dest, src[..n]);
      var p := AddProviders(dest, src[..n]);
      assert src == src[..n] + [src[n]];
      ProvsAppend(src[..n], src[n]);
      ProvsAppend(p, src[n]);
      HasProvIsMembership(p, src[n].prov);
    }
  }

  lemma {:induction false} NotBefore(ps: seq<Provider>)
    requires ps != [] && DistinctProvs(ps)
    ensures ps[|ps| - 1].prov !in Provs(ps[..|ps| - 1])
  {
  }

  /** Merging a list without repetitions adds exactly the providers that are not shared. */
  lemma {:induction false} MergedLength(dest: seq<Provider>, src: seq<Provider>)
    requires DistinctProvs(src)
    ensures |AddProviders(dest, src)| == |dest| + |src| - NumSame(src, dest)
    decreases |src|
  {
    hide HasProv, Provs;
    if src == [] {
    } else {
      var n := |src| - 1;
      var last := src[n].prov;
      MergedLength(dest, src[..n]);
      AddProvidersUnites(dest, src[..n]);
      HasProvIsMembership(AddProviders(dest, src[..n]), last);
      HasProvIsMembership(dest, last);
      assert last !in Provs(src[..n]) by { NotBefore(src); }
    }
  }

  lemma {:induction false} AddProvidersDistinct(dest: seq<Provider>, src: seq<Provider>)
    requires DistinctProvs(dest)
    ensures DistinctProvs(AddProviders(dest, src))
    decreases |src|
  {
    if src == [] {
    } else {
      AddProvidersDistinct(dest, src[..|src| - 1]);
    }
  }

  /** Nothing is added when everything is already there ... */
  lemma {:induction false} AddProvidersFixpoint(dest: seq<Provider>, src: seq<Provider>)
    requires Provs(src) <= Provs(dest)
    ensures AddProviders(dest, src) == dest
    decreases |src|
  {
    if src == [] {
    } else {
      var n := |src| - 1;
      assert forall q :: q in src[..n] ==> q in src;
      AddProvidersFixpoint(dest, src[..n]);
      assert src[n] in src;
      HasProvIsMembership(dest, src[n].prov);
    }
  }

  /** ... and a list without repetitions is copied as it is. */
  lemma {:induction false} AddProvidersCopies(src: seq<Provider>)
    requires DistinctProvs(src)
    ensures AddProviders([], src) == src
    decreases |src|
  {
    if src == [] {
    } else {
      var n := |src| - 1;
      AddProvidersCopies(src[..n]);
      assert src == src[..n] + [src[n]];
    }
  }

  // ---------------------------------------------------------------- nodes

  /** The nodes of dest, then those of src not there yet, in order. */
  function AddNodes(dest: seq<NodeId>, src: seq<NodeId>): (r: seq<NodeId>)
    ensures dest <= r
    decreases |src|
  {
    if src == [] then dest
    else
      var p := AddNodes(dest, src[..|src| - 1]);
      if src[|src| - 1] in p then p else p + [src[|src| - 1]]
  }

  /** Adding a path to another one loses no node, invents none and repeats none. */
  lemma {:induction false} AddNodesUnites(dest: seq<NodeId>, src: seq<NodeId>)
    ensures forall n :: n in AddNodes(dest, src) <==> n in dest || n in src
    ensures NoDuplicates(dest) ==> NoDuplicates(AddNodes(dest, src))
    decreases |src|
  {
    if src == [] {
    } else {
      var n := |src| - 1;
      AddNodesUnites(dest, src[..n]);
      assert src == src[..n] + [src[n]];
    }
  }

  /** A path without repetitions is copied as it is; a first node stays first. */
  lemma {:induction false} AddNodesCopies(src: seq<NodeId>)
    ensures NoDuplicates(src) ==> AddNodes([], src) == src
    ensures AddNodes([], src) == [] <==> src == []
    ensures src != [] ==> AddNodes([], src)[0] == src[0]
    decreases |src|
  {
    if src == [] {
    } else {
      var n := |src| - 1;
      AddNodesCopies(src[..n]);
      assert src == src[..n] + [src[n]];
      if n == 0 {
        assert src[..n] == [];
      }
    }
  }

  method AddCardProviders(dest: Card, src: Card, copyRemoteNodes: bool) returns (card: Card, modified: bool)
    ensures card == dest.(
                      providers := AddProviders(dest.providers, src.providers),
                      remoteNodes := if copyRemoteNodes then AddNodes(dest.remoteNodes, src.remoteNodes) else dest.remoteNodes)
    ensures modified <==> card != dest
  {
    modified := false;
    var ps := dest.providers;
    var i := 0;
    while i < |src.providers|
      invariant 0 <= i <= |src.providers|
      invariant ps == AddProviders(dest.providers, src.providers[..i])
      invariant modified <==> ps != dest.providers
    {
      assert src.providers[..i + 1][..i] == src.providers[..i];
      var found := FindProv(ps, src.providers[i].prov);
      if !found {
        ps := ps + [src.providers[i]];
        modified := true;
      }
      i := i + 1;
    }
    assert src.providers[..i] == src.providers;
    var nodes := dest.remoteNodes;
    if copyRemoteNodes {
      i := 0;
      while i < |src.remoteNodes|
        invariant 0 <= i <= |src.remoteNodes|
        invariant nodes == AddNodes(dest.remoteNodes, src.remoteNodes[..i])
        invariant modified <==> ps != dest.providers || nodes != dest.remoteNodes
      {
        assert src.remoteNodes[..i + 1][..i] == src.remoteNodes[..i];
        if src.remoteNodes[i] !in nodes {
          nodes := nodes + [src.remoteNodes[i]];
          modified := true;
        }
        i := i + 1;
      }
      assert src.remoteNodes[..i] == src.remoteNodes;
    }
    card := dest.(providers := ps, remoteNodes := nodes);
  }

  // ---------------------------------------------------------------- service ids

  predicate SidEq(a: Srvid, b: Srvid) {
    && a.sid == b.sid
    && (a.chid == b.chid || a.chid == 0 || b.chid == 0)
    && (a.ecmlen == b.ecmlen || a.ecmlen == 0 || b.ecmlen == 0)
  }

  predicate BlockEq(a: SrvidBlock, b: SrvidBlock) {
    && SidEq(a.srvid, b.srvid)
    && (a.blockedTill == b.blockedTill || a.blockedTill == 0 || b.blockedTill == 0)
  }

  /** An id stands for services: a channel or length of 0 for any. */
  predicate Fits(pattern: Srvid, sid: int, chid: int, ecmlen: int) {
    pattern.sid == sid && pattern.chid in {0, chid} && pattern.ecmlen in {0, ecmlen}
  }

  /** Two ids count as equal exactly if a service with a channel and a length fits both. */
  lemma {:induction false} EqualIfOneFitsBoth(a: Srvid, b: Srvid)
    ensures SidEq(a, b) <==>
            exists sid, chid, ecmlen :: chid > 0 && ecmlen > 0 && Fits(a, sid, chid, ecmlen) && Fits(b, sid, chid, ecmlen)
  {
    if SidEq(a, b) {
      var chid: int := if a.chid > 0 then a.chid else if b.chid > 0 then b.chid else 1;
      var ecmlen: int := if a.ecmlen > 0 then a.ecmlen else if b.ecmlen > 0 then b.ecmlen else 1;
      assert Fits(a, a.sid, chid, ecmlen) && Fits(b, a.sid, chid, ecmlen);
    }
  }

  /** An end of 0 stands for any. */
  predicate Lasts(block: SrvidBlock, till: int) {
    block.blockedTill == 0 || block.blockedTill == till
  }

  /** Two blocks count as equal exactly if a service, and besides an end, fits both. */
  lemma {:induction false} EqualBlocks(a: SrvidBlock, b: SrvidBlock)
    ensures BlockEq(a, b) <==> SidEq(a.srvid, b.srvid) && exists till :: till != 0 && Lasts(a, till) && Lasts(b, till)
  {
    if BlockEq(a, b) {
      var till := if a.blockedTill != 0 then a.blockedTill else if b.blockedTill != 0 then b.blockedTill else 1;
      assert Lasts(a, till) && Lasts(b, till);
    }
  }

  predicate IsGood(goods: seq<Srvid>, s: Srvid) {
    exists i :: 0 <= i < |goods| && SidEq(goods[i], s)
  }

  predicate IsBlocked(bads: seq<SrvidBlock>, s: Srvid) {
    exists i :: 0 <= i < |bads| && SidEq(s, bads[i].srvid)
  }

  function CopyGoodSids(dst: seq<Srvid>, src: seq<Srvid>): seq<Srvid>
    decreases |src|
  {
    if src == [] then dst
    else
      var p := CopyGoodSids(dst, src[..|src| - 1]);
      var s := src[|src| - 1];
      if exists i :: 0 <= i < |p| && SidEq(s, p[i]) then p else p + [s]
  }

  function CopyBadSids(dst: seq<SrvidBlock>, src: seq<SrvidBlock>): seq<SrvidBlock>
    decreases |src|
  {
    if src == [] then dst
    else
      var p := CopyBadSids(dst, src[..|src| - 1]);
      var s := src[|src| - 1];
      if exists i :: 0 <= i < |p| && BlockEq(s, p[i]) then p else p + [s]
  }

  function RemoveSidBlock(bads: seq<SrvidBlock>, s: Srvid): seq<SrvidBlock> {
    if bads == [] then []
    else (if SidEq(s, bads[0].srvid) then [] else [bads[0]]) + RemoveSidBlock(bads[1..], s)
  }

  function AddSidBlock(bads: seq<SrvidBlock>, s: Srvid): seq<SrvidBlock> {
    if IsBlocked(bads, s) then bads else bads + [SrvidBlock(s, 0)]
  }

  datatype Sids = Sids(goods: seq<Srvid>, bads: seq<SrvidBlock>)

  /** The good ids of src that src does not block, taken over one by one: without good ids of
      its own the destination only loses blocks, otherwise it gains good ids as well. */
  function TakeGoodSids(dst: Sids, goods: seq<Srvid>, srcBads: seq<SrvidBlock>, keep: bool): Sids
    decreases |goods|
  {
    if goods == [] then dst
    else
      var s := goods[0];
      var next :=
        if IsBlocked(srcBads, s) || (keep && IsGood(dst.goods, s)) then dst
        else Sids(if keep then dst.goods + [s] else dst.goods, RemoveSidBlock(dst.bads, s));
      TakeGoodSids(next, goods[1..], srcBads, keep)
  }

  function AddSidBlocks(bads: seq<SrvidBlock>, more: seq<SrvidBlock>): seq<SrvidBlock>
    decreases |more|
  {
    if more == [] then bads else AddSidBlocks(AddSidBlock(bads, more[0].srvid), more[1..])
  }

  function MergeSids(dst: Card, src: Card): Card {
    var sids :=
      if dst.goodsids == [] then TakeGoodSids(Sids([], dst.badsids), src.goodsids, src.badsids, false)
      else if src.goodsids == [] then Sids([], AddSidBlocks([], src.badsids))
      else TakeGoodSids(Sids(dst.goodsids, dst.badsids), src.goodsids, src.badsids, true);
    dst.(goodsids := sids.goods, badsids := sids.bads)
  }

  // ---------------------------------------------------------------- what merging does to services

  lemma {:induction false} RemovedExactly(bads: seq<SrvidBlock>, s: Srvid)
    ensures forall b :: b in RemoveSidBlock(bads, s) <==> b in bads && !SidEq(s, b.srvid)
  {
    if bads == [] {
    } else {
      RemovedExactly(bads[1..], s);
      assert bads == [bads[0]] + bads[1..];
    }
  }

  /** An id of the list that is not blocked. */
  ghost predicate Offered(goods: seq<Srvid>, bads: seq<SrvidBlock>, s: Srvid) {
    s in goods && !IsBlocked(bads, s)
  }

  lemma {:induction false} LosesBlocks(dst: Sids, goods: seq<Srvid>, srcBads: seq<SrvidBlock>)
    ensures var r := TakeGoodSids(dst, goods, srcBads, false);
            && r.goods == dst.goods
            && forall b :: b in r.bads <==>
                             b in dst.bads && forall s :: Offered(goods, srcBads, s) ==> !SidEq(s, b.srvid)
    decreases |goods|
  {
    hide SidEq, IsBlocked;
    if goods == [] {
    } else {
      var s := goods[0];
      var next := if IsBlocked(srcBads, s) then dst else Sids(dst.goods, RemoveSidBlock(dst.bads, s));
      RemovedExactly(dst.bads, s);
      LosesBlocks(next, goods[1..], srcBads);
      assert forall x :: x in goods <==> x == s || x in goods[1..];
      assert forall x :: Offered(goods, srcBads, x) <==> Offered(goods[1..], srcBads, x) || (x == s && !IsBlocked(srcBads, s));
    }
  }

  /** The ids gained: each offered one that no id before it equals. */
  ghost predicate Gained(had: seq<Srvid>, goods: seq<Srvid>, srcBads: seq<SrvidBlock>, now: seq<Srvid>) {
    && had <= now
    && (forall i :: |had| <= i < |now| ==> Offered(goods, srcBads, now[i]) && !IsGood(now[..i], now[i]))
    && (forall s :: Offered(goods, srcBads, s) ==> IsGood(now, s))
  }

  lemma {:induction false} GoodInLonger(goods: seq<Srvid>, more: seq<Srvid>, s: Srvid)
    requires goods <= more && IsGood(goods, s)
    ensures IsGood(more, s)
  {
    var i :| 0 <= i < |goods| && SidEq(goods[i], s);
    assert SidEq(more[i], s);
  }

  lemma {:induction false} LastIsGood(goods: seq<Srvid>, s: Srvid)
    ensures IsGood(goods + [s], s)
  {
    assert SidEq((goods + [s])[|goods|], s);
  }

  lemma {:induction false} GainsGoods(dst: Sids, goods: seq<Srvid>, srcBads: seq<SrvidBlock>)
    ensures var r := TakeGoodSids(dst, goods, srcBads, true);
            && Gained(dst.goods, goods, srcBads, r.goods)
            && forall b :: b in r.bads <==>
                             b in dst.bads && forall i :: |dst.goods| <= i < |r.goods| ==> !SidEq(r.goods[i], b.srvid)
    decreases |goods|
  {
    hide SidEq, IsBlocked, IsGood;
    if goods == [] {
    } else {
      var s := goods[0];
      assert forall x :: x in goods <==> x == s || x in goods[1..];
      var r := TakeGoodSids(dst, goods, srcBads, true);
      if IsBlocked(srcBads, s) || IsGood(dst.goods, s) {
        GainsGoods(dst, goods[1..], srcBads);
        if IsGood(dst.goods, s) {
          GoodInLonger(dst.goods, r.goods, s);
        }
      } else {
        var next := Sids(dst.goods + [s], RemoveSidBlock(dst.bads, s));
        RemovedExactly(dst.bads, s);
        GainsGoods(next, goods[1..], srcBads);
        assert r.goods[|dst.goods|] == next.goods[|dst.goods|] == s;
        assert r.goods[..|dst.goods|] == dst.goods;
        assert IsGood(next.goods, s) by { LastIsGood(dst.goods, s); }
        GoodInLonger(next.goods, r.goods, s);
      }
    }
  }

  lemma {:induction false} SidEqReflexive(s: Srvid)
    ensures SidEq(s, s)
  {
  }

  lemma {:induction false} BlocksAdd(bads: seq<SrvidBlock>, more: seq<SrvidBlock>)
    ensures var r := AddSidBlocks(bads, more);
            && bads <= r
            && (forall b :: b in r[|bads|..] ==> b.blockedTill == 0 && exists x :: x in more && x.srvid == b.srvid)
            && (forall x :: x in more ==> IsBlocked(r, x.srvid))
    decreases |more|
  {
    hide SidEq;
    if more == [] {
    } else {
      var r := AddSidBlocks(bads, more);
      var next := AddSidBlock(bads, more[0].srvid);
      assert IsBlocked(next, more[0].srvid) by {
        if !IsBlocked(bads, more[0].srvid) {
          assert next[|bads|].srvid == more[0].srvid;
          SidEqReflexive(more[0].srvid);
        }
      }
      BlocksAdd(next, more[1..]);
      forall b | b in r[|bads|..] ensures b.blockedTill == 0 && exists x :: x in more && x.srvid == b.srvid {
        if b !in r[|next|..] {
          assert b == SrvidBlock(more[0].srvid, 0) && more[0] in more;
        }
      }
      var k :| 0 <= k < |next| && SidEq(more[0].srvid, next[k].srvid);
      assert r[k] == next[k];
    }
  }

  /** The services of a card two cards are merged into. No good ids means all services: a
      destination without them keeps it so, and only loses the blocks on what the source offers;
      a source without them takes the destination's away and leaves its own blocks, for good; and
      where both have some, the destination gains what the source offers and loses the blocks
      on what it gained. Nothing else of the card changes. */
  lemma {:induction false} MergesServices(dst: Card, src: Card)
    ensures var m := MergeSids(dst, src);
            m == dst.(goodsids := m.goodsids, badsids := m.badsids)
    ensures var m := MergeSids(dst, src);
            dst.goodsids == [] ==>
              && m.goodsids == []
              && forall b :: b in m.badsids <==>
                               b in dst.badsids && forall s :: Offered(src.goodsids, src.badsids, s) ==> !SidEq(s, b.srvid)
    ensures var m := MergeSids(dst, src);
            dst.goodsids != [] && src.goodsids == [] ==>
              && m.goodsids == []
              && (forall b :: b in m.badsids ==> b.blockedTill == 0 && exists x :: x in src.badsids && x.srvid == b.srvid)
              && (forall x :: x in src.badsids ==> IsBlocked(m.badsids, x.srvid))
    ensures var m := MergeSids(dst, src);
            dst.goodsids != [] && src.goodsids != [] ==>
              && Gained(dst.goodsids, src.goodsids, src.badsids, m.goodsids)
              && forall b :: b in m.badsids <==>
                               b in dst.badsids &&
                               forall i :: |dst.goodsids| <= i < |m.goodsids| ==> !SidEq(m.goodsids[i], b.srvid)
  {
    hide SidEq, IsBlocked, IsGood, Gained, Offered;
    var sids := Sids(dst.goodsids, dst.badsids);
    if dst.goodsids == [] {
      LosesBlocks(sids, src.goodsids, src.badsids);
    } else if src.goodsids == [] {
      BlocksAdd([], src.badsids);
    } else {
      GainsGoods(sids, src.goodsids, src.badsids);
    }
  }

  // ---------------------------------------------------------------- copies

  /** create_card followed by add_card_providers with remote nodes: a fresh copy without id. */
  function CopyCard(card: Card): Card {
    card.(id := 0,
          goodsids := CopyGoodSids([], card.goodsids),
          badsids := CopyBadSids([], card.badsids),
          providers := AddProviders([], card.providers),
          remoteNodes := AddNodes([], card.remoteNodes))
  }

  lemma {:induction false} CopyIsSameCard(card: Card)
    ensures SameCard(CopyCard(card), card)
  {
    AddNodesCopies(card.remoteNodes);
  }

  /** The ids of the list without those that equal one before them. */
  ghost predicate CopiedOnce<T(!new)>(copy: seq<T>, ids: seq<T>, eq: (T, T) -> bool) {
    && (forall s :: s in copy ==> s in ids)
    && (forall i, j :: 0 <= i < j < |copy| ==> !eq(copy[j], copy[i]))
    && (forall s :: s in ids ==> s in copy || exists i :: 0 <= i < |copy| && eq(s, copy[i]))
  }

  lemma {:induction false} CopiedOneMore<T(!new)>(copy: seq<T>, ids: seq<T>, s: T, eq: (T, T) -> bool)
    requires CopiedOnce(copy, ids, eq)
    ensures (exists i :: 0 <= i < |copy| && eq(s, copy[i])) ==> CopiedOnce(copy, ids + [s], eq)
    ensures !(exists i :: 0 <= i < |copy| && eq(s, copy[i])) ==> CopiedOnce(copy + [s], ids + [s], eq)
  {
    var longer := copy + [s];
    assert forall x :: x in ids + [s] <==> x in ids || x == s;
    assert forall x :: x in longer <==> x in copy || x == s;
    forall x | x in ids && x !in copy ensures exists i :: 0 <= i < |longer| && eq(x, longer[i]) {
      var i :| 0 <= i < |copy| && eq(x, copy[i]);
      assert longer[i] == copy[i];
    }
  }

  lemma {:induction false} NoneCopied<T(!new)>(eq: (T, T) -> bool)
    ensures CopiedOnce([], [], eq)
  {
  }

  lemma {:induction false} CopiesGoodSids(ids: seq<Srvid>)
    ensures CopiedOnce(CopyGoodSids([], ids), ids, SidEq)
    decreases |ids|
  {
    hide SidEq, CopiedOnce;
    if ids == [] {
      NoneCopied(SidEq);
    } else {
      var n := |ids| - 1;
      CopiesGoodSids(ids[..n]);
      CopiedOneMore(CopyGoodSids([], ids[..n]), ids[..n], ids[n], SidEq);
      assert ids[..n] + [ids[n]] == ids;
    }
  }

  lemma {:induction false} CopiesBadSids(ids: seq<SrvidBlock>)
    ensures CopiedOnce(CopyBadSids([], ids), ids, BlockEq)
    decreases |ids|
  {
    hide BlockEq, CopiedOnce;
    if ids == [] {
      NoneCopied(BlockEq);
    } else {
      var n := |ids| - 1;
      CopiesBadSids(ids[..n]);
      CopiedOneMore(CopyBadSids([], ids[..n]), ids[..n], ids[n], BlockEq);
      assert ids[..n] + [ids[n]] == ids;
    }
  }
}
