/**
 The card announcement on the wire: write_card fills a fixed message buffer, read_card
 parses one. Both are proved against Encode and ReadCard, and reading back what was
 written gives the card a receiver is meant to have.
 */
module CardWire {
  import opened Bytes
  import opened Cards

  const CC_MAXMSGSIZE := 0x400
  const MAX_SIDS := 200
  const MAX_TABLE_SIDS := 240
  const MAX_SIDBITS := 128

  // ---------------------------------------------------------------- what is written

  function ProviderPart(p: Provider, au: bool): (b: seq<byte>)
    ensures |b| == 7
  {
    U24Bytes(p.prov) + (if au then p.sa else [0, 0, 0, 0])
  }

  function ProviderParts(ps: seq<Provider>, au: bool): (parts: seq<seq<byte>>)
    ensures |parts| == |ps| && AllWide(parts, 7)
  {
    seq(|ps|, i requires 0 <= i < |ps| => ProviderPart(ps[i], au))
  }

  function SidParts(sids: seq<u16>): (parts: seq<seq<byte>>)
    ensures |parts| == |sids| && AllWide(parts, 2)
  {
    seq(|sids|, i requires 0 <= i < |sids| => U16Bytes(sids[i]))
  }

  function NodeParts(nodes: seq<NodeId>): (parts: seq<seq<byte>>)
    ensures |parts| == |nodes| && AllWide(parts, 8)
  {
    seq(|nodes|, i requires 0 <= i < |nodes| => nodes[i])
  }

  function GoodSids(goods: seq<Srvid>): (r: seq<u16>)
    ensures |r| == |goods|
  {
    seq(|goods|, i requires 0 <= i < |goods| => goods[i].sid)
  }

  /** The ids that are blocked for good; a block with an end is not announced. */
  function PermanentSids(bads: seq<SrvidBlock>): seq<u16> {
    if bads == [] then []
    else
      var n := |bads| - 1;
      PermanentSids(bads[..n]) + (if bads[n].blockedTill > 0 then [] else [bads[n].srvid.sid])
  }

  /** A service table of the configuration. */
  datatype Service = Service(caids: seq<u16>, sids: seq<u16>)

  /** The tables in order, and the numbers of those chosen for the client or the card. */
  datatype Services = Services(tables: seq<Service>, chosen: set<nat>)

  const NO_SERVICES := Services([], {})

  /** The ids of the chosen ones among the first n tables that name the CAID. */
  function ChosenSids(sv: Services, caid: u16, n: nat): seq<u16>
    requires n <= |sv.tables|
  {
    if n == 0 then []
    else
      ChosenSids(sv, caid, n - 1) +
      (if n - 1 in sv.chosen && caid in sv.tables[n - 1].caids then sv.tables[n - 1].sids else [])
  }

  function TablesSearched(sv: Services): (n: nat)
    ensures n <= |sv.tables|
  {
    if |sv.tables| <= MAX_SIDBITS then |sv.tables| else MAX_SIDBITS
  }

  /** A card that a service table stands behind lists the ids of that table, any other card
      its own; without extended messages there is no list. */
  function AnnouncedGoods(card: Card, sv: Services, ext: bool): (r: seq<u16>)
    ensures |r| <= MAX_TABLE_SIDS
  {
    if !ext then []
    else if card.sidtab.None? then AtMost(GoodSids(card.goodsids), MAX_SIDS)
    else if card.sidtab.value < |sv.tables| then AtMost(sv.tables[card.sidtab.value].sids, MAX_TABLE_SIDS)
    else []
  }

  function AnnouncedBads(card: Card, sv: Services, ext: bool): (r: seq<u16>)
    ensures |r| <= MAX_TABLE_SIDS
  {
    if !ext then []
    else if card.sidtab.None? then AtMost(PermanentSids(card.badsids), MAX_SIDS)
    else AtMost(ChosenSids(sv, card.caid, TablesSearched(sv)), MAX_TABLE_SIDS)
  }

  /** The path a receiver sees: the card's nodes, then the sender's own. */
  function Path(card: Card, own: Option<NodeId>): seq<NodeId> {
    card.remoteNodes + (if own.Some? then [own.value] else [])
  }

  function Fixed(card: Card, au: bool): (b: seq<byte>)
    ensures |b| == 20
  {
    U32Bytes(card.id) + U32Bytes(card.remoteId) + U16Bytes(card.caid) + [card.hop, card.reshare] +
    (if au then card.hexserial else Zeros(8))
  }

  function Counts(np: nat, ng: nat, nb: nat, ext: bool): (b: seq<byte>)
    ensures |b| == if ext then 3 else 1
  {
    [np % 256] + (if ext then [ng % 256, nb % 256] else [])
  }

  function NodeCount(nodes: seq<NodeId>): (b: seq<byte>)
    ensures |b| == 1
  {
    [|nodes| % 256]
  }

  /** The announcement of a card. */
  function Encode(card: Card, sv: Services, own: Option<NodeId>, ext: bool, au: bool): seq<byte> {
    Fixed(card, au) +
    Counts(|card.providers|, |AnnouncedGoods(card, sv, ext)|, |AnnouncedBads(card, sv, ext)|, ext) +
    Flatten(ProviderParts(card.providers, au)) +
    Flatten(SidParts(AnnouncedGoods(card, sv, ext))) +
    Flatten(SidParts(AnnouncedBads(card, sv, ext))) +
    NodeCount(Path(card, own)) +
    Flatten(NodeParts(Path(card, own)))
  }

  // ---------------------------------------------------------------- which services are announced

  lemma {:induction false} PermanentOnly(bads: seq<SrvidBlock>)
    ensures forall s :: s in PermanentSids(bads) <==> exists b :: b in bads && b.blockedTill <= 0 && b.srvid.sid == s
  {
    if bads == [] {
    } else {
      var n := |bads| - 1;
      PermanentOnly(bads[..n]);
      assert bads == bads[..n] + [bads[n]];
    }
  }

  /** Table i is chosen, names the CAID and has the id. */
  ghost predicate TableHas(sv: Services, caid: u16, i: nat, s: u16) {
    i < |sv.tables| && i in sv.chosen && caid in sv.tables[i].caids && s in sv.tables[i].sids
  }

  lemma {:induction false} ChosenOnly(sv: Services, caid: u16, n: nat)
    requires n <= |sv.tables|
    ensures forall s :: s in ChosenSids(sv, caid, n) <==> exists i: nat :: i < n && TableHas(sv, caid, i, s)
  {
    if n > 0 {
      ChosenOnly(sv, caid, n - 1);
      forall s ensures s in ChosenSids(sv, caid, n) <==> exists i: nat :: i < n && TableHas(sv, caid, i, s) {
        assert s in ChosenSids(sv, caid, n) <==> s in ChosenSids(sv, caid, n - 1) || TableHas(sv, caid, n - 1, s);
      }
    }
  }

  lemma {:induction false} AtMostCuts<T>(s: seq<T>, n: nat)
    ensures |AtMost(s, n)| <= n && (forall x :: x in AtMost(s, n) ==> x in s) && (|AtMost(s, n)| < n ==> AtMost(s, n) == s)
  {
  }

  /** Which services an announcement excludes. None without extended messages. Of a card without
      service table, ids that are blocked for good; of another one, ids of the chosen tables among
      the first 128 that name its CAID. And all of these, unless the list is full. */
  lemma {:induction false} ExcludedServices(card: Card, sv: Services, ext: bool)
    ensures var bads := AnnouncedBads(card, sv, ext);
            && (!ext ==> bads == [])
            && (ext && card.sidtab.None? ==>
                  && |bads| <= 200
                  && (forall s :: s in bads ==> exists b :: b in card.badsids && b.blockedTill <= 0 && b.srvid.sid == s)
                  && (|bads| < 200 ==> forall b :: b in card.badsids && b.blockedTill <= 0 ==> b.srvid.sid in bads))
            && (ext && card.sidtab.Some? ==>
                  && |bads| <= 240
                  && (forall s :: s in bads ==> exists i: nat :: i < 128 && TableHas(sv, card.caid, i, s))
                  && (|bads| < 240 ==> forall i: nat, s :: i < 128 && TableHas(sv, card.caid, i, s) ==> s in bads))
  {
    hide PermanentSids, ChosenSids, AtMost;
    var perm := PermanentSids(card.badsids);
    PermanentOnly(card.badsids);
    ChosenOnly(sv, card.caid, TablesSearched(sv));
    var chosen := ChosenSids(sv, card.caid, TablesSearched(sv));
    AtMostCuts(perm, 200);
    AtMostCuts(chosen, 240);
    forall i: nat, s | i < 128 && TableHas(sv, card.caid, i, s) ensures s in chosen {
      assert i < TablesSearched(sv);
    }
    forall b | b in card.badsids && b.blockedTill <= 0 ensures b.srvid.sid in perm {
    }
  }

  /** And which it names as served. */
  lemma {:induction false} ServedServices(card: Card, sv: Services, ext: bool)
    ensures var goods := AnnouncedGoods(card, sv, ext);
            && (!ext ==> goods == [])
            && (ext && card.sidtab.None? ==>
                  && |goods| == (if |card.goodsids| < 200 then |card.goodsids| else 200)
                  && forall i :: 0 <= i < |goods| ==> goods[i] == card.goodsids[i].sid)
            && (ext && card.sidtab.Some? ==>
                  if card.sidtab.value < |sv.tables| then
                    var sids := sv.tables[card.sidtab.value].sids;
                    goods <= sids && |goods| == if |sids| < 240 then |sids| else 240
                  else goods == [])
  {
  }

  // ---------------------------------------------------------------- what is read

  predicate IsBetacrypt(caid: u16) {
    caid / 256 == 0x17
  }

  function ProviderAt(buf: seq<byte>, at: nat, caid: u16, i: nat): Provider
    requires at + 7 <= |buf| && i < 256
  {
    var prov := BytesToInt(buf, at, 3);
    assert prov < 0x100_0000 by { BytesToIntValues(buf, at); }
    Provider(if prov == 0xFFFFFF && IsBetacrypt(caid) then i else prov, buf[at + 3..at + 7])
  }

  function ProvidersAt(buf: seq<byte>, at: nat, n: nat, caid: u16): seq<Provider>
    requires at + 7 * n <= |buf| && n < 256
  {
    seq(n, i requires 0 <= i < n => ProviderAt(buf, at + 7 * i, caid, i))
  }

  function SidAt(buf: seq<byte>, at: nat): u16
    requires at + 2 <= |buf|
  {
    BytesToIntValues(buf, at);
    BytesToInt(buf, at, 2)
  }

  function SidsAt(buf: seq<byte>, at: nat, n: nat): seq<u16>
    requires at + 2 * n <= |buf|
  {
    seq(n, i requires 0 <= i < n => SidAt(buf, at + 2 * i))
  }

  function NodesAt(buf: seq<byte>, at: nat, n: nat): seq<NodeId>
    requires at + 8 * n <= |buf|
  {
    seq(n, i requires 0 <= i < n => buf[at + 8 * i..at + 8 * i + 8])
  }

  function AsGoods(sids: seq<u16>): seq<Srvid> {
    seq(|sids|, i requires 0 <= i < |sids| => Srvid(sids[i], 0, 0))
  }

  function AsBads(sids: seq<u16>): seq<SrvidBlock> {
    seq(|sids|, i requires 0 <= i < |sids| => SrvidBlock(Srvid(sids[i], 0, 0), 0))
  }

  function U32At(buf: seq<byte>, at: nat): u32
    requires at + 4 <= |buf|
  {
    BytesToIntValues(buf, at);
    BytesToInt(buf, at, 4)
  }

  /** A card as it leaves read_card. */
  function RemoteCardOf(id: u32, remoteId: u32, caid: u16, hop: byte, reshare: byte, serial: Serial,
                        providers: seq<Provider>, goods: seq<u16>, bads: seq<u16>, nodes: seq<NodeId>, ext: bool): Card {
    Card(id, remoteId, caid, hop, reshare, serial, providers, AsBads(bads), AsGoods(goods), nodes,
         None, RemoteCard, None, {}, 0, 0, ext)
  }

  function ReadCard(buf: seq<byte>, ext: bool): Option<Card> {
    if |buf| < 21 || (ext && |buf| < 23) then None
    else
      var nprov: int := buf[20];
      var nassign: int := if ext then buf[21] else 0;
      var nreject: int := if ext then buf[22] else 0;
      var start := if ext then 23 else 21;
      if |buf| < start + nprov * 7 then None
      else
        var good := start + nprov * 7;
        if |buf| < good + nassign * 2 + nreject * 2 then None
        else
          var caid := SidAt(buf, 8);
          var bad := good + nassign * 2;
          var end := bad + nreject * 2;
          var count: int := if |buf| < end + 1 then 0 else buf[end];
          if |buf| >= end + 1 && |buf| < end + 1 + count * 8 then None
          else
            Some(RemoteCardOf(
                   U32At(buf, 0), U32At(buf, 4), caid, buf[10], buf[11], buf[12..20],
                   ProvidersAt(buf, start, nprov, caid),
                   SidsAt(buf, good, nassign), SidsAt(buf, bad, nreject),
                   if |buf| < end + 1 then [] else NodesAt(buf, end + 1, count), ext))
  }

  // ---------------------------------------------------------------- reading back

  /** Without permission for EMMs the shared addresses are withheld. */
  function AnnouncedProviders(ps: seq<Provider>, au: bool): seq<Provider> {
    seq(|ps|, i requires 0 <= i < |ps| => if au then ps[i] else ps[i].(sa := [0, 0, 0, 0]))
  }

  /** What a receiver is meant to end up with. */
  function Received(card: Card, sv: Services, own: Option<NodeId>, ext: bool, au: bool): Card {
    RemoteCardOf(
      card.id, card.remoteId, card.caid, card.hop, card.reshare,
      if au then card.hexserial else Zeros(8),
      AnnouncedProviders(card.providers, au),
      AnnouncedGoods(card, sv, ext), AnnouncedBads(card, sv, ext), Path(card, own), ext)
  }

  /** Provider numbers have 24 bits, and one of them is a placeholder on Betacrypt. */
  ghost predicate Announceable(card: Card) {
    forall i :: 0 <= i < |card.providers| ==>
                  card.providers[i].prov < 0x100_0000 &&
                  (card.caid / 256 == 0x17 ==> card.providers[i].prov != 0xFFFFFF)
  }

  /** The placeholder is read as the provider's place in the list. */
  function Numbered(p: Provider, caid: u16, i: nat): Provider
    requires i < 256
  {
    if caid / 256 == 0x17 && p.prov == 0xFFFFFF then p.(prov := i) else p
  }

  function NumberedCard(card: Card): Card
    requires |card.providers| < 256
  {
    card.(providers := seq(|card.providers|, i requires 0 <= i < |card.providers| => Numbered(card.providers[i], card.caid, i)))
  }

  ghost predicate ProvidersFit(card: Card) {
    forall i :: 0 <= i < |card.providers| ==> card.providers[i].prov < 0x100_0000
  }

  lemma {:induction false} ProviderReadsBack(buf: seq<byte>, k: nat, p: Provider, au: bool, caid: u16, i: nat)
    requires k + 7 <= |buf| && i < 256
    requires buf[k..k + 7] == ProviderPart(p, au)
    requires p.prov < 0x100_0000
    ensures ProviderAt(buf, k, caid, i) == if au then Numbered(p, caid, i) else Numbered(p, caid, i).(sa := [0, 0, 0, 0])
  {
    SubSlice(buf, k, k + 7, 0, 3);
    SubSlice(buf, k, k + 7, 3, 7);
    U24RoundTrip(buf, k, p.prov);
  }

  lemma {:induction false} ProvidersReadBack(buf: seq<byte>, at: nat, card: Card, au: bool)
    requires at + 7 * |card.providers| <= |buf| && |card.providers| < 256 && ProvidersFit(card)
    requires buf[at..at + 7 * |card.providers|] == Flatten(ProviderParts(card.providers, au))
    ensures ProvidersAt(buf, at, |card.providers|, card.caid) == AnnouncedProviders(NumberedCard(card).providers, au)
  {
    hide Flatten, ProviderPart, ProviderAt, Numbered;
    var ps, read := card.providers, NumberedCard(card).providers;
    forall i | 0 <= i < |ps|
      ensures ProviderAt(buf, at + 7 * i, card.caid, i) == if au then read[i] else read[i].(sa := [0, 0, 0, 0])
    {
      FlattenAt(ProviderParts(ps, au), 7, i, 7 * i);
      SubSlice(buf, at, at + 7 * |ps|, 7 * i, 7 * i + 7);
      ProviderReadsBack(buf, at + 7 * i, ps[i], au, card.caid, i);
    }
  }

  lemma {:induction false} SidsReadBack(buf: seq<byte>, at: nat, sids: seq<u16>)
    requires at + 2 * |sids| <= |buf|
    requires buf[at..at + 2 * |sids|] == Flatten(SidParts(sids))
    ensures SidsAt(buf, at, |sids|) == sids
  {
    forall i | 0 <= i < |sids| ensures SidAt(buf, at + 2 * i) == sids[i] {
      FlattenAt(SidParts(sids), 2, i, 2 * i);
      var k := at + 2 * i;
      SubSlice(buf, at, at + 2 * |sids|, 2 * i, 2 * i + 2);
      U16RoundTrip(buf, k, sids[i]);
    }
  }

  lemma {:induction false} NodesReadBack(buf: seq<byte>, at: nat, nodes: seq<NodeId>)
    requires at + 8 * |nodes| <= |buf|
    requires buf[at..at + 8 * |nodes|] == Flatten(NodeParts(nodes))
    ensures NodesAt(buf, at, |nodes|) == nodes
  {
    forall i | 0 <= i < |nodes| ensures buf[at + 8 * i..at + 8 * i + 8] == nodes[i] {
      FlattenAt(NodeParts(nodes), 8, i, 8 * i);
      var k := at + 8 * i;
      SubSlice(buf, at, at + 8 * |nodes|, 8 * i, 8 * i + 8);
    }
  }

  lemma {:induction false} Parts(f: seq<byte>, c: seq<byte>, p: seq<byte>, g: seq<byte>, b: seq<byte>, n: seq<byte>, m: seq<byte>,
              tail: seq<byte>)
    ensures var s := f + c + p + g + b + n + m + tail;
            && |s| == |f| + |c| + |p| + |g| + |b| + |n| + |m| + |tail|
            && s[..|f|] == f
            && s[|f|..|f| + |c|] == c
            && s[|f| + |c|..|f| + |c| + |p|] == p
            && s[|f| + |c| + |p|..|f| + |c| + |p| + |g|] == g
            && s[|f| + |c| + |p| + |g|..|f| + |c| + |p| + |g| + |b|] == b
            && s[|f| + |c| + |p| + |g| + |b|..|f| + |c| + |p| + |g| + |b| + |n|] == n
            && s[|f| + |c| + |p| + |g| + |b| + |n|..|f| + |c| + |p| + |g| + |b| + |n| + |m|] == m
  {
  }

  /** Where each part of an announcement lies. */
  lemma {:induction false} Layout(card: Card, sv: Services, own: Option<NodeId>, ext: bool, au: bool, tail: seq<byte>)
    ensures var buf := Encode(card, sv, own, ext, au) + tail;
            var start := if ext then 23 else 21;
            var good := start + 7 * |card.providers|;
            var bad := good + 2 * |AnnouncedGoods(card, sv, ext)|;
            var end := bad + 2 * |AnnouncedBads(card, sv, ext)|;
            var nodes := Path(card, own);
            && |Encode(card, sv, own, ext, au)| == end + 1 + 8 * |nodes|
            && buf[..20] == Fixed(card, au)
            && buf[20..start] == Counts(|card.providers|, |AnnouncedGoods(card, sv, ext)|, |AnnouncedBads(card, sv, ext)|, ext)
            && buf[start..good] == Flatten(ProviderParts(card.providers, au))
            && buf[good..bad] == Flatten(SidParts(AnnouncedGoods(card, sv, ext)))
            && buf[bad..end] == Flatten(SidParts(AnnouncedBads(card, sv, ext)))
            && buf[end..end + 1] == NodeCount(nodes)
            && buf[end + 1..end + 1 + 8 * |nodes|] == Flatten(NodeParts(nodes))
  {
    hide Fixed, Counts, ProviderParts, SidParts, NodeParts, NodeCount, Path, AnnouncedGoods, AnnouncedBads, Flatten;
    var nodes := Path(card, own);
    var goods, bads := AnnouncedGoods(card, sv, ext), AnnouncedBads(card, sv, ext);
    FlattenLength(ProviderParts(card.providers, au), 7);
    FlattenLength(SidParts(goods), 2);
    FlattenLength(SidParts(bads), 2);
    FlattenLength(NodeParts(nodes), 8);
    Parts(Fixed(card, au), Counts(|card.providers|, |goods|, |bads|, ext), Flatten(ProviderParts(card.providers, au)),
          Flatten(SidParts(goods)), Flatten(SidParts(bads)), NodeCount(nodes), Flatten(NodeParts(nodes)), tail);
  }

  lemma {:induction false} FixedReadsBack(buf: seq<byte>, card: Card, au: bool)
    requires |buf| >= 20 && buf[..20] == Fixed(card, au)
    ensures U32At(buf, 0) == card.id && U32At(buf, 4) == card.remoteId && SidAt(buf, 8) == card.caid
    ensures buf[10] == card.hop && buf[11] == card.reshare
    ensures buf[12..20] == if au then card.hexserial else Zeros(8)
  {
    var f := Fixed(card, au);
    assert buf[0..4] == f[0..4] == U32Bytes(card.id);
    assert buf[4..8] == f[4..8] == U32Bytes(card.remoteId);
    assert buf[8..10] == f[8..10] == U16Bytes(card.caid);
    assert buf[10] == f[10] && buf[11] == f[11];
    assert buf[12..20] == f[12..20];
    U32RoundTrip(buf, 0, card.id);
    U32RoundTrip(buf, 4, card.remoteId);
    U16RoundTrip(buf, 8, card.caid);
  }

  /** A buffer with consistent counters is read without complaint. */
  lemma {:induction false} ReadsLists(buf: seq<byte>, ext: bool, np: byte, ng: byte, nb: byte, nn: byte)
    requires var end := (if ext then 23 else 21) + np as int * 7 + ng as int * 2 + nb as int * 2;
             && |buf| >= end + 1 + 8 * nn as int
             && buf[20] == np && (if ext then buf[21] == ng && buf[22] == nb else ng == 0 && nb == 0)
             && buf[end] == nn
    ensures var start := if ext then 23 else 21;
            var good := start + np as int * 7;
            var bad := good + ng as int * 2;
            var end := bad + nb as int * 2;
            ReadCard(buf, ext) ==
            Some(RemoteCardOf(U32At(buf, 0), U32At(buf, 4), SidAt(buf, 8), buf[10], buf[11], buf[12..20],
                              ProvidersAt(buf, start, np, SidAt(buf, 8)), SidsAt(buf, good, ng), SidsAt(buf, bad, nb),
                              NodesAt(buf, end + 1, nn), ext))
  {
    hide ProvidersAt, SidsAt, NodesAt, SidAt, U32At, RemoteCardOf;
  }

  lemma {:induction false} CountsReadBack(buf: seq<byte>, start: nat, np: nat, ng: nat, nb: nat, ext: bool)
    requires start == (if ext then 23 else 21) <= |buf| && buf[20..start] == Counts(np, ng, nb, ext)
    requires np < 256 && ng < 256 && nb < 256
    ensures buf[20] == np && (ext ==> buf[21] == ng && buf[22] == nb)
  {
  }

  lemma {:induction false} NoSids(card: Card, sv: Services)
    ensures AnnouncedGoods(card, sv, false) == [] && AnnouncedBads(card, sv, false) == []
  {
  }

  /** Numbering providers changes nothing else of what is announced. */
  lemma {:induction false} NumberedReceived(card: Card, sv: Services, own: Option<NodeId>, ext: bool, au: bool)
    requires |card.providers| < 256
    ensures Received(NumberedCard(card), sv, own, ext, au) ==
            RemoteCardOf(
              card.id, card.remoteId, card.caid, card.hop, card.reshare,
              if au then card.hexserial else Zeros(8),
              AnnouncedProviders(NumberedCard(card).providers, au),
              AnnouncedGoods(card, sv, ext), AnnouncedBads(card, sv, ext), Path(card, own), ext)
  {
    hide AnnouncedProviders, Zeros;
  }

  lemma {:induction false} FewProviders(card: Card, sv: Services, own: Option<NodeId>, ext: bool, au: bool)
    requires |Encode(card, sv, own, ext, au)| <= CC_MAXMSGSIZE
    ensures |card.providers| < 256
  {
    hide Fixed, Counts, SidParts, NodeParts, AnnouncedGoods, AnnouncedBads, NodeCount, Path, ProviderParts;
    FlattenLength(ProviderParts(card.providers, au), 7);
  }

  /** Any announcement that fits a message and has providers of 24 bits is read back as the card
      the receiver is meant to have, with the placeholders of a Betacrypt card numbered. */
  lemma {:induction false} PlaceholdersNumbered(card: Card, sv: Services, own: Option<NodeId>, ext: bool, au: bool, tail: seq<byte>)
    requires ProvidersFit(card)
    requires |Encode(card, sv, own, ext, au)| <= CC_MAXMSGSIZE
    ensures |card.providers| < 256
    ensures ReadCard(Encode(card, sv, own, ext, au) + tail, ext) == Some(Received(NumberedCard(card), sv, own, ext, au))
  {
    hide Encode, Fixed, Counts, ProviderParts, SidParts, NodeParts, Path, AnnouncedGoods, AnnouncedBads, AnnouncedProviders,
         ProvidersAt, SidsAt, NodesAt, SidAt, U32At, Flatten, Zeros, ReadCard, RemoteCardOf, ProvidersFit, NumberedCard, Received;
    FewProviders(card, sv, own, ext, au);
    var buf := Encode(card, sv, own, ext, au) + tail;
    var goods, bads, nodes := AnnouncedGoods(card, sv, ext), AnnouncedBads(card, sv, ext), Path(card, own);
    var start := if ext then 23 else 21;
    var good := start + 7 * |card.providers|;
    var bad := good + 2 * |goods|;
    var end := bad + 2 * |bads|;
    Layout(card, sv, own, ext, au, tail);
    FixedReadsBack(buf, card, au);
    CountsReadBack(buf, start, |card.providers|, |goods|, |bads|, ext);
    NoSids(card, sv);
    assert buf[end] == buf[end..end + 1][0] == |nodes|;
    ReadsLists(buf, ext, |card.providers|, |goods|, |bads|, |nodes|);
    ProvidersReadBack(buf, start, card, au);
    NumberedReceived(card, sv, own, ext, au);
    SidsReadBack(buf, good, goods);
    SidsReadBack(buf, bad, bads);
    NodesReadBack(buf, end + 1, nodes);
  }

  lemma {:induction false} AnnounceableIsNumbered(card: Card)
    requires Announceable(card) && |card.providers| < 256
    ensures NumberedCard(card) == card && ProvidersFit(card)
  {
  }

  lemma {:induction false} ProvidersAtSmall(buf: seq<byte>, at: nat, n: byte, caid: u16)
    requires at + 7 * n as int <= |buf|
    ensures |ProvidersAt(buf, at, n, caid)| == n as int
    ensures forall i :: 0 <= i < n as int ==> ProvidersAt(buf, at, n, caid)[i].prov < 0x100_0000
    ensures caid / 256 == 0x17 ==> forall i :: 0 <= i < n as int ==> ProvidersAt(buf, at, n, caid)[i].prov != 0xFFFFFF
  {
    forall i | 0 <= i < n as int
      ensures ProvidersAt(buf, at, n, caid)[i].prov < 0x100_0000
      ensures caid / 256 == 0x17 ==> ProvidersAt(buf, at, n, caid)[i].prov != 0xFFFFFF
    {
      BytesToIntValues(buf, at + 7 * i);
    }
  }

  /** Whatever bytes arrive, a card that is read has only provider numbers that can be
      announced. */
  lemma {:induction false} ReadIsAnnounceable(buf: seq<byte>, ext: bool)
    ensures ReadCard(buf, ext).Some? ==> Announceable(ReadCard(buf, ext).value)
  {
    hide SidsAt, NodesAt, SidAt, U32At, ProvidersAt, IsBetacrypt;
    var c := ReadCard(buf, ext);
    if c.Some? {
      var start := if ext then 23 else 21;
      var providers := ProvidersAt(buf, start, buf[20], SidAt(buf, 8));
      assert c.value.caid == SidAt(buf, 8) && c.value.providers == providers;
      ProvidersAtSmall(buf, start, buf[20], SidAt(buf, 8));
      assert forall i :: 0 <= i < |providers| ==> c.value.providers[i] == providers[i];
    }
  }

  lemma {:induction false} ReceivedAnnounceable(card: Card, sv: Services, own: Option<NodeId>, ext: bool, au: bool)
    requires Announceable(Received(card, sv, own, ext, au))
    ensures Announceable(card)
  {
    var r := Received(card, sv, own, ext, au);
    assert forall i :: 0 <= i < |card.providers| ==> r.providers[i].prov == card.providers[i].prov;
  }

  /** The round trip: whatever follows it in the buffer, an announcement that fits a message
      is read back as the card the receiver is meant to have exactly if every provider number
      has 24 bits and none is the Betacrypt placeholder. */
  lemma {:induction false} CardRoundTrip(card: Card, sv: Services, own: Option<NodeId>, ext: bool, au: bool, tail: seq<byte>)
    requires |Encode(card, sv, own, ext, au)| <= CC_MAXMSGSIZE
    ensures ReadCard(Encode(card, sv, own, ext, au) + tail, ext) == Some(Received(card, sv, own, ext, au)) <==> Announceable(card)
  {
    hide Encode, ReadCard, Received, Announceable;
    if Announceable(card) {
      FewProviders(card, sv, own, ext, au);
      AnnounceableIsNumbered(card);
      PlaceholdersNumbered(card, sv, own, ext, au, tail);
    } else {
      ReadIsAnnounceable(Encode(card, sv, own, ext, au) + tail, ext);
      if Announceable(Received(card, sv, own, ext, au)) {
        ReceivedAnnounceable(card, sv, own, ext, au);
      }
    }
  }

  /** What a card is known by, and its path, hop count and level, arrive whatever the providers
      are. */
  lemma {:induction false} PathReadsBack(card: Card, sv: Services, own: Option<NodeId>, ext: bool, au: bool)
    requires |Encode(card, sv, own, ext, au)| <= CC_MAXMSGSIZE
    ensures var c := ReadCard(Encode(card, sv, own, ext, au), ext);
            && c.Some? && c.value.remoteNodes == Path(card, own) && c.value.cardType.RemoteCard?
            && c.value.hop == card.hop && c.value.reshare == card.reshare
            && c.value.id == card.id && c.value.remoteId == card.remoteId && c.value.caid == card.caid
            && c.value.hexserial == (if au then card.hexserial else Zeros(8)) && c.value.sidtab == None
    ensures |Encode(card, sv, own, ext, au)| >= 12
    ensures Encode(card, sv, own, ext, au)[10] == card.hop && Encode(card, sv, own, ext, au)[11] == card.reshare
  {
    hide Encode, Fixed, Counts, ProviderParts, SidParts, NodeParts, Path, AnnouncedGoods, AnnouncedBads,
         ProvidersAt, SidsAt, NodesAt, SidAt, U32At, Flatten, Zeros, ReadCard;
    var buf := Encode(card, sv, own, ext, au);
    assert buf + [] == buf;
    Layout(card, sv, own, ext, au, []);
    FixedReadsBack(buf, card, au);
    var np, ng, nb, nodes := |card.providers|, |AnnouncedGoods(card, sv, ext)|, |AnnouncedBads(card, sv, ext)|, Path(card, own);
    CountsReadBack(buf, if ext then 23 else 21, np, ng, nb, ext);
    NoSids(card, sv);
    var end := (if ext then 23 else 21) + 7 * np + 2 * ng + 2 * nb;
    assert buf[end] == buf[end..end + 1][0] == |nodes|;
    ReadsLists(buf, ext, np, ng, nb, |nodes|);
    NodesReadBack(buf, end + 1, nodes);
  }

  /** A message cut short is noticed, except where it ends right before the node list: then
      the card is taken without any path. */
  lemma {:induction false} TruncationNoticed(card: Card, sv: Services, own: Option<NodeId>, ext: bool, au: bool, k: nat)
    requires |Encode(card, sv, own, ext, au)| <= CC_MAXMSGSIZE && k <= |Encode(card, sv, own, ext, au)|
    ensures ReadCard(Encode(card, sv, own, ext, au)[..k], ext).Some? <==>
            k == |Encode(card, sv, own, ext, au)| || k == |Encode(card, sv, own, ext, au)| - 1 - 8 * |Path(card, own)|
  {
    hide Encode, Fixed, Counts, ProviderParts, SidParts, NodeParts, Path, AnnouncedGoods, AnnouncedBads, AnnouncedProviders,
         ProvidersAt, SidsAt, NodesAt, SidAt, U32At, Flatten, Zeros, RemoteCardOf, IsBetacrypt;
    var whole := Encode(card, sv, own, ext, au);
    assert whole + [] == whole;
    Layout(card, sv, own, ext, au, []);
    var np, ng, nb := |card.providers|, |AnnouncedGoods(card, sv, ext)|, |AnnouncedBads(card, sv, ext)|;
    var start := if ext then 23 else 21;
    CountsReadBack(whole, start, np, ng, nb, ext);
    NoSids(card, sv);
    var end := start + 7 * np + 2 * ng + 2 * nb;
    assert whole[end] == whole[end..end + 1][0] == |Path(card, own)|;
    var buf := whole[..k];
    assert k > 20 ==> buf[20] == np;
    assert k >= 23 && ext ==> buf[21] == ng && buf[22] == nb;
    assert k > end ==> buf[end] == |Path(card, own)|;
  }

  // ---------------------------------------------------------------- the program

  /** memcpy to a position of the message. */
  method Put(buf: array<byte>, ofs: nat, bytes: seq<byte>)
    requires ofs + |bytes| <= buf.Length
    modifies buf
    ensures buf[..] == old(buf[..ofs]) + bytes + old(buf[ofs + |bytes|..])
  {
    forall i | 0 <= i < |bytes| {
      buf[ofs + i] := bytes[i];
    }
  }

  method Increment(buf: array<byte>, at: nat)
    requires at < buf.Length
    modifies buf
    ensures buf[..] == old(buf[..])[at := (old(buf[at]) as int + 1) % 256]
  {
    var n: int := buf[at] as int + 1;
    buf[at] := n % 256;
  }

  /** A message under construction: what is written so far, then zeros. */
  ghost predicate Holds(buf: array<byte>, written: seq<byte>)
    reads buf
  {
    buf.Length == CC_MAXMSGSIZE && |written| <= CC_MAXMSGSIZE &&
    buf[..] == written + Zeros(CC_MAXMSGSIZE - |written|)
  }

  /** One list entry: its bytes at the end, its counter further up. */
  method PutCounted(buf: array<byte>, ofs: nat, bytes: seq<byte>, counter: nat, ghost written: seq<byte>)
    requires Holds(buf, written) && ofs == |written| && ofs + |bytes| <= CC_MAXMSGSIZE && counter < ofs
    modifies buf
    ensures Holds(buf, written[counter := (written[counter] as int + 1) % 256] + bytes)
  {
    assert buf[counter] == buf[..][counter] == written[counter];
    Put(buf, ofs, bytes);
    assert Holds(buf, written + bytes);
    assert buf[counter] == buf[..][counter] == written[counter];
    Increment(buf, counter);
  }

  lemma {:induction false} PrefixParts(parts: seq<seq<byte>>, i: nat)
    requires i < |parts|
    ensures Flatten(parts[..i + 1]) == Flatten(parts[..i]) + parts[i]
    ensures |Flatten(parts[..i + 1])| <= |Flatten(parts)|
  {
    assert parts[..i + 1][..i] == parts[..i];
    FlattenConcat(parts[..i + 1], parts[i + 1..]);
    assert parts == parts[..i + 1] + parts[i + 1..];
  }

  /** The list of equal parts that follows, with its counter: the loops of write_card. */
  method PutList(buf: array<byte>, ofs: nat, parts: seq<seq<byte>>, counter: nat, ghost written: seq<byte>)
    returns (end: nat)
    requires Holds(buf, written) && ofs == |written| && counter < ofs && written[counter] == 0
    requires ofs + |Flatten(parts)| <= CC_MAXMSGSIZE
    modifies buf
    ensures end == ofs + |Flatten(parts)|
    ensures Holds(buf, written[counter := |parts| % 256] + Flatten(parts))
  {
    hide Zeros;
    end := ofs;
    var i := 0;
    ghost var sofar: seq<byte> := written;
    assert sofar == written[counter := 0] + Flatten(parts[..0]);
    while i < |parts|
      invariant 0 <= i <= |parts|
      invariant sofar == written[counter := i % 256] + Flatten(parts[..i])
      invariant end == |sofar| <= CC_MAXMSGSIZE
      invariant Holds(buf, sofar)
    {
      PrefixParts(parts, i);
      PutCounted(buf, end, parts[i], counter, sofar);
      sofar := sofar[counter := (sofar[counter] as int + 1) % 256] + parts[i];
      assert sofar == written[counter := (i + 1) % 256] + Flatten(parts[..i + 1]);
      end := end + |parts[i]|;
      i := i + 1;
    }
    assert parts[..i] == parts;
  }

  lemma {:induction false} PermanentGrows(bads: seq<SrvidBlock>, i: nat)
    requires i <= |bads|
    ensures PermanentSids(bads[..i]) <= PermanentSids(bads)
    decreases |bads|
  {
    var n := |bads| - 1;
    if i <= n {
      PermanentGrows(bads[..n], i);
      assert bads[..n][..i] == bads[..i];
    } else {
      assert bads[..i] == bads;
    }
  }

  /** The ids to announce: the loops over good and bad ids with their breaks. */
  method CollectSids(card: Card, sv: Services) returns (goods: seq<u16>, bads: seq<u16>)
    requires card.sidtab.None?
    ensures goods == AnnouncedGoods(card, sv, true) && bads == AnnouncedBads(card, sv, true)
  {
    goods := [];
    var i := 0;
    while i < |card.goodsids|
      invariant 0 <= i <= |card.goodsids|
      invariant goods == GoodSids(card.goodsids)[..i] && |goods| < MAX_SIDS
    {
      goods := goods + [card.goodsids[i].sid];
      i := i + 1;
      if |goods| >= MAX_SIDS {
        break;
      }
    }
    bads := [];
    i := 0;
    assert card.badsids[..0] == [];
    while i < |card.badsids|
      invariant 0 <= i <= |card.badsids|
      invariant bads == PermanentSids(card.badsids[..i]) && |bads| < MAX_SIDS
    {
      PermanentGrows(card.badsids, i + 1);
      assert card.badsids[..i + 1][..i] == card.badsids[..i];
      if card.badsids[i].blockedTill > 0 {
        i := i + 1;
        continue;
      }
      bads := bads + [card.badsids[i].srvid.sid];
      i := i + 1;
      if |bads| >= MAX_SIDS {
        break;
      }
    }
    assert card.badsids[..|card.badsids|] == card.badsids;
  }

  method HasCaid(caids: seq<u16>, caid: u16) returns (ok: bool)
    ensures ok == (caid in caids)
  {
    var m := 0;
    while m < |caids|
      invariant 0 <= m <= |caids| && caid !in caids[..m]
    {
      if caids[m] == caid {
        return true;
      }
      m := m + 1;
    }
    return false;
  }

  method AddTable(bads: seq<u16>, sids: seq<u16>) returns (more: seq<u16>)
    requires |bads| < MAX_TABLE_SIDS
    ensures more == AtMost(bads + sids, MAX_TABLE_SIDS)
  {
    more := bads;
    var l := 0;
    while l < |sids|
      invariant 0 <= l <= |sids| && more == bads + sids[..l] && |more| < MAX_TABLE_SIDS
    {
      more := more + [sids[l]];
      l := l + 1;
      if |more| >= MAX_TABLE_SIDS {
        break;
      }
    }
  }

  lemma {:induction false} ChosenGrows(sv: Services, caid: u16, n: nat, m: nat)
    requires n <= m <= |sv.tables|
    ensures ChosenSids(sv, caid, n) <= ChosenSids(sv, caid, m)
  {
    if n == m {
    } else {
      ChosenGrows(sv, caid, n, m - 1);
    }
  }

  method CollectChosen(caid: u16, sv: Services) returns (bads: seq<u16>)
    ensures bads == AtMost(ChosenSids(sv, caid, TablesSearched(sv)), MAX_TABLE_SIDS)
  {
    bads := [];
    var n := 0;
    while n < |sv.tables| && n < MAX_SIDBITS
      invariant 0 <= n <= TablesSearched(sv)
      invariant bads == ChosenSids(sv, caid, n) && |bads| < MAX_TABLE_SIDS
    {
      ChosenGrows(sv, caid, n + 1, TablesSearched(sv));
      if n in sv.chosen {
        var okCaid := HasCaid(sv.tables[n].caids, caid);
        if okCaid {
          bads := AddTable(bads, sv.tables[n].sids);
        }
      }
      if |bads| >= MAX_TABLE_SIDS {
        break;
      }
      n := n + 1;
    }
  }

  /** The ids to announce of a card with a service table: the loops over its table and the chosen ones,
      which end at 240 ids. */
  method CollectTableSids(card: Card, sv: Services) returns (goods: seq<u16>, bads: seq<u16>)
    requires card.sidtab.Some? && card.sidtab.value < |sv.tables|
    ensures goods == AnnouncedGoods(card, sv, true) && bads == AnnouncedBads(card, sv, true)
  {
    var sids := sv.tables[card.sidtab.value].sids;
    assert [] + sids == sids;
    goods := AddTable([], sids);
    bads := CollectChosen(card.caid, sv);
  }

  /** The counters before and after a list is written. */
  lemma {:induction false} CountersWritten(f: seq<byte>, p: seq<byte>, g: seq<byte>, b: seq<byte>, np: nat, ng: nat, nb: nat, ext: bool)
    requires |f| == 20
    ensures (f + Counts(0, 0, 0, ext))[20 := np % 256] + p == f + Counts(np, 0, 0, ext) + p
    ensures (f + Counts(np, 0, 0, true) + p)[21 := ng % 256] + g == f + Counts(np, ng, 0, true) + p + g
    ensures (f + Counts(np, ng, 0, true) + p + g)[22 := nb % 256] + b == f + Counts(np, ng, nb, true) + p + g + b
    ensures (f + Counts(0, 0, 0, ext))[20] == 0
    ensures (f + Counts(np, 0, 0, true) + p)[21] == 0
    ensures (f + Counts(np, ng, 0, true) + p + g)[22] == 0
  {
  }

  lemma {:induction false} NodesWritten(w: seq<byte>, nodes: seq<NodeId>, zero: seq<byte>, n: seq<byte>)
    requires zero == [0]
    ensures (w + zero)[|w| := |nodes| % 256] + n == w + NodeCount(nodes) + n
  {
  }

  lemma {:induction false} NoLists(card: Card, sv: Services)
    ensures Flatten(SidParts(AnnouncedGoods(card, sv, false))) == [] && Flatten(SidParts(AnnouncedBads(card, sv, false))) == []
    ensures |AnnouncedGoods(card, sv, false)| == 0 && |AnnouncedBads(card, sv, false)| == 0
  {
  }

  method WriteFixed(buf: array<byte>, card: Card, au: bool) returns (fixed: seq<byte>)
    requires buf.Length == CC_MAXMSGSIZE
    modifies buf
    ensures fixed == Fixed(card, au) && Holds(buf, fixed)
  {
    forall i | 0 <= i < CC_MAXMSGSIZE {
      buf[i] := 0;
    }
    fixed := U32Bytes(card.id) + U32Bytes(card.remoteId) + U16Bytes(card.caid) + [card.hop, card.reshare];
    Put(buf, 0, fixed);
    assert Holds(buf, fixed);
    if au {
      Put(buf, 12, card.hexserial);
    }
    fixed := fixed + (if au then card.hexserial else Zeros(8));
  }

  /** The zeros of a fresh buffer are counters not yet counted up. */
  lemma {:induction false} StartCounts(buf: array<byte>, fixed: seq<byte>, ext: bool)
    requires |fixed| == 20 && Holds(buf, fixed)
    ensures Holds(buf, fixed + Counts(0, 0, 0, ext))
  {
  }

  method PutNodes(buf: array<byte>, ofs: nat, nodes: seq<NodeId>, ghost written: seq<byte>) returns (end: nat)
    requires Holds(buf, written) && ofs == |written| && ofs + 1 + 8 * |nodes| <= CC_MAXMSGSIZE
    modifies buf
    ensures end == ofs + 1 + 8 * |nodes|
    ensures Holds(buf, written + NodeCount(nodes) + Flatten(NodeParts(nodes)))
  {
    hide NodeParts, Flatten;
    FlattenLength(NodeParts(nodes), 8);
    ghost var zero: seq<byte> := [0];
    assert Zeros(CC_MAXMSGSIZE - ofs) == zero + Zeros(CC_MAXMSGSIZE - ofs - 1);
    assert Holds(buf, written + zero);
    end := PutList(buf, ofs + 1, NodeParts(nodes), ofs, written + zero);
    NodesWritten(written, nodes, zero, Flatten(NodeParts(nodes)));
  }

  /** Fills the message buffer and returns the length of the message. */
  method WriteCard(nodeId: NodeId, buf: array<byte>, card: Card, sv: Services, addOwn: bool, ext: bool, au: bool)
    returns (ofs: nat)
    requires buf.Length == CC_MAXMSGSIZE && (card.sidtab.Some? ==> card.sidtab.value < |sv.tables|)
    requires |Encode(card, sv, if addOwn then Some(nodeId) else None, ext, au)| <= CC_MAXMSGSIZE
    modifies buf
    ensures ofs == |Encode(card, sv, if addOwn then Some(nodeId) else None, ext, au)|
    ensures Holds(buf, Encode(card, sv, if addOwn then Some(nodeId) else None, ext, au))
  {
    hide ProviderParts, SidParts, NodeParts, AnnouncedGoods, AnnouncedBads, Flatten, Counts, Zeros, Fixed, NodeCount;
    ghost var own := if addOwn then Some(nodeId) else None;
    var fixed := WriteFixed(buf, card, au);
    ghost var p := Flatten(ProviderParts(card.providers, au));
    ghost var goodSids, badSids := AnnouncedGoods(card, sv, ext), AnnouncedBads(card, sv, ext);
    ghost var g, b := Flatten(SidParts(goodSids)), Flatten(SidParts(badSids));
    ghost var np, ng, nb := |card.providers|, |goodSids|, |badSids|;
    CountersWritten(fixed, p, g, b, np, ng, nb, ext);
    ofs := if ext then 23 else 21;
    StartCounts(buf, fixed, ext);
    ofs := PutList(buf, ofs, ProviderParts(card.providers, au), 20, fixed + Counts(0, 0, 0, ext));
    if ext {
      var goods, bads;
      if card.sidtab.Some? {
        goods, bads := CollectTableSids(card, sv);
      } else {
        goods, bads := CollectSids(card, sv);
      }
      ofs := PutList(buf, ofs, SidParts(goods), 21, fixed + Counts(np, 0, 0, true) + p);
      ofs := PutList(buf, ofs, SidParts(bads), 22, fixed + Counts(np, ng, 0, true) + p + g);
    } else {
      NoLists(card, sv);
      assert fixed + Counts(np, ng, nb, ext) + p + g + b == fixed + Counts(np, 0, 0, ext) + p;
    }
    ghost var w := fixed + Counts(np, ng, nb, ext) + p + g + b;
    assert Holds(buf, w);
    FlattenLength(NodeParts(Path(card, own)), 8);
    assert Encode(card, sv, own, ext, au) == w + NodeCount(Path(card, own)) + Flatten(NodeParts(Path(card, own)));
    ofs := PutNodes(buf, ofs, Path(card, if addOwn then Some(nodeId) else None), w);
  }

  lemma {:induction false} SamePlace(buf: array<byte>, buflen: nat, at: nat, n: nat, caid: u16, i: nat)
    requires at + n <= buflen <= buf.Length && i < 256
    ensures n == 7 ==> ProviderAt(buf[at..at + n], 0, caid, i) == ProviderAt(buf[..buflen], at, caid, i)
    ensures n == 2 ==> SidAt(buf[at..at + n], 0) == SidAt(buf[..buflen], at)
  {
    var a, b := buf[at..at + n], buf[..buflen];
    assert forall k :: 0 <= k < n ==> a[k] == b[at + k];
    BytesToIntValues(a, 0);
    BytesToIntValues(b, at);
    assert n == 7 ==> a[3..7] == b[at + 3..at + 7];
  }

  /** The provider loop of read_card. */
  method ParseProviders(buf: array<byte>, buflen: nat, start: nat, nprov: nat, caid: u16) returns (providers: seq<Provider>)
    requires start + nprov * 7 <= buflen <= buf.Length && nprov < 256
    ensures providers == ProvidersAt(buf[..buflen], start, nprov, caid)
  {
    hide ProviderAt;
    providers := [];
    var offset := start;
    var i := 0;
    while i < nprov
      invariant 0 <= i <= nprov && offset == start + 7 * i
      invariant providers == ProvidersAt(buf[..buflen], start, i, caid)
    {
      SamePlace(buf, buflen, offset, 7, caid, i);
      providers := providers + [ProviderAt(buf[offset..offset + 7], 0, caid, i)];
      offset := offset + 7;
      i := i + 1;
    }
  }

  method ParseSids(buf: array<byte>, buflen: nat, start: nat, n: nat) returns (sids: seq<u16>)
    requires start + n * 2 <= buflen <= buf.Length
    ensures sids == SidsAt(buf[..buflen], start, n)
  {
    hide SidAt;
    sids := [];
    var offset := start;
    var i := 0;
    while i < n
      invariant 0 <= i <= n && offset == start + 2 * i
      invariant sids == SidsAt(buf[..buflen], start, i)
    {
      SamePlace(buf, buflen, offset, 2, 0, 0);
      sids := sids + [SidAt(buf[offset..offset + 2], 0)];
      offset := offset + 2;
      i := i + 1;
    }
  }

  method ParseNodes(buf: array<byte>, buflen: nat, start: nat, n: nat) returns (nodes: seq<NodeId>)
    requires start + n * 8 <= buflen <= buf.Length
    ensures nodes == NodesAt(buf[..buflen], start, n)
  {
    nodes := [];
    var offset := start;
    var i := 0;
    while i < n
      invariant 0 <= i <= n && offset == start + 8 * i
      invariant nodes == NodesAt(buf[..buflen], start, i)
    {
      assert buf[offset..offset + 8] == buf[..buflen][offset..offset + 8];
      nodes := nodes + [buf[offset..offset + 8]];
      offset := offset + 8;
      i := i + 1;
    }
  }

  lemma {:induction false} SameHead(a: seq<byte>, b: seq<byte>)
    requires |a| >= 21 && |b| >= 21 && forall i :: 0 <= i < 21 ==> a[i] == b[i]
    ensures U32At(a, 0) == U32At(b, 0) && U32At(a, 4) == U32At(b, 4) && SidAt(a, 8) == SidAt(b, 8)
    ensures a[12..20] == b[12..20]
  {
    BytesToIntValues(a, 0);
    BytesToIntValues(b, 0);
    BytesToIntValues(a, 4);
    BytesToIntValues(b, 4);
    BytesToIntValues(a, 8);
    BytesToIntValues(b, 8);
  }

  /** Parses an announcement of which only the first buflen bytes are there. */
  method ParseCard(buf: array<byte>, buflen: nat, ext: bool) returns (card: Option<Card>)
    requires buflen <= buf.Length
    ensures card == ReadCard(buf[..buflen], ext)
  {
    hide ProvidersAt, SidsAt, NodesAt, SidAt, U32At, RemoteCardOf;
    if buflen < 21 {
      return None;
    }
    var nprov: int, nassign: int, nreject: int := buf[20], 0, 0;
    var offset: int := 21;
    if ext {
      if buflen < 23 {
        return None;
      }
      nassign, nreject := buf[21], buf[22];
      offset := offset + 2;
    }
    if buflen < offset + nprov * 7 {
      return None;
    }
    var head := buf[..21];
    SameHead(head, buf[..buflen]);
    assert buf[12..20] == buf[..buflen][12..20];
    var caid := SidAt(head, 8);
    var providers := ParseProviders(buf, buflen, offset, nprov, caid);
    offset := offset + nprov * 7;
    if ext && buflen < offset + nassign * 2 + nreject * 2 {
      return None;
    }
    var goods := ParseSids(buf, buflen, offset, nassign);
    offset := offset + nassign * 2;
    var bads := ParseSids(buf, buflen, offset, nreject);
    offset := offset + nreject * 2;
    var nodes: seq<NodeId> := [];
    if buflen >= offset + 1 {
      var remoteCount: int := buf[offset];
      offset := offset + 1;
      if buflen < offset + remoteCount * 8 {
        return None;
      }
      nodes := ParseNodes(buf, buflen, offset, remoteCount);
    }
    card := Some(RemoteCardOf(U32At(head, 0), U32At(head, 4), caid, buf[10], buf[11], buf[12..20],
                              providers, goods, bads, nodes, ext));
  }
}
