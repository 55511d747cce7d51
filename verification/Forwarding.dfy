/**
 Which cards a client is offered, and with what reshare level: card_valid_for_client and
 the reshare arithmetic of send_card_to_client, with their eight-bit conversions.
 */
module Forwarding {
  import opened Bytes
  import opened Cards
  import opened CardWire

  /** cc_reshare and cc_ignore_reshare. */
  datatype ShareConfig = ShareConfig(reshare: int8, ignoreReshare: int8)

  /** A connected client: its node, group, and account. The filter stands for the ident, CAID
      and service tables; -1 selects the global setting. */
  datatype Peer = Peer(nodeId: NodeId, grp: set<nat>, filter: (u16, seq<Provider>, Option<nat>) -> bool,
                       maxhops: int, reshare: int8, ignoreReshare: int8)

  predicate IgnoresReshare(cfg: ShareConfig, p: Peer) {
    (if p.ignoreReshare == -1 then cfg.ignoreReshare else p.ignoreReshare) != 0
  }

  predicate ValidForClient(cfg: ShareConfig, p: Peer, c: Card) {
    && (c.grp == {} || c.grp * p.grp != {})
    && p.filter(c.caid, c.providers, c.sidtab)
    && (c.cardType.RemoteCard? && !IgnoresReshare(cfg, p) ==> c.reshare != 0)
    && c.hop as int <= p.maxhops
    && p.nodeId !in c.remoteNodes
  }

  /** The least of the client's and the reader's level. */
  function ReshareCap(cfg: ShareConfig, p: Peer, c: Card): int8 {
    var usr := if p.reshare == -1 then cfg.reshare else p.reshare;
    var r: int8 := if c.originReader.Some? then ToInt8(c.rdrReshare) else usr;
    var rdr := if r == -1 then cfg.reshare else r;
    if rdr < usr then rdr else usr
  }

  function NewReshare(cfg: ShareConfig, p: Peer, c: Card): int8 {
    if c.cardType.ByServiceUser? then (if p.reshare == -1 then cfg.reshare else p.reshare)
    else if IgnoresReshare(cfg, p) then ReshareCap(cfg, p, c)
    else
      var n: int8 := if c.cardType.RemoteCard? then ToInt8(ToInt8(c.reshare) - 1) else ToInt8(c.reshare);
      if n > ReshareCap(cfg, p, c) then ReshareCap(cfg, p, c) else n
  }

  /** The card is sent to this client. */
  predicate Accepts(cfg: ShareConfig, p: Peer, c: Card) {
    ValidForClient(cfg, p, c) && NewReshare(cfg, p, c) >= 0
  }

  /** Unless the client ignores reshare levels, sending a received card on lowers its level,
      also where the conversion to a signed byte wraps. */
  lemma {:induction false} ForwardingLowersReshare(cfg: ShareConfig, p: Peer, c: Card)
    requires Accepts(cfg, p, c) && c.cardType.RemoteCard? && !IgnoresReshare(cfg, p)
    ensures 0 <= NewReshare(cfg, p, c) < c.reshare
  {
  }

  /** The level the client's account allows; -1 selects the global one. */
  function ClientLevel(cfg: ShareConfig, p: Peer): int8 {
    if p.reshare == -1 then cfg.reshare else p.reshare
  }

  /** The level of the reader a card came in through, which is kept in a byte. */
  function ReaderLevel(cfg: ShareConfig, c: Card): int8 {
    if c.rdrReshare == 0xFF then cfg.reshare else if c.rdrReshare < 128 then c.rdrReshare else c.rdrReshare as int - 256
  }

  predicate MindsReshare(cfg: ShareConfig, p: Peer) {
    p.ignoreReshare == 0 || (p.ignoreReshare == -1 && cfg.ignoreReshare == 0)
  }

  /** The level a card is announced with is the least of what bounds it: the client's level
      always; but for cards by service user also the level of its reader, if it has one, and,
      where levels are minded, the card's own, less one for a received card. */
  lemma {:induction false} LevelIsLeast(cfg: ShareConfig, p: Peer, c: Card)
    requires Accepts(cfg, p, c)
    ensures var level := NewReshare(cfg, p, c) as int;
            var own := c.reshare as int - (if c.cardType.RemoteCard? then 1 else 0);
            if c.cardType.ByServiceUser? then level == ClientLevel(cfg, p)
            else
              && level <= ClientLevel(cfg, p)
              && (c.originReader.Some? ==> level <= ReaderLevel(cfg, c))
              && (MindsReshare(cfg, p) ==> level <= own)
              && (level == ClientLevel(cfg, p) || (c.originReader.Some? && level == ReaderLevel(cfg, c)) ||
                  (MindsReshare(cfg, p) && level == own))
  {
  }

  lemma {:induction false} GroupsMeet(a: set<nat>, b: set<nat>)
    ensures a * b != {} <==> exists g :: g in a && g in b
  {
    if g :| g in a && g in b {
      assert g in a * b;
    }
    if a * b != {} {
      var g :| g in a * b;
      assert g in a && g in b;
    }
  }

  lemma {:induction false} MindsExactly(cfg: ShareConfig, p: Peer)
    ensures MindsReshare(cfg, p) <==> !IgnoresReshare(cfg, p)
  {
  }

  /** Where a received card of level 0 is not passed on, a level may be announced exactly if
      each one that bounds it may. */
  lemma {:induction false} LevelAllowed(cfg: ShareConfig, p: Peer, c: Card)
    requires c.cardType.RemoteCard? && MindsReshare(cfg, p) ==> c.reshare != 0
    ensures var own := c.reshare as int - (if c.cardType.RemoteCard? then 1 else 0);
            NewReshare(cfg, p, c) >= 0 <==>
            && ClientLevel(cfg, p) >= 0
            && (!c.cardType.ByServiceUser? ==>
                  && (c.originReader.Some? ==> ReaderLevel(cfg, c) >= 0)
                  && (MindsReshare(cfg, p) ==> 0 <= own <= 127))
  {
  }

  /** A card goes to a client exactly if it is in no group or in one of the client's, passes the
      client's filters, is within its hops, has not been at its node, and every level that bounds
      it is 0 to 127. */
  lemma {:induction false} AcceptedExactly(cfg: ShareConfig, p: Peer, c: Card)
    ensures var own := c.reshare as int - (if c.cardType.RemoteCard? then 1 else 0);
            Accepts(cfg, p, c) <==>
            && (c.grp == {} || exists g :: g in c.grp && g in p.grp)
            && p.filter(c.caid, c.providers, c.sidtab)
            && c.hop as int <= p.maxhops && p.nodeId !in c.remoteNodes
            && ClientLevel(cfg, p) >= 0
            && (!c.cardType.ByServiceUser? ==>
                  && (c.originReader.Some? ==> ReaderLevel(cfg, c) >= 0)
                  && (MindsReshare(cfg, p) ==> 0 <= own <= 127))
  {
    hide NewReshare, MindsReshare;
    GroupsMeet(c.grp, p.grp);
    assert MindsReshare(cfg, p) <==> !IgnoresReshare(cfg, p) by { MindsExactly(cfg, p); }
    if !(c.cardType.RemoteCard? && MindsReshare(cfg, p)) || c.reshare != 0 {
      LevelAllowed(cfg, p, c);
    }
  }

  /** An announced level fits a signed byte. */
  lemma {:induction false} AnnouncedReshareIsSmall(cfg: ShareConfig, p: Peer, c: Card)
    requires Accepts(cfg, p, c)
    ensures 0 <= NewReshare(cfg, p, c) <= 127
  {
  }

  lemma {:induction false} SameSids(card: Card, sv: Services, level: byte, ext: bool)
    ensures AnnouncedGoods(card.(reshare := level), sv, ext) == AnnouncedGoods(card, sv, ext)
    ensures AnnouncedBads(card.(reshare := level), sv, ext) == AnnouncedBads(card, sv, ext)
  {
  }

  /** Overwriting byte 11 of an announcement announces another level. */
  lemma {:induction false} PatchedReshare(card: Card, sv: Services, own: Option<NodeId>, ext: bool, au: bool, level: byte)
    ensures Encode(card.(reshare := level), sv, own, ext, au) == Encode(card, sv, own, ext, au)[11 := level]
  {
    hide Flatten, ProviderParts, SidParts, NodeParts, AnnouncedGoods, AnnouncedBads, Counts, NodeCount;
    assert Fixed(card.(reshare := level), au) == Fixed(card, au)[11 := level];
    assert AnnouncedGoods(card.(reshare := level), sv, ext) == AnnouncedGoods(card, sv, ext) by { SameSids(card, sv, level, ext); }
    assert AnnouncedBads(card.(reshare := level), sv, ext) == AnnouncedBads(card, sv, ext) by { SameSids(card, sv, level, ext); }
  }
}
