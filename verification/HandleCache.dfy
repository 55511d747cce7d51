/**
 The cache of open file handles for direct mode: 16 slots, least recently used idle slot
 evicted. A handle is numbered by the order in which files were opened, so that every handle
 ever opened can be accounted for.
 */
module HandleCache {
  import opened Bytes

  const FILE_CACHE_SIZE := 16

  /** fp: the open handle; the other fields keep their values while there is none. */
  datatype Slot = Slot(fp: Option<nat>, channelIdx: u32, lastAccess: int, inUse: bool)

  /** owner: the channel each handle was opened for. closed: handles in the order of fclose. */
  datatype Cache = Cache(slots: seq<Slot>, owner: seq<u32>, closed: seq<nat>)

  // ---------------------------------------------------------------- what the operations do

  predicate Holds(s: Slot, idx: u32) {
    s.fp.Some? && s.channelIdx == idx
  }

  function Find(slots: seq<Slot>, idx: u32): (i: nat)
    ensures i <= |slots|
    ensures i < |slots| ==> Holds(slots[i], idx)
    ensures forall k :: 0 <= k < i ==> !Holds(slots[k], idx)
  {
    First(slots, (s: Slot) => Holds(s, idx))
  }

  function FirstEmpty(slots: seq<Slot>): (i: nat)
    ensures i <= |slots|
    ensures i < |slots| ==> slots[i].fp.None?
    ensures forall k :: 0 <= k < i ==> slots[k].fp.Some?
  {
    First(slots, (s: Slot) => s.fp.None?)
  }

  /** The idle slot with the least time, the first of several, if that lies before now. */
  function Oldest(slots: seq<Slot>, now: int): (k: Option<nat>)
    ensures k.Some? ==>
              && k.value < |slots| && !slots[k.value].inUse && slots[k.value].lastAccess < now
              && forall i :: 0 <= i < |slots| && !slots[i].inUse ==> slots[k.value].lastAccess <= slots[i].lastAccess
    ensures k.None? ==> forall i :: 0 <= i < |slots| ==> slots[i].inUse || now <= slots[i].lastAccess
  {
    if slots == [] then None
    else
      var n := |slots| - 1;
      var before := Oldest(slots[..n], now);
      var limit := if before.Some? then slots[before.value].lastAccess else now;
      if !slots[n].inUse && slots[n].lastAccess < limit then Some(n) else before
  }

  /** cache_get_lru. */
  function Victim(slots: seq<Slot>, now: int): Option<nat> {
    var e := FirstEmpty(slots);
    if e < |slots| then Some(e) else Oldest(slots, now)
  }

  datatype Opened = Opened(cache: Cache, fp: Option<nat>)

  /** cache_open. readable: whether the file can be opened. now is read when looking for a slot,
      later when the new handle is entered. */
  function Open(c: Cache, idx: u32, readable: bool, now: int, later: int): Opened {
    var i := Find(c.slots, idx);
    if i < |c.slots| then
      Opened(c.(slots := c.slots[i := c.slots[i].(lastAccess := now, inUse := true)]), c.slots[i].fp)
    else if !readable then Opened(c, None)
    else
      var fp := |c.owner|;
      var owner := c.owner + [idx];
      var v := Victim(c.slots, now);
      if v.None? then Opened(Cache(c.slots, owner, c.closed + [fp]), None)
      else if v.value < |c.slots| then
        var dropped := if c.slots[v.value].fp.Some? then [c.slots[v.value].fp.value] else [];
        Opened(Cache(c.slots[v.value := Slot(Some(fp), idx, later, true)], owner, c.closed + dropped), Some(fp))
      else Opened(c, None)
  }

  function Release(c: Cache, idx: u32): Cache {
    var i := Find(c.slots, idx);
    if i < |c.slots| then c.(slots := c.slots[i := c.slots[i].(inUse := false)]) else c
  }

  /** The handles of the slots, in order. */
  function HeldIn(slots: seq<Slot>): seq<nat> {
    if slots == [] then []
    else HeldIn(slots[..|slots| - 1]) + (if slots[|slots| - 1].fp.Some? then [slots[|slots| - 1].fp.value] else [])
  }

  function Emptied(slots: seq<Slot>): (r: seq<Slot>)
    ensures |r| == |slots|
  {
    seq(|slots|, i requires 0 <= i < |slots| => slots[i].(fp := None))
  }

  function CloseAll(c: Cache): Cache {
    Cache(Emptied(c.slots), c.owner, c.closed + HeldIn(c.slots))
  }

  // ---------------------------------------------------------------- runs

  datatype Event =
    | Opening(idx: u32, readable: bool, now: int, later: int)
    | Releasing(idx: u32)
    | ClosingAll

  function Happens(c: Cache, e: Event): Cache {
    match e
    case Opening(idx, ok, now, later) => Open(c, idx, ok, now, later).cache
    case Releasing(idx) => Release(c, idx)
    case ClosingAll => CloseAll(c)
  }

  function Start(): Cache {
    Cache(seq(FILE_CACHE_SIZE, _ => Slot(None, 0, 0, false)), [], [])
  }

  function After(events: seq<Event>): Cache
    decreases |events|
  {
    if events == [] then Start() else Happens(After(events[..|events| - 1]), events[|events| - 1])
  }

  ghost predicate HeldAt(slots: seq<Slot>, h: nat, i: nat) {
    i < |slots| && slots[i].fp == Some(h)
  }

  /** Each handle is in one slot at most, opened for the slot's channel. */
  ghost predicate SlotsOk(c: Cache) {
    && |c.slots| == FILE_CACHE_SIZE
    && (forall i :: 0 <= i < |c.slots| && c.slots[i].fp.Some? ==>
          c.slots[i].fp.value < |c.owner| && c.owner[c.slots[i].fp.value] == c.slots[i].channelIdx)
    && (forall i, j :: 0 <= i < j < |c.slots| && c.slots[i].fp.Some? && c.slots[j].fp.Some? ==>
          c.slots[i].channelIdx != c.slots[j].channelIdx)
  }

  /** Each handle ever opened is either in a slot or closed, and closed once. */
  ghost predicate Accounted(c: Cache) {
    && NoDuplicates(c.closed)
    && (forall h :: h in c.closed ==> h < |c.owner|)
    && (forall i, h :: HeldAt(c.slots, h, i) ==> h !in c.closed)
    && (forall h :: 0 <= h < |c.owner| ==> h in c.closed || exists i :: HeldAt(c.slots, h, i))
  }

  lemma {:induction false} OpenSlots(c: Cache, idx: u32, ok: bool, now: int, later: int)
    requires SlotsOk(c)
    ensures SlotsOk(Open(c, idx, ok, now, later).cache)
  {
  }

  lemma {:induction false} TouchAccounted(c: Cache, i: nat, s: Slot)
    requires Accounted(c) && i < |c.slots| && s.fp == c.slots[i].fp
    ensures Accounted(c.(slots := c.slots[i := s]))
  {
    var after := c.(slots := c.slots[i := s]);
    forall h, k ensures HeldAt(after.slots, h, k) == HeldAt(c.slots, h, k) {}
    forall h | 0 <= h < |c.owner| && h !in c.closed ensures exists k :: HeldAt(after.slots, h, k) {
      var k :| HeldAt(c.slots, h, k);
      assert HeldAt(after.slots, h, k);
    }
  }

  /** A new handle goes into slot i, and the one it replaces is closed. */
  lemma {:induction false} ReplaceAccounted(c: Cache, i: nat, idx: u32, later: int)
    requires SlotsOk(c) && Accounted(c) && i < |c.slots|
    ensures var dropped := if c.slots[i].fp.Some? then [c.slots[i].fp.value] else [];
            Accounted(Cache(c.slots[i := Slot(Some(|c.owner|), idx, later, true)], c.owner + [idx], c.closed + dropped))
  {
    var fp := |c.owner|;
    var dropped := if c.slots[i].fp.Some? then [c.slots[i].fp.value] else [];
    var after := Cache(c.slots[i := Slot(Some(fp), idx, later, true)], c.owner + [idx], c.closed + dropped);
    assert c.slots[i].fp.Some? ==> HeldAt(c.slots, c.slots[i].fp.value, i);
    forall h, k | HeldAt(after.slots, h, k) ensures h !in after.closed {
      if k != i {
        assert HeldAt(c.slots, h, k);
      }
    }
    forall h | 0 <= h < |after.owner| && h !in after.closed ensures exists k :: HeldAt(after.slots, h, k) {
      if h == fp {
        assert HeldAt(after.slots, h, i);
      } else {
        var k :| HeldAt(c.slots, h, k);
        assert HeldAt(after.slots, h, k);
      }
    }
  }

  /** A new handle that found no slot is closed at once. */
  lemma {:induction false} GiveUpAccounted(c: Cache, idx: u32)
    requires SlotsOk(c) && Accounted(c)
    ensures Accounted(Cache(c.slots, c.owner + [idx], c.closed + [|c.owner|]))
  {
    var after := Cache(c.slots, c.owner + [idx], c.closed + [|c.owner|]);
    forall i | 0 <= i < |c.closed| ensures c.closed[i] != |c.owner| {
      assert c.closed[i] in c.closed;
    }
    forall h, k | HeldAt(after.slots, h, k) ensures h !in after.closed {
      assert HeldAt(c.slots, h, k);
    }
    forall h | 0 <= h < |after.owner| && h !in after.closed ensures exists k :: HeldAt(after.slots, h, k) {
      assert after.closed[|c.closed|] == |c.owner|;
      assert forall x :: x in c.closed ==> x in after.closed;
      assert h < |c.owner| && h !in c.closed;
      var k :| HeldAt(c.slots, h, k);
      assert HeldAt(after.slots, h, k);
    }
  }

  lemma {:induction false} HeldInSlots(slots: seq<Slot>, h: nat)
    ensures h in HeldIn(slots) <==> exists i :: HeldAt(slots, h, i)
    decreases |slots|
  {
    if slots == [] {
    } else {
      var n := |slots| - 1;
      HeldInSlots(slots[..n], h);
      forall i: nat | HeldAt(slots, h, i) ensures h in HeldIn(slots) {
        assert i < n ==> HeldAt(slots[..n], h, i);
      }
      if h in HeldIn(slots[..n]) {
        var i :| HeldAt(slots[..n], h, i);
        assert HeldAt(slots, h, i);
      } else if h in HeldIn(slots) {
        assert HeldAt(slots, h, n);
      }
    }
  }

  ghost predicate DistinctHandles(slots: seq<Slot>) {
    forall i, j :: 0 <= i < j < |slots| && slots[i].fp.Some? ==> slots[i].fp != slots[j].fp
  }

  lemma {:induction false} HeldInDistinct(slots: seq<Slot>)
    requires DistinctHandles(slots)
    ensures NoDuplicates(HeldIn(slots))
    decreases |slots|
  {
    if slots == [] {
    } else {
      var n := |slots| - 1;
      HeldInDistinct(slots[..n]);
      if slots[n].fp.Some? {
        HeldInSlots(slots[..n], slots[n].fp.value);
      }
    }
  }

  lemma {:induction false} CloseAllAccounted(c: Cache)
    requires SlotsOk(c) && Accounted(c)
    ensures Accounted(CloseAll(c))
  {
    hide HeldIn;
    HeldInDistinct(c.slots);
    var held := HeldIn(c.slots);
    forall h: nat ensures h in held <==> exists i :: HeldAt(c.slots, h, i) {
      HeldInSlots(c.slots, h);
    }
    forall i, j | 0 <= i < |c.closed| && 0 <= j < |held| ensures c.closed[i] != held[j] {
      assert held[j] in held && c.closed[i] in c.closed;
    }
    forall h | h in held ensures h < |c.owner| {
      var i :| HeldAt(c.slots, h, i);
    }
    assert forall h, k :: !HeldAt(Emptied(c.slots), h, k);
  }

  lemma {:induction false} OpenOk(c: Cache, idx: u32, ok: bool, now: int, later: int)
    requires SlotsOk(c) && Accounted(c)
    ensures SlotsOk(Open(c, idx, ok, now, later).cache) && Accounted(Open(c, idx, ok, now, later).cache)
  {
    hide Accounted, SlotsOk, Victim;
    OpenSlots(c, idx, ok, now, later);
    var i := Find(c.slots, idx);
    if i < |c.slots| {
      TouchAccounted(c, i, c.slots[i].(lastAccess := now, inUse := true));
    } else if ok {
      var v := Victim(c.slots, now);
      if v.None? {
        GiveUpAccounted(c, idx);
      } else if v.value < |c.slots| {
        ReplaceAccounted(c, v.value, idx, later);
      }
    }
  }

  lemma {:induction false} HappensOk(c: Cache, e: Event)
    requires SlotsOk(c) && Accounted(c)
    ensures SlotsOk(Happens(c, e)) && Accounted(Happens(c, e))
  {
    hide Accounted, HeldIn;
    match e
    case Opening(idx, ok, now, later) => OpenOk(c, idx, ok, now, later);
    case Releasing(idx) =>
      var i := Find(c.slots, idx);
      if i < |c.slots| {
        TouchAccounted(c, i, c.slots[i].(inUse := false));
      }
    case ClosingAll => CloseAllAccounted(c);
  }

  lemma {:induction false} StartOk()
    ensures SlotsOk(Start()) && Accounted(Start())
  {
  }

  /** Over every run: 16 slots, different slots hold different channels and handles, a slot's
      handle was opened for its channel, and every handle opened so far is either in a slot
      or closed, closed once. */
  lemma {:induction false} HandlesAccounted(events: seq<Event>)
    ensures SlotsOk(After(events)) && Accounted(After(events))
    decreases |events|
  {
    hide Happens, SlotsOk, Accounted;
    if events != [] {
      HandlesAccounted(events[..|events| - 1]);
      HappensOk(After(events[..|events| - 1]), events[|events| - 1]);
    } else {
      StartOk();
    }
  }

  // ---------------------------------------------------------------- use

  /** The last open or release of the channel is an open. */
  ghost predicate LastOpens(events: seq<Event>, idx: u32)
    decreases |events|
  {
    events != [] &&
    var e := events[|events| - 1];
    if e.Opening? && e.idx == idx then true
    else if e.Releasing? && e.idx == idx then false
    else LastOpens(events[..|events| - 1], idx)
  }

  /** The slot was last touched at one of the two times of the channel's last open. */
  ghost predicate LastOpenedAt(events: seq<Event>, idx: u32, t: int)
    decreases |events|
  {
    events != [] &&
    var e := events[|events| - 1];
    if e.Opening? && e.idx == idx then t == e.now || t == e.later else LastOpenedAt(events[..|events| - 1], idx, t)
  }

  /** What an event does to a slot that holds a handle afterwards. */
  lemma {:induction false} SlotsStay(c: Cache, e: Event, i: nat)
    requires SlotsOk(c) && i < |Happens(c, e).slots| && Happens(c, e).slots[i].fp.Some?
    ensures var s := Happens(c, e).slots[i];
            if e.Opening? && s.channelIdx == e.idx then s.inUse && (s.lastAccess == e.now || s.lastAccess == e.later)
            else i < |c.slots| && c.slots[i].fp.Some? && c.slots[i].channelIdx == s.channelIdx &&
                 c.slots[i].lastAccess == s.lastAccess &&
                 (if e.Releasing? && s.channelIdx == e.idx then !s.inUse else s.inUse == c.slots[i].inUse)
  {
    hide HeldIn, Victim;
  }

  /** A channel's slot is in use exactly from its last open to its next release, and carries the
      time of that open. */
  lemma {:induction false} InUseUntilReleased(events: seq<Event>, i: nat)
    requires i < |After(events).slots| && After(events).slots[i].fp.Some?
    ensures var s := After(events).slots[i];
            (s.inUse <==> LastOpens(events, s.channelIdx)) && LastOpenedAt(events, s.channelIdx, s.lastAccess)
    decreases |events|
  {
    hide Accounted, HeldIn, Victim;
    if events == [] {
    } else {
      var n := |events| - 1;
      var c := After(events[..n]);
      HandlesAccounted(events[..n]);
      SlotsStay(c, events[n], i);
      if c.slots[i].fp.Some? {
        InUseUntilReleased(events[..n], i);
      }
    }
  }

  /** With every slot taken and in use, releasing one is what makes room: an open of another
      channel gets no handle before, and the released slot after. */
  lemma {:induction false} ReleasingMakesRoom(c: Cache, i: nat, other: u32, now: int, later: int)
    requires SlotsOk(c) && i < |c.slots| && c.slots[i].lastAccess < now
    requires forall k :: 0 <= k < |c.slots| ==> c.slots[k].fp.Some? && c.slots[k].inUse && c.slots[k].channelIdx != other
    ensures Open(c, other, true, now, later).fp == None
    ensures var r := Open(Release(c, c.slots[i].channelIdx), other, true, now, later);
            && r.fp == Some(|c.owner|)
            && r.cache.slots == c.slots[i := Slot(r.fp, other, later, true)]
            && r.cache.closed == c.closed + [c.slots[i].fp.value]
  {
    var idx := c.slots[i].channelIdx;
    assert Find(c.slots, idx) == i;
    var c1 := Release(c, idx);
    assert c1.slots == c.slots[i := c.slots[i].(inUse := false)];
    assert Find(c1.slots, other) == |c1.slots| && Find(c.slots, other) == |c.slots|;
    assert FirstEmpty(c1.slots) == |c1.slots| && FirstEmpty(c.slots) == |c.slots|;
    assert !c1.slots[i].inUse && c1.slots[i].lastAccess < now;
    assert forall k :: 0 <= k < |c1.slots| && k != i ==> c1.slots[k] == c.slots[k];
    assert Oldest(c1.slots, now) == Some(i);
    assert Oldest(c.slots, now) == None;
  }

  // ---------------------------------------------------------------- eviction

  /** An open touches one slot at most. A slot in use keeps its handle. An idle slot loses it
      only if no slot is empty and none that is idle has been unused for longer. */
  lemma {:induction false} EvictionRule(c: Cache, idx: u32, ok: bool, now: int, later: int, i: nat)
    requires SlotsOk(c) && i < |c.slots| && c.slots[i].fp.Some?
    requires Open(c, idx, ok, now, later).cache.slots[i].fp != c.slots[i].fp
    ensures !c.slots[i].inUse && c.slots[i].lastAccess < now
    ensures forall k :: 0 <= k < |c.slots| ==> c.slots[k].fp.Some?
    ensures forall k :: 0 <= k < |c.slots| && !c.slots[k].inUse ==> c.slots[i].lastAccess <= c.slots[k].lastAccess
    ensures forall k :: 0 <= k < |c.slots| && k != i ==> Open(c, idx, ok, now, later).cache.slots[k] == c.slots[k]
    ensures Open(c, idx, ok, now, later).cache.closed == c.closed + [c.slots[i].fp.value]
  {
  }

  /** Exactly when an open gets no handle: the channel is not held, and its file cannot be
      opened or every slot is taken and either in use or not older than now. A handle it does
      get belongs to the channel and sits in a slot in use. */
  lemma {:induction false} OpenResult(c: Cache, idx: u32, ok: bool, now: int, later: int)
    requires SlotsOk(c)
    ensures Open(c, idx, ok, now, later).fp.None? <==>
            && (forall i :: 0 <= i < |c.slots| ==> !Holds(c.slots[i], idx))
            && (!ok || forall i :: 0 <= i < |c.slots| ==>
                                     c.slots[i].fp.Some? && (c.slots[i].inUse || now <= c.slots[i].lastAccess))
    ensures var r := Open(c, idx, ok, now, later);
            r.fp.Some? ==>
              && r.fp.value < |r.cache.owner| && r.cache.owner[r.fp.value] == idx
              && exists i :: 0 <= i < |r.cache.slots| && r.cache.slots[i].fp == r.fp && r.cache.slots[i].inUse
  {
    var r := Open(c, idx, ok, now, later);
    var i := Find(c.slots, idx);
    if i < |c.slots| {
      assert r.cache.slots[i].fp == r.fp && r.cache.slots[i].inUse;
    } else if ok {
      var v := Victim(c.slots, now);
      if v.Some? {
        assert r.cache.slots[v.value].fp == r.fp && r.cache.slots[v.value].inUse;
      }
    }
  }

  // ---------------------------------------------------------------- the program

  lemma {:induction false} VictimInside(slots: seq<Slot>, now: int)
    ensures var v := Victim(slots, now); v.Some? ==> v.value < |slots|
  {
  }

  class FileCache {
    var slots: array<Slot>
    ghost var owner: seq<u32>
    ghost var closed: seq<nat>
    var total: nat

    ghost predicate Valid()
      reads this, slots
    {
      slots.Length == FILE_CACHE_SIZE && total == |owner|
    }

    ghost function View(): Cache
      reads this, slots
    {
      Cache(slots[..], owner, closed)
    }

    constructor ()
      ensures Valid() && View() == Start() && fresh(slots)
    {
      slots := new Slot[FILE_CACHE_SIZE](_ => Slot(None, 0, 0, false));
      owner, closed, total := [], [], 0;
    }

    /** fopen: handles are numbered. */
    method Fopen(idx: u32) returns (fp: nat)
      requires Valid()
      modifies this`owner, this`total
      ensures Valid() && fp == |old(owner)| && owner == old(owner) + [idx]
    {
      fp := total;
      total := total + 1;
      owner := owner + [idx];
    }

    method Fclose(fp: nat)
      modifies this`closed
      ensures closed == old(closed) + [fp]
    {
      closed := closed + [fp];
    }

    method CacheFind(idx: u32, now: int) returns (i: nat)
      requires Valid()
      modifies slots
      ensures i == Find(old(slots[..]), idx)
      ensures slots[..] == if i < slots.Length then old(slots[..])[i := old(slots[..])[i].(lastAccess := now)] else old(slots[..])
    {
      ghost var before := slots[..];
      i := 0;
      while i < FILE_CACHE_SIZE
        invariant i <= FILE_CACHE_SIZE && slots[..] == before
        invariant Find(before, idx) == i + Find(before[i..], idx)
      {
        assert before[i..][1..] == before[i + 1..];
        if slots[i].fp.Some? && slots[i].channelIdx == idx {
          slots[i] := slots[i].(lastAccess := now);
          return;
        }
        i := i + 1;
      }
    }

    method CacheGetLru(now: int) returns (lru: Option<nat>)
      requires Valid()
      ensures lru == Victim(slots[..], now)
    {
      lru := None;
      var oldest := now;
      var i := 0;
      assert slots[..][0..] == slots[..];
      while i < FILE_CACHE_SIZE
        invariant 0 <= i <= FILE_CACHE_SIZE
        invariant forall k :: 0 <= k < i ==> slots[k].fp.Some?
        invariant lru == Oldest(slots[..i], now)
        invariant oldest == if lru.Some? then slots[lru.value].lastAccess else now
      {
        if slots[i].fp.None? {
          return Some(i);
        }
        assert slots[..i + 1][..i] == slots[..i];
        if !slots[i].inUse && slots[i].lastAccess < oldest {
          oldest := slots[i].lastAccess;
          lru := Some(i);
        }
        i := i + 1;
      }
      assert slots[..i] == slots[..];
    }

    method CacheOpen(idx: u32, readable: bool, now: int, later: int) returns (fp: Option<nat>)
      requires Valid()
      modifies this, slots
      ensures Valid() && slots == old(slots)
      ensures Opened(View(), fp) == Open(old(View()), idx, readable, now, later)
    {
      hide Find, Victim;
      var i := CacheFind(idx, now);
      if i < slots.Length {
        slots[i] := slots[i].(inUse := true);
        return slots[i].fp;
      }
      if !readable {
        return None;
      }
      var handle := Fopen(idx);
      var lru := CacheGetLru(now);
      VictimInside(slots[..], now);
      if lru.None? {
        Fclose(handle);
        return None;
      }
      var k := lru.value;
      if slots[k].fp.Some? {
        Fclose(slots[k].fp.value);
      }
      slots[k] := Slot(Some(handle), idx, later, true);
      return Some(handle);
    }

    method CacheRelease(idx: u32)
      requires Valid()
      modifies slots
      ensures Valid() && View() == Release(old(View()), idx)
    {
      ghost var before := slots[..];
      var i := 0;
      while i < FILE_CACHE_SIZE
        invariant 0 <= i <= FILE_CACHE_SIZE && slots[..] == before
        invariant Find(before, idx) == i + Find(before[i..], idx)
      {
        assert before[i..][1..] == before[i + 1..];
        if slots[i].fp.Some? && slots[i].channelIdx == idx {
          slots[i] := slots[i].(inUse := false);
          return;
        }
        i := i + 1;
      }
    }

    method CacheCloseAll()
      requires Valid()
      modifies this`closed, slots
      ensures Valid() && View() == CloseAll(old(View()))
    {
      ghost var before := slots[..];
      var i := 0;
      while i < FILE_CACHE_SIZE
        invariant 0 <= i <= FILE_CACHE_SIZE
        invariant closed == old(closed) + HeldIn(before[..i])
        invariant forall k :: 0 <= k < FILE_CACHE_SIZE ==> slots[k] == if k < i then before[k].(fp := None) else before[k]
      {
        assert before[..i + 1][..i] == before[..i];
        if slots[i].fp.Some? {
          Fclose(slots[i].fp.value);
          slots[i] := slots[i].(fp := None);
        }
        i := i + 1;
      }
      assert before[..i] == before;
    }
  }
}
