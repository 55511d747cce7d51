/**
 The emulator's key database: one container for each kind of key, an array that grows, and
 for Irdeto a chain of up to 256 keys behind each entry. A chain is a sequence here.
 */
module KeyChains {
  import opened Bytes

  const EMU_MAX_CHAR_KEYNAME := 12
  const CHAIN_LIMIT := 256

  type Key = seq<byte>

  /** keys: the entry's own key, then the ones chained behind it. */
  datatype Entry = Entry(provider: u32, name: string, keys: seq<Key>)

  // ---------------------------------------------------------------- names and keys

  function UpperChar(c: char): char {
    if 'a' <= c <= 'z' then c - 'a' + 'A' else c
  }

  function Upper(s: string): (u: string)
    ensures |u| == |s|
  {
    seq(|s|, i requires 0 <= i < |s| => UpperChar(s[i]))
  }

  function StoredName(s: string): (r: string)
    ensures |r| < EMU_MAX_CHAR_KEYNAME
  {
    if |s| < EMU_MAX_CHAR_KEYNAME then s else s[..EMU_MAX_CHAR_KEYNAME - 1]
  }

  /** Names are kept in capitals, and cut to eleven characters. */
  lemma {:induction false} NamesKept(s: string)
    ensures Upper("abcdefghijklmnopqrstuvwxyz") == "ABCDEFGHIJKLMNOPQRSTUVWXYZ"
    ensures forall i :: 0 <= i < |s| ==> Upper(s)[i] == s[i] || s[i] in "abcdefghijklmnopqrstuvwxyz"
    ensures Upper(Upper(s)) == Upper(s)
    ensures StoredName(s) == if |s| <= 11 then s else s[..11]
  {
    forall i | 0 <= i < |s| ensures Upper(s)[i] == s[i] || s[i] in "abcdefghijklmnopqrstuvwxyz" {
      if 'a' <= s[i] <= 'z' {
        assert "abcdefghijklmnopqrstuvwxyz"[s[i] as int - 'a' as int] == s[i];
      }
    }
  }

  /** Irdeto providers in mgcamd's short form are shifted. */
  function Norm(irdeto: bool, provider: u32): u32 {
    if irdeto && provider < 0xFFFF then provider * 256 else provider
  }

  function Min(a: nat, b: nat): nat {
    if a < b then a else b
  }

  /** memcmp over the shorter length finds no difference. */
  predicate Agree(a: Key, b: Key) {
    a[..Min(|a|, |b|)] == b[..Min(|a|, |b|)]
  }

  /** A key copied into a buffer of n bytes: cut, or filled with zeros. */
  function Fit(k: Key, n: nat): (r: Key)
    ensures |r| == n
  {
    if |k| > n then k[..n] else k + seq(n - |k|, _ => 0)
  }

  lemma {:induction false} FitAgrees(k: Key, key: Key)
    requires Fit(k, |key|) == key
    ensures Agree(k, key)
  {
  }

  // ---------------------------------------------------------------- operations

  predicate Matches(e: Entry, provider: u32, name: string) {
    e.provider == provider && e.name == name
  }

  function FindEntry(db: seq<Entry>, provider: u32, name: string): (i: nat)
    ensures i <= |db|
    ensures i < |db| ==> Matches(db[i], provider, name)
    ensures forall k :: 0 <= k < i ==> !Matches(db[k], provider, name)
  {
    First(db, (e: Entry) => Matches(e, provider, name))
  }

  predicate Has(keys: seq<Key>, key: Key) {
    exists i :: 0 <= i < |keys| && Agree(keys[i], key)
  }

  /** Behind the last key; behind the 255th at most, where it replaces what was there. */
  function Push(keys: seq<Key>, key: Key): (r: seq<Key>)
    ensures 0 < |r| <= CHAIN_LIMIT && r[|r| - 1] == key
  {
    if |keys| < CHAIN_LIMIT then keys + [key] else keys[..CHAIN_LIMIT - 1] + [key]
  }

  datatype Result = Result(db: seq<Entry>, ret: int)

  /** emu_set_key, for every identifier but the one of BISS session words. */
  function Set(db: seq<Entry>, irdeto: bool, provider: u32, name: string, key: Key): Result {
    var p := Norm(irdeto, provider);
    var i := FindEntry(db, p, Upper(name));
    if i == |db| then Result(db + [Entry(p, StoredName(Upper(name)), [key])], 1)
    else if !irdeto then Result(db[i := db[i].(keys := [key])], 1)
    else if Has(db[i].keys, key) then Result(db, 0)
    else Result(db[i := db[i].(keys := Push(db[i].keys, key))], 1)
  }

  /** emu_find_key without a provider mask: the keyRef-th key of the first entry that
      matches, in n bytes. */
  function Find(db: seq<Entry>, provider: u32, name: string, n: nat, keyRef: nat): Option<Key> {
    var i := FindEntry(db, provider, name);
    if i < |db| && keyRef < |db[i].keys| then Some(Fit(db[i].keys[keyRef], n)) else None
  }

  function ChainOf(db: seq<Entry>, provider: u32, name: string): seq<Key> {
    var i := FindEntry(db, provider, name);
    if i < |db| then db[i].keys else []
  }

  predicate Finds(db: seq<Entry>, provider: u32, name: string, key: Key) {
    exists k :: 0 <= k < |ChainOf(db, provider, name)| && Find(db, provider, name, |key|, k) == Some(key)
  }

  /** emu_update_key. */
  function Update(db: seq<Entry>, irdeto: bool, provider: u32, name: string, key: Key): Result {
    if Finds(db, provider, name, key) then Result(db, 0) else Set(db, irdeto, provider, name, key)
  }

  // ---------------------------------------------------------------- every run

  datatype Event =
    | Setting(provider: u32, name: string, key: Key)
    | Updating(provider: u32, name: string, key: Key)
    | Deleting

  function Happens(db: seq<Entry>, irdeto: bool, e: Event): seq<Entry> {
    match e
    case Setting(p, n, k) => Set(db, irdeto, p, n, k).db
    case Updating(p, n, k) => Update(db, irdeto, p, n, k).db
    case Deleting => []
  }

  function After(irdeto: bool, events: seq<Event>): seq<Entry>
    decreases |events|
  {
    if events == [] then [] else Happens(After(irdeto, events[..|events| - 1]), irdeto, events[|events| - 1])
  }

  /** No two keys of a chain agree over the shorter length; of equal length, they differ. */
  ghost predicate Apart(keys: seq<Key>) {
    forall i, j :: 0 <= i < j < |keys| ==> !Agree(keys[i], keys[j])
  }

  ghost predicate EntryOk(irdeto: bool, e: Entry) {
    && 0 < |e.keys| <= (if irdeto then CHAIN_LIMIT else 1)
    && Apart(e.keys)
    && Upper(e.name) == e.name && |e.name| < EMU_MAX_CHAR_KEYNAME
    && (irdeto ==> e.provider >= 0xFFFF || e.provider % 256 == 0)
  }

  ghost predicate DbOk(irdeto: bool, db: seq<Entry>) {
    forall e :: e in db ==> EntryOk(irdeto, e)
  }

  lemma {:induction false} PushApart(keys: seq<Key>, key: Key)
    requires Apart(keys) && !Has(keys, key)
    ensures Apart(Push(keys, key))
  {
  }

  lemma {:induction false} NewEntryOk(irdeto: bool, provider: u32, name: string, key: Key)
    ensures EntryOk(irdeto, Entry(Norm(irdeto, provider), StoredName(Upper(name)), [key]))
  {
  }

  lemma {:induction false} OneIsApart(key: Key)
    ensures Apart([key])
  {
  }

  lemma {:induction false} SetOk(db: seq<Entry>, irdeto: bool, provider: u32, name: string, key: Key)
    requires DbOk(irdeto, db)
    ensures DbOk(irdeto, Set(db, irdeto, provider, name, key).db)
  {
    hide Upper, Agree, Norm, Push, Has, Apart;
    NewEntryOk(irdeto, provider, name, key);
    var i := FindEntry(db, Norm(irdeto, provider), Upper(name));
    if i < |db| {
      assert EntryOk(irdeto, db[i]);
      assert Apart([key]) by { OneIsApart(key); }
      if !Has(db[i].keys, key) {
        PushApart(db[i].keys, key);
      }
    }
  }

  /** Over every run: chains hold at most 256 keys, no two of which agree. */
  lemma {:induction false} ChainsAlwaysOk(irdeto: bool, events: seq<Event>)
    ensures DbOk(irdeto, After(irdeto, events))
    decreases |events|
  {
    hide Set, Finds, EntryOk;
    if events == [] {
    } else {
      var n := |events| - 1;
      var db := After(irdeto, events[..n]);
      ChainsAlwaysOk(irdeto, events[..n]);
      match events[n]
      case Setting(p, name, k) => SetOk(db, irdeto, p, name, k);
      case Updating(p, name, k) => SetOk(db, irdeto, p, name, k);
      case Deleting =>
    }
  }

  /** Of equal length, the keys of a chain are pairwise different. */
  lemma {:induction false} EqualLengthsDiffer(keys: seq<Key>, n: nat)
    requires Apart(keys) && forall k :: k in keys ==> |k| == n
    ensures NoDuplicates(keys)
  {
  }

  // ---------------------------------------------------------------- storing

  lemma {:induction false} FoundAt(db: seq<Entry>, i: nat, provider: u32, name: string)
    requires i < |db| && Matches(db[i], provider, name) && forall k :: 0 <= k < i ==> !Matches(db[k], provider, name)
    ensures FindEntry(db, provider, name) == i
  {
  }

  /** An entry that is put behind the others, or changed, is not found under another name. */
  lemma {:induction false} OtherChain(db: seq<Entry>, after: seq<Entry>, i: nat, provider: u32, name: string)
    requires i < |after| && |db| <= |after| <= |db| + 1 && (|after| > |db| ==> i == |db|)
    requires !Matches(after[i], provider, name) && (i < |db| ==> !Matches(db[i], provider, name))
    requires forall k :: 0 <= k < |db| && k != i ==> after[k] == db[k]
    ensures ChainOf(after, provider, name) == ChainOf(db, provider, name)
  {
    hide Matches;
    var x, y := FindEntry(db, provider, name), FindEntry(after, provider, name);
  }

  /** Where a provider has one key of a name, storing one puts it there, under the name in capitals,
      and leaves every other name and provider alone. */
  lemma {:induction false} SetReplaces(db: seq<Entry>, provider: u32, name: string, key: Key)
    requires |name| < EMU_MAX_CHAR_KEYNAME
    ensures var r := Set(db, false, provider, name, key);
            && r.ret == 1
            && ChainOf(r.db, provider, Upper(name)) == [key]
            && Find(r.db, provider, Upper(name), |key|, 0) == Some(key)
            && (forall p, n :: p != provider || n != Upper(name) ==> ChainOf(r.db, p, n) == ChainOf(db, p, n))
  {
    hide Upper;
    var after := Set(db, false, provider, name, key).db;
    var i := FindEntry(db, provider, Upper(name));
    FoundAt(after, i, provider, Upper(name));
    assert Fit(key, |key|) == key;
    forall p, n | p != provider || n != Upper(name) ensures ChainOf(after, p, n) == ChainOf(db, p, n) {
      OtherChain(db, after, i, p, n);
    }
  }

  // ---------------------------------------------------------------- updating

  /** Where looking up and storing mean the same entry: long providers, zero, and short ones
      that no other short one is shifted to. */
  predicate Unambiguous(provider: u32) {
    provider >= 0xFFFF || provider == 0 || provider % 256 != 0
  }

  lemma {:induction false} FoundIsThere(db: seq<Entry>, irdeto: bool, provider: u32, name: string, key: Key)
    requires DbOk(irdeto, db) && irdeto && Unambiguous(provider) && Finds(db, provider, name, key)
    ensures Has(ChainOf(db, Norm(irdeto, provider), Upper(name)), key)
  {
    hide Agree, Fit, Upper;
    var i := FindEntry(db, provider, name);
    assert i < |db| && EntryOk(irdeto, db[i]) && Upper(name) == name;
    assert provider >= 0xFFFF || provider == 0;
    var k :| 0 <= k < |ChainOf(db, provider, name)| && Find(db, provider, name, |key|, k) == Some(key);
    FitAgrees(db[i].keys[k], key);
  }

  lemma {:induction false} NothingHas(key: Key)
    ensures !Has([], key)
  {
  }

  /** emu_update_key returns 0, and changes nothing, exactly if the entry the key would go to
      already has a key that agrees with it. */
  lemma {:induction false} UpdateExact(db: seq<Entry>, provider: u32, name: string, key: Key)
    requires DbOk(true, db) && Unambiguous(provider)
    ensures var r := Update(db, true, provider, name, key);
            && (r.ret == 0 <==> Has(ChainOf(db, Norm(true, provider), Upper(name)), key))
            && (r.ret == 0 ==> r.db == db)
            && (r.ret != 0 ==> r.ret == 1)
  {
    hide Has, Finds, Upper, EntryOk, Unambiguous;
    if Finds(db, provider, name, key) {
      FoundIsThere(db, true, provider, name, key);
    }
    NothingHas(key);
  }

  /** For the other providers that is not so: each of them reads the entry of the provider
      that is shifted to it, and a key found there is not stored. */
  lemma {:induction false} ShortProviderMisled(provider: u32, key: Key)
    requires !Unambiguous(provider)
    ensures var db := Set([], true, provider / 256, "01", key).db;
            && DbOk(true, db)
            && !Has(ChainOf(db, Norm(true, provider), "01"), key)
            && Update(db, true, provider, "01", key) == Result(db, 0)
  {
    hide EntryOk;
    var db := Set([], true, provider / 256, "01", key).db;
    assert DbOk(true, []);
    SetOk([], true, provider / 256, "01", key);
    assert Upper("01") == "01";
    assert db == [Entry(provider, "01", [key])];
    assert Norm(true, provider) != provider;
    NothingHas(key);
    assert FindEntry(db, provider, "01") == 0;
    assert Fit(key, |key|) == key;
    assert Find(db, provider, "01", |key|, 0) == Some(key);
  }

  lemma {:induction false} EntryStays(db: seq<Entry>, after: seq<Entry>, i: nat, p: u32, nm: string)
    requires i == FindEntry(db, p, nm) && |db| <= |after| && i < |after| && Matches(after[i], p, nm)
    requires forall k :: 0 <= k < i ==> after[k] == db[k]
    ensures FindEntry(after, p, nm) == i
  {
  }

  /** Afterwards the key is found at some reference up to 255, and nothing else has moved,
      except that a full chain has lost its last key. */
  lemma {:induction false} UpdateStores(db: seq<Entry>, provider: u32, name: string, key: Key)
    requires DbOk(true, db) && |name| < EMU_MAX_CHAR_KEYNAME && Update(db, true, provider, name, key).ret == 1
    ensures var after := Update(db, true, provider, name, key).db;
            var p, nm := Norm(true, provider), Upper(name);
            exists keyRef :: 0 <= keyRef <= 255 && keyRef < |ChainOf(after, p, nm)| && Find(after, p, nm, |key|, keyRef) == Some(key)
    ensures var after := Update(db, true, provider, name, key).db;
            forall e, k :: 0 <= e < |db| && 0 <= k < |db[e].keys| && k < 255 ==>
                             e < |after| && k < |after[e].keys| && after[e].keys[k] == db[e].keys[k]
  {
    hide Has, Finds, Upper, EntryOk, Norm;
    var p, nm := Norm(true, provider), Upper(name);
    var i := FindEntry(db, p, nm);
    var after := Update(db, true, provider, name, key).db;
    assert after == Set(db, true, provider, name, key).db;
    EntryStays(db, after, i, p, nm);
    var keyRef := |after[i].keys| - 1;
    assert Fit(key, |key|) == key;
    assert Find(after, p, nm, |key|, keyRef) == Some(key);
  }

  // ---------------------------------------------------------------- the program

  /** The do loop that rejects duplicates. */
  method HasKey(chain: seq<Key>, key: Key) returns (dup: bool)
    ensures dup <==> Has(chain, key)
  {
    var k := 0;
    while k < |chain|
      invariant 0 <= k <= |chain| && forall i :: 0 <= i < k ==> !Agree(chain[i], key)
    {
      if Agree(chain[k], key) {
        return true;
      }
      k := k + 1;
    }
    return false;
  }

  /** Walks to the last key, or to the 255th, drops what follows and puts the new one there. */
  method Chain(chain: seq<Key>, key: Key) returns (r: seq<Key>)
    ensures r == Push(chain, key)
  {
    if chain == [] {
      return [key];
    }
    var at, j := 0, 0;
    while at + 1 < |chain| && j != 0xFE
      invariant 0 <= at < |chain| && j == at <= 0xFE
      decreases |chain| - at
    {
      at := at + 1;
      j := j + 1;
    }
    r := chain[..at + 1] + [key];
  }

  class KeyDataContainer {
    const irdeto: bool
    var keys: array<Entry>
    var keyCount: nat

    /** keyMax is the length of the array. */
    ghost predicate Valid()
      reads this, keys
    {
      keyCount <= keys.Length && DbOk(irdeto, keys[..keyCount])
    }

    ghost function View(): seq<Entry>
      reads this, keys
      requires keyCount <= keys.Length
    {
      keys[..keyCount]
    }

    constructor (irdeto: bool)
      ensures Valid() && View() == [] && this.irdeto == irdeto && fresh(keys)
    {
      this.irdeto := irdeto;
      keys := new Entry[0];
      keyCount := 0;
    }

    method FindNode(provider: u32, name: string) returns (i: nat)
      requires Valid()
      ensures i == FindEntry(View(), provider, name)
    {
      hide Matches, DbOk;
      ghost var db := keys[..keyCount];
      i := 0;
      while i < keyCount
        invariant i <= keyCount && FindEntry(db, provider, name) == i + FindEntry(db[i..], provider, name)
      {
        if Matches(keys[i], provider, name) {
          return;
        }
        assert db[i..][1..] == db[i + 1..];
        i := i + 1;
      }
    }

    /** Sees to it that one more entry fits: 64 entries at first, then 16 more at a time. */
    method Reserve()
      requires Valid()
      modifies this`keys
      ensures Valid() && View() == old(View()) && keyCount < keys.Length && (fresh(keys) || keys == old(keys))
      ensures keys.Length == if keyCount < old(keys).Length then old(keys).Length
                             else old(keys).Length + (if old(keys).Length == 0 then 64 else 16)
    {
      hide DbOk;
      if keyCount + 1 > keys.Length {
        var before, n := keys, keyCount;
        var more := new Entry[keys.Length + (if keys.Length == 0 then 64 else 16)](_ => Entry(0, "", []));
        forall k | 0 <= k < n {
          more[k] := before[k];
        }
        keys := more;
        assert keys[..n] == before[..n] == old(keys[..keyCount]);
      }
    }

    method SetKey(provider0: u32, name0: string, key: Key) returns (ret: int)
      requires Valid()
      modifies this, keys
      ensures Valid() && (fresh(keys) || keys == old(keys))
      ensures Result(View(), ret) == Set(old(View()), irdeto, provider0, name0, key)
    {
      hide DbOk, Has, Push, Upper, FindEntry;
      SetOk(View(), irdeto, provider0, name0, key);
      var name := Upper(name0);
      var provider := provider0;
      if irdeto && provider < 0xFFFF {
        provider := provider * 256;
      }
      assert provider == Norm(irdeto, provider0);
      var i := FindNode(provider, name);
      if i < keyCount {
        if irdeto {
          var dup := HasKey(keys[i].keys, key);
          if dup {
            return 0;
          }
          var chain := Chain(keys[i].keys, key);
          keys[i] := keys[i].(keys := chain);
        } else {
          keys[i] := keys[i].(keys := [key]);
        }
        assert keys[..keyCount] == old(keys[..keyCount])[i := keys[i]];
        return 1;
      }
      Reserve();
      keys[keyCount] := Entry(provider, StoredName(name), [key]);
      keyCount := keyCount + 1;
      assert keys[..keyCount] == old(keys[..keyCount]) + [keys[keyCount - 1]];
      return 1;
    }

    method FindKey(provider: u32, name: string, n: nat, keyRef: nat) returns (key: Option<Key>)
      requires Valid()
      ensures key == Find(View(), provider, name, n, keyRef)
    {
      hide FindEntry, Fit;
      assert DbOk(irdeto, View());
      var i := FindNode(provider, name);
      if i == keyCount {
        return None;
      }
      var chain := keys[i].keys;
      assert EntryOk(irdeto, View()[i]);
      var j := 0;
      while j < keyRef && j + 1 < |chain|
        invariant 0 <= j <= keyRef && j < |chain|
      {
        j := j + 1;
      }
      return if j == keyRef then Some(Fit(chain[j], n)) else None;
    }

    /** Looks at every key of the entry before storing; ends, for chains do. */
    method UpdateKey(provider: u32, name: string, key: Key) returns (ret: int)
      requires Valid()
      modifies this, keys
      ensures Valid() && (fresh(keys) || keys == old(keys))
      ensures Result(View(), ret) == Update(old(View()), irdeto, provider, name, key)
    {
      hide DbOk, Set, FindEntry, Fit;
      var keyRef := 0;
      ghost var chain := ChainOf(View(), provider, name);
      while true
        invariant keyRef <= |chain| && Valid() && View() == old(View()) && keys == old(keys)
        invariant forall k :: 0 <= k < keyRef ==> Find(View(), provider, name, |key|, k) != Some(key)
        decreases |chain| - keyRef
      {
        var tmpKey := FindKey(provider, name, |key|, keyRef);
        if tmpKey.None? {
          break;
        }
        if tmpKey.value == key {
          return 0;
        }
        keyRef := keyRef + 1;
      }
      ret := SetKey(provider, name, key);
    }

    method DeleteKeys() returns (count: nat)
      requires Valid()
      modifies this
      ensures Valid() && View() == [] && count == old(keyCount) && (keyCount == old(keyCount) || keys.Length == 0)
    {
      if keyCount == 0 {
        return 0;
      }
      count := keyCount;
      keys := new Entry[0];
      keyCount := 0;
    }
  }
}
