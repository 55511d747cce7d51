/**
 The CCcam login. Both ends derive two cipher blocks from the server's seed and then
 exchange the name, a marker that is readable only with the right password, and an
 acknowledgement. SHA-1 (section 6.1 of FIPS 180-4) is a parameter.
 */
module Login {
  import opened Bytes
  import opened CryptStream
  import opened Transport

  type Sha1 = seq<byte> -> seq<byte>

  ghost predicate Digests(sha: Sha1) {
    forall d :: |sha(d)| == 20
  }

  datatype Account = Account(usr: seq<byte>, pwd: seq<byte>, active: bool, dup: bool, disabled: bool,
                             maxhops: int)

  datatype Outcome = Accepted(account: Account, user: seq<byte>) | Refused(code: int)

  /** "CCcam" with its terminating zero. */
  const MARKER: seq<byte> := [67, 67, 99, 97, 109, 0]

  // ---------------------------------------------------------------- C strings

  ghost predicate IsCString(s: seq<byte>) {
    0 !in s
  }

  /** The characters before the first zero. */
  function CString(s: seq<byte>): (r: seq<byte>)
    ensures r <= s && 0 !in r
  {
    if s == [] || s[0] == 0 then [] else [s[0]] + CString(s[1..])
  }

  lemma {:induction false} PaddedStringReadsBack(s: seq<byte>, n: nat)
    requires IsCString(s)
    ensures CString(s + Zeros(n)) == s
  {
    if s == [] {
    } else {
      PaddedStringReadsBack(s[1..], n);
      assert (s + Zeros(n))[1..] == s[1..] + Zeros(n);
      assert s[0] in s;
    }
  }

  // ---------------------------------------------------------------- keys from the seed

  function CheckByte(random: seq<byte>, i: nat): byte
    requires |random| == 12 && i < 4
  {
    (random[i] + random[4 + i] + random[8 + i] as int) % 256
  }

  /** The last four seed bytes check the first twelve. */
  function Seed(random: seq<byte>): (s: seq<byte>)
    requires |random| == 12
    ensures |s| == 16
  {
    random + seq(4, i requires 0 <= i < 4 => CheckByte(random, i))
  }

  function XorMarker(buf: seq<byte>): seq<byte>
    requires |buf| == 16
  {
    seq(8, i requires 0 <= i < 8 => if i <= 5 then Xor(buf[i], MARKER[i]) else buf[i]) +
    seq(8, i requires 0 <= i < 8 => (i * buf[i] as int) % 256)
  }

  /** first belongs to the server-to-client direction, second to the other one; proof is the
      digest the client sends. */
  datatype Keys = Keys(first: Block, second: Block, proof: seq<byte>)

  function DeriveKeys(sha: Sha1, seed: seq<byte>): (k: Keys)
    requires |seed| == 16 && |sha(XorMarker(seed))| == 20
    ensures |k.proof| == 20
  {
    var masked := XorMarker(seed);
    var digest := sha(masked);
    var a := CryptData(InitBlock(digest), masked, DECRYPT);
    var b := CryptData(InitBlock(a.data), digest, DECRYPT);
    Keys(a.block, b.block, b.data)
  }

  // ---------------------------------------------------------------- the client's half

  /** The name field: twenty bytes, zero padded. */
  function NameField(usr: seq<byte>): (f: seq<byte>)
    ensures |f| == 20
  {
    AtMost(usr, 20) + Zeros(20 - |AtMost(usr, 20)|)
  }

  function ClientSends(second: Block, proof: seq<byte>, usr: seq<byte>, pwd: seq<byte>): (r: Run)
    requires |proof| == 20
    ensures |r.data| == 46
  {
    var hello := CryptData(second, proof, ENCRYPT);
    var name := CryptData(hello.block, NameField(usr), ENCRYPT);
    var keyed := CryptData(name.block, AtMost(pwd, 64), ENCRYPT).block;
    var marker := CryptData(keyed, MARKER, ENCRYPT);
    Run(marker.block, hello.data + name.data + marker.data)
  }

  // ---------------------------------------------------------------- the server's half

  predicate Printable(usr: seq<byte>) {
    forall i :: 0 <= i < |usr| ==> usr[i] >= 0x20
  }

  predicate NameMatches(usr: seq<byte>, account: Account) {
    AtMost(usr, 20) == AtMost(account.usr, 20)
  }

  datatype Attempt = Attempt(account: Option<Account>, block: Block, buf: seq<byte>)

  /** The account loop. Each try starts from the saved block, but decrypts the six bytes
      where they stand, so a second try sees what the first one made of them. */
  function TryAccounts(saved: Block, current: Block, buf: seq<byte>, accounts: seq<Account>, usr: seq<byte>): Attempt
    decreases |accounts|
  {
    if accounts == [] then Attempt(None, current, buf)
    else if !NameMatches(usr, accounts[0]) then TryAccounts(saved, current, buf, accounts[1..], usr)
    else
      var keyed := CryptData(saved, AtMost(accounts[0].pwd, 64), ENCRYPT).block;
      var r := CryptData(keyed, buf, DECRYPT);
      if r.data == MARKER then Attempt(Some(accounts[0]), r.block, r.data)
      else TryAccounts(saved, r.block, r.data, accounts[1..], usr)
  }

  /** What cs_auth_client and the checks behind it make of the account found. */
  function Judge(account: Option<Account>, usr: seq<byte>): Outcome {
    if account.None? || !account.value.active then Refused(-2)
    else if account.value.dup then Refused(-3)
    else if account.value.disabled then Refused(-2)
    else if account.value.maxhops < -1 then Refused(-3)
    else Accepted(account.value, usr)
  }

  datatype ServerRun = ServerRun(outcome: Outcome, block: Block)

  /** The server's reading of the client's 46 bytes. */
  function ServerReads(second: Block, stream: seq<byte>, accounts: seq<Account>): ServerRun {
    if |stream| < 20 then ServerRun(Refused(-1), second)
    else
      var proof := CryptData(second, stream[..20], DECRYPT);
      if |stream| < 40 then ServerRun(Refused(-2), proof.block)
      else
        var name := CryptData(proof.block, stream[20..40], DECRYPT);
        var usr := CString(name.data);
        if !Printable(usr) then ServerRun(Refused(-3), name.block)
        else if |stream| < 46 then ServerRun(Refused(-2), name.block)
        else
          var t := TryAccounts(name.block, name.block, stream[40..46], accounts, usr);
          ServerRun(Judge(t.account, usr), t.block)
  }

  function Ack(first: Block): Run {
    CryptData(first, MARKER + Zeros(14), ENCRYPT)
  }

  /** The client's verdict on the twenty bytes of the acknowledgement. */
  predicate ClientAccepts(first: Block, ack: seq<byte>) {
    |ack| == 20 && CryptData(first, ack, DECRYPT).data[..5] == MARKER[..5]
  }

  /** Names are compared up to twenty characters. */
  lemma {:induction false} NamesMatchExactly(usr: seq<byte>, a: Account)
    ensures NameMatches(usr, a) <==>
            usr == a.usr || (|usr| >= 20 && |a.usr| >= 20 && forall i :: 0 <= i < 20 ==> usr[i] == a.usr[i])
  {
  }

  /** The seed as it is digested: "CCcam" on the first five bytes, and multiples of the first
      eight bytes in the place of the others. */
  lemma {:induction false} SeedMixed(s: seq<byte>)
    requires |s| == 16
    ensures var m := XorMarker(s);
            && |m| == 16
            && (forall i :: 0 <= i < 5 ==> m[i] == Xor(s[i], [67, 67, 99, 97, 109][i]))
            && m[5] == Xor(s[5], 0) && m[6] == s[6] && m[7] == s[7]
            && forall i :: 0 <= i < 8 ==> m[8 + i] == (i * s[i] as int) % 256
  {
    hide Xor;
  }

  /** The client goes on exactly if the acknowledgement begins with "CCcam" under its own block. */
  lemma {:induction false} AcknowledgedExactly(first: Block, ack: seq<byte>)
    ensures ClientAccepts(first, ack) <==>
            |ack| == 20 && ack[..5] == CryptData(first, [67, 67, 99, 97, 109], ENCRYPT).data
  {
    hide CryptByte;
    if |ack| == 20 {
      assert ack == ack[..5] + ack[5..];
      CryptAppend(first, ack[..5], ack[5..], DECRYPT);
      RoundTripBack(first, ack[..5]);
      RoundTrip(first, [67, 67, 99, 97, 109]);
      assert MARKER[..5] == [67, 67, 99, 97, 109];
    }
  }

  // ---------------------------------------------------------------- both ends agree

  /** The first account whose name matches has the password pwd. */
  ghost predicate FirstMatchHas(accounts: seq<Account>, usr: seq<byte>, pwd: seq<byte>, which: nat) {
    && which < |accounts|
    && NameMatches(usr, accounts[which])
    && (forall i :: 0 <= i < which ==> !NameMatches(usr, accounts[i]))
    && AtMost(accounts[which].pwd, 64) == AtMost(pwd, 64)
  }

  // ---------------------------------------------------------------- who is let in

  /** The marker as a client with this password sends it. */
  function MarkerUnder(saved: Block, pwd: seq<byte>): (m: seq<byte>)
    ensures |m| == 6
  {
    CryptData(CryptData(saved, AtMost(pwd, 64), ENCRYPT).block, MARKER, ENCRYPT).data
  }

  /** Six bytes read with this password. */
  function Unlocked(saved: Block, pwd: seq<byte>, six: seq<byte>): (m: seq<byte>)
    ensures |m| == |six|
  {
    CryptData(CryptData(saved, AtMost(pwd, 64), ENCRYPT).block, six, DECRYPT).data
  }

  /** Only the marker under a password reads as the marker with it. */
  lemma {:induction false} UnlocksExactly(saved: Block, pwd: seq<byte>, six: seq<byte>)
    ensures Unlocked(saved, pwd, six) == MARKER <==> six == MarkerUnder(saved, pwd)
  {
    hide CryptData, AtMost;
    var keyed := CryptData(saved, AtMost(pwd, 64), ENCRYPT).block;
    RoundTrip(keyed, MARKER);
    RoundTripBack(keyed, six);
  }

  /** The accounts of the name, in order. */
  function Namesakes(accounts: seq<Account>, usr: seq<byte>): (ms: seq<Account>)
    ensures forall a :: a in ms <==> a in accounts && NameMatches(usr, a)
  {
    if accounts == [] then []
    else
      assert accounts == [accounts[0]] + accounts[1..];
      (if NameMatches(usr, accounts[0]) then [accounts[0]] else []) + Namesakes(accounts[1..], usr)
  }

  /** What is left of the six bytes after n tries with the accounts ms: each try reads what the
      one before has made of them. */
  function Left(saved: Block, six: seq<byte>, ms: seq<Account>, n: nat): (b: seq<byte>)
    requires n <= |ms|
    ensures |b| == |six|
  {
    if n == 0 then six else Unlocked(saved, ms[n - 1].pwd, Left(saved, six, ms, n - 1))
  }

  /** The n-th try is the first one that finds the marker of its account. */
  ghost predicate OpensAt(saved: Block, six: seq<byte>, ms: seq<Account>, n: nat) {
    && n < |ms| && Left(saved, six, ms, n) == MarkerUnder(saved, ms[n].pwd)
    && forall i :: 0 <= i < n ==> Left(saved, six, ms, i) != MarkerUnder(saved, ms[i].pwd)
  }

  lemma {:induction false} LeftAfterFirst(saved: Block, six: seq<byte>, ms: seq<Account>, n: nat)
    requires 0 < n <= |ms|
    ensures Left(saved, six, ms, n) == Left(saved, Unlocked(saved, ms[0].pwd, six), ms[1..], n - 1)
  {
    hide Unlocked;
    if n == 1 {
      assert Left(saved, six, ms, 0) == six;
    } else {
      LeftAfterFirst(saved, six, ms, n - 1);
      assert ms[1..][n - 2] == ms[n - 1];
    }
  }

  lemma {:induction false} NothingTried(saved: Block, six: seq<byte>, ms: seq<Account>)
    ensures Left(saved, six, ms, 0) == six
  {
  }

  lemma {:induction false} OpensLater(saved: Block, six: seq<byte>, ms: seq<Account>, n: nat)
    requires ms != [] && six != MarkerUnder(saved, ms[0].pwd)
    ensures OpensAt(saved, six, ms, n + 1) <==> OpensAt(saved, Unlocked(saved, ms[0].pwd, six), ms[1..], n)
    ensures !OpensAt(saved, six, ms, 0)
  {
    hide Unlocked, MarkerUnder, Left;
    assert Left(saved, six, ms, 0) == six by { NothingTried(saved, six, ms); }
    var next := Unlocked(saved, ms[0].pwd, six);
    forall i | 0 <= i < |ms| - 1
      ensures Left(saved, six, ms, i + 1) == Left(saved, next, ms[1..], i) && ms[1..][i] == ms[i + 1]
    {
      LeftAfterFirst(saved, six, ms, i + 1);
    }
    if OpensAt(saved, next, ms[1..], n) {
      forall i | 0 <= i < n + 1 ensures Left(saved, six, ms, i) != MarkerUnder(saved, ms[i].pwd) {
        if i > 0 {
          assert Left(saved, next, ms[1..], i - 1) != MarkerUnder(saved, ms[1..][i - 1].pwd);
        }
      }
    }
    if OpensAt(saved, six, ms, n + 1) {
      forall i | 0 <= i < n ensures Left(saved, next, ms[1..], i) != MarkerUnder(saved, ms[1..][i].pwd) {
        assert Left(saved, six, ms, i + 1) != MarkerUnder(saved, ms[i + 1].pwd);
      }
    }
  }

  /** The account found is the first of the name that the bytes open. */
  ghost predicate FoundAsOpened(t: Option<Account>, saved: Block, six: seq<byte>, ms: seq<Account>) {
    if t.Some? then exists n: nat :: n < |ms| && OpensAt(saved, six, ms, n) && t.value == ms[n]
    else forall n: nat :: !OpensAt(saved, six, ms, n)
  }

  lemma {:induction false} FoundLater(t: Option<Account>, saved: Block, six: seq<byte>, ms: seq<Account>)
    requires ms != [] && six != MarkerUnder(saved, ms[0].pwd)
    requires FoundAsOpened(t, saved, Unlocked(saved, ms[0].pwd, six), ms[1..])
    ensures FoundAsOpened(t, saved, six, ms)
  {
    hide Unlocked, MarkerUnder, OpensAt;
    var next := Unlocked(saved, ms[0].pwd, six);
    if t.Some? {
      var n: nat :| n < |ms[1..]| && OpensAt(saved, next, ms[1..], n) && t.value == ms[1..][n];
      OpensLater(saved, six, ms, n);
      assert OpensAt(saved, six, ms, n + 1) && ms[n + 1] == ms[1..][n];
    } else {
      forall n: nat ensures !OpensAt(saved, six, ms, n) {
        OpensLater(saved, six, ms, if n == 0 then 0 else n - 1);
      }
    }
  }

  lemma {:induction false} NobodyOpens(saved: Block, six: seq<byte>)
    ensures FoundAsOpened(None, saved, six, [])
  {
  }

  lemma {:induction false} OpensAtOnce(saved: Block, six: seq<byte>, ms: seq<Account>)
    requires ms != [] && six == MarkerUnder(saved, ms[0].pwd)
    ensures FoundAsOpened(Some(ms[0]), saved, six, ms)
  {
    hide MarkerUnder;
    assert OpensAt(saved, six, ms, 0);
  }

  /** The account the loop stops at. */
  lemma {:induction false} LoopDecides(saved: Block, current: Block, six: seq<byte>, accounts: seq<Account>, usr: seq<byte>)
    requires |six| == 6
    ensures FoundAsOpened(TryAccounts(saved, current, six, accounts, usr).account, saved, six, Namesakes(accounts, usr))
    decreases |accounts|
  {
    hide CryptData, AtMost, NameMatches, FoundAsOpened;
    if accounts == [] {
      NobodyOpens(saved, six);
    } else if !NameMatches(usr, accounts[0]) {
      LoopDecides(saved, current, six, accounts[1..], usr);
      assert Namesakes(accounts, usr) == [] + Namesakes(accounts[1..], usr) == Namesakes(accounts[1..], usr);
    } else {
      var a := accounts[0];
      var keyed := CryptData(saved, AtMost(a.pwd, 64), ENCRYPT).block;
      var r := CryptData(keyed, six, DECRYPT);
      var ms := Namesakes(accounts, usr);
      assert ms[1..] == Namesakes(accounts[1..], usr) && ms[0] == a;
      UnlocksExactly(saved, a.pwd, six);
      if r.data == MARKER {
        OpensAtOnce(saved, six, ms);
      } else {
        LoopDecides(saved, r.block, r.data, accounts[1..], usr);
        FoundLater(TryAccounts(saved, current, six, accounts, usr).account, saved, six, ms);
      }
    }
  }

  lemma {:induction false} RightPasswordIsFound(saved: Block, current: Block, accounts: seq<Account>, usr: seq<byte>,
                                                pwd: seq<byte>, which: nat)
    requires FirstMatchHas(accounts, usr, pwd, which)
    ensures var keyed := CryptData(saved, AtMost(pwd, 64), ENCRYPT).block;
            var sent := CryptData(keyed, MARKER, ENCRYPT);
            TryAccounts(saved, current, sent.data, accounts, usr) ==
            Attempt(Some(accounts[which]), sent.block, MARKER)
    decreases which
  {
    hide CryptByte, AtMost;
    var keyed := CryptData(saved, AtMost(pwd, 64), ENCRYPT).block;
    if which > 0 {
      assert !NameMatches(usr, accounts[0]);
      RightPasswordIsFound(saved, current, accounts[1..], usr, pwd, which - 1);
    } else {
      RoundTrip(keyed, MARKER);
    }
  }

  lemma {:induction false} NameFieldReadsBack(usr: seq<byte>)
    requires IsCString(usr)
    ensures CString(NameField(usr)) == AtMost(usr, 20)
  {
    PaddedStringReadsBack(AtMost(usr, 20), 20 - |AtMost(usr, 20)|);
  }

  /** The main result. When the first account matching the client's name has its password,
      the server reads the name that was sent and recognises the account, whatever the seed
      and the rest of the account list; the server's receiving block is then the client's
      sending block; the acknowledgement is accepted; and the server's sending block is the
      client's receiving block. */
  lemma {:induction false} LoginMirrors(sha: Sha1, seed: seq<byte>, usr: seq<byte>, pwd: seq<byte>, accounts: seq<Account>, which: nat)
    requires |seed| == 16 && Digests(sha)
    requires IsCString(usr) && Printable(AtMost(usr, 20))
    requires FirstMatchHas(accounts, AtMost(usr, 20), pwd, which)
    ensures var keys := DeriveKeys(sha, seed);
            var client := ClientSends(keys.second, keys.proof, usr, pwd);
            var server := ServerReads(keys.second, client.data, accounts);
            && server.outcome == Judge(Some(accounts[which]), AtMost(usr, 20))
            && server.block == client.block
            && ClientAccepts(keys.first, Ack(keys.first).data)
            && CryptData(keys.first, Ack(keys.first).data, DECRYPT).block == Ack(keys.first).block
  {
    hide CryptByte, CryptData, DeriveKeys, AtMost;
    var keys := DeriveKeys(sha, seed);
    var client := ClientSends(keys.second, keys.proof, usr, pwd);
    var proof := CryptData(keys.second, keys.proof, ENCRYPT);
    var name := CryptData(proof.block, NameField(usr), ENCRYPT);
    assert client.data[..20] == proof.data;
    assert client.data[20..40] == name.data;
    RoundTrip(keys.second, keys.proof);
    RoundTrip(proof.block, NameField(usr));
    NameFieldReadsBack(usr);
    var keyed := CryptData(name.block, AtMost(pwd, 64), ENCRYPT).block;
    assert client.data[40..46] == CryptData(keyed, MARKER, ENCRYPT).data;
    RightPasswordIsFound(name.block, name.block, accounts, AtMost(usr, 20), pwd, which);
    RoundTrip(keys.first, MARKER + Zeros(14));
  }

  // ---------------------------------------------------------------- nobody else is let in

  /** The block after proof and name, and the name, as the server reads them. */
  function NameBlock(second: Block, stream: seq<byte>): Block
    requires |stream| >= 40
  {
    CryptData(CryptData(second, stream[..20], DECRYPT).block, stream[20..40], DECRYPT).block
  }

  function NameRead(second: Block, stream: seq<byte>): seq<byte>
    requires |stream| >= 40
  {
    CString(CryptData(CryptData(second, stream[..20], DECRYPT).block, stream[20..40], DECRYPT).data)
  }

  /** The account is active, not in use elsewhere, enabled for this protocol and has a legal
      hop limit. */
  predicate MayEnter(a: Account) {
    a.active && !a.dup && !a.disabled && a.maxhops >= -1
  }

  lemma {:induction false} JudgedExactly(account: Option<Account>, usr: seq<byte>)
    ensures Judge(account, usr).Accepted? <==> account.Some? && MayEnter(account.value)
    ensures Judge(account, usr).Accepted? ==> Judge(account, usr) == Accepted(account.value, usr)
    ensures account.None? ==> Judge(account, usr) == Refused(-2)
  {
  }

  lemma {:induction false} OpensOnce(saved: Block, six: seq<byte>, ms: seq<Account>, n: nat, m: nat)
    requires OpensAt(saved, six, ms, n) && OpensAt(saved, six, ms, m)
    ensures n == m
  {
    hide Left, MarkerUnder;
  }

  /** For all bytes and all accounts: the client is let in exactly if it has sent everything, the
      name it sent is printable, and what follows opens an account of the name (each failed try
      garbling it for the next), which may enter. */
  lemma {:induction false} LetInExactly(second: Block, stream: seq<byte>, accounts: seq<Account>)
    ensures var outcome := ServerReads(second, stream, accounts).outcome;
            if |stream| < 40 then outcome == Refused(if |stream| < 20 then -1 else -2)
            else if !Printable(NameRead(second, stream)) then outcome == Refused(-3)
            else if |stream| < 46 then outcome == Refused(-2)
            else
              var usr, saved := NameRead(second, stream), NameBlock(second, stream);
              var ms := Namesakes(accounts, usr);
              && (outcome.Accepted? <==> exists n: nat :: n < |ms| && OpensAt(saved, stream[40..46], ms, n) && MayEnter(ms[n]))
              && (forall n: nat :: n < |ms| && OpensAt(saved, stream[40..46], ms, n) && MayEnter(ms[n]) ==> outcome == Accepted(ms[n], usr))
              && ((forall n: nat :: !OpensAt(saved, stream[40..46], ms, n)) ==> outcome == Refused(-2))
  {
    hide CryptData, TryAccounts, Namesakes, OpensAt, Printable, CString, Judge;
    if |stream| >= 46 && Printable(NameRead(second, stream)) {
      var usr, saved, six := NameRead(second, stream), NameBlock(second, stream), stream[40..46];
      var ms := Namesakes(accounts, usr);
      LoopDecides(saved, saved, six, accounts, usr);
      var t := TryAccounts(saved, saved, six, accounts, usr).account;
      JudgedExactly(t, usr);
      forall n: nat, m: nat | OpensAt(saved, six, ms, n) && OpensAt(saved, six, ms, m) ensures n == m {
        OpensOnce(saved, six, ms, n, m);
      }
    }
  }

  lemma {:induction false} OneOpens(saved: Block, six: seq<byte>, a: Account)
    ensures forall n: nat :: OpensAt(saved, six, [a], n) <==> n == 0 && six == MarkerUnder(saved, a.pwd)
  {
    hide MarkerUnder;
  }

  /** With one account of the name: its password decides, and a wrong one is refused. */
  lemma {:induction false} PasswordDecides(second: Block, stream: seq<byte>, accounts: seq<Account>, a: Account)
    requires |stream| >= 46 && Printable(NameRead(second, stream))
    requires Namesakes(accounts, NameRead(second, stream)) == [a]
    ensures var outcome := ServerReads(second, stream, accounts).outcome;
            var right := stream[40..46] == MarkerUnder(NameBlock(second, stream), a.pwd);
            && (outcome == Accepted(a, NameRead(second, stream)) <==> right && MayEnter(a))
            && (outcome.Accepted? <==> right && MayEnter(a))
            && (!right ==> outcome == Refused(-2))
  {
    hide ServerReads, NameRead, NameBlock, MarkerUnder, Namesakes, Printable;
    LetInExactly(second, stream, accounts);
    var saved, six := NameBlock(second, stream), stream[40..46];
    OneOpens(saved, six, a);
    if six == MarkerUnder(saved, a.pwd) {
      assert OpensAt(saved, six, [a], 0) && [a][0] == a;
    }
  }

  lemma {:induction false} NoNamesakes(accounts: seq<Account>, usr: seq<byte>)
    requires forall a :: a in accounts ==> !NameMatches(usr, a)
    ensures Namesakes(accounts, usr) == []
  {
    hide NameMatches;
    if accounts == [] {
    } else {
      NoNamesakes(accounts[1..], usr);
    }
  }

  /** A name without account is refused. */
  lemma {:induction false} StrangersRefused(second: Block, stream: seq<byte>, accounts: seq<Account>)
    requires |stream| >= 46 && Printable(NameRead(second, stream))
    requires forall a :: a in accounts ==> !NameMatches(NameRead(second, stream), a)
    ensures ServerReads(second, stream, accounts).outcome == Refused(-2)
  {
    hide ServerReads, NameRead, NameBlock, Printable, NameMatches;
    NoNamesakes(accounts, NameRead(second, stream));
    LetInExactly(second, stream, accounts);
  }

  lemma {:induction false} SentReadsBack(second: Block, proof: seq<byte>, usr: seq<byte>, pwd: seq<byte>)
    requires |proof| == 20 && IsCString(usr)
    ensures var stream := ClientSends(second, proof, usr, pwd).data;
            && NameRead(second, stream) == AtMost(usr, 20)
            && stream[40..46] == MarkerUnder(NameBlock(second, stream), pwd)
  {
    hide CryptData, AtMost;
    var stream := ClientSends(second, proof, usr, pwd).data;
    var hello := CryptData(second, proof, ENCRYPT);
    var name := CryptData(hello.block, NameField(usr), ENCRYPT);
    assert stream[..20] == hello.data && stream[20..40] == name.data;
    RoundTrip(second, proof);
    RoundTrip(hello.block, NameField(usr));
    NameFieldReadsBack(usr);
  }

  /** The 46 bytes of a client: it is let in exactly if the marker under its password is the
      marker under the password of its account. */
  lemma {:induction false} OwnPasswordDecides(second: Block, proof: seq<byte>, usr: seq<byte>, pwd: seq<byte>,
                                              accounts: seq<Account>, a: Account)
    requires |proof| == 20 && IsCString(usr) && Printable(AtMost(usr, 20))
    requires Namesakes(accounts, AtMost(usr, 20)) == [a]
    ensures var stream := ClientSends(second, proof, usr, pwd).data;
            var saved := NameBlock(second, stream);
            ServerReads(second, stream, accounts).outcome.Accepted? <==>
            MarkerUnder(saved, pwd) == MarkerUnder(saved, a.pwd) && MayEnter(a)
  {
    hide CryptData, AtMost, Namesakes, ServerReads, Printable;
    SentReadsBack(second, proof, usr, pwd);
    PasswordDecides(second, ClientSends(second, proof, usr, pwd).data, accounts, a);
  }

  // ---------------------------------------------------------------- the program

  method XorInPlace(buf: array<byte>)
    requires buf.Length >= 16
    modifies buf
    ensures buf[..16] == XorMarker(old(buf[..16]))
    ensures buf[16..] == old(buf[16..])
  {
    var i := 0;
    while i < 8
      invariant 0 <= i <= 8
      invariant forall k :: 0 <= k < i ==> buf[8 + k] == (k * old(buf[k]) as int) % 256
      invariant forall k :: 0 <= k < i ==> buf[k] == if k <= 5 then Xor(old(buf[k]), MARKER[k]) else old(buf[k])
      invariant forall k :: i <= k < 8 ==> buf[k] == old(buf[k])
      invariant buf[16..] == old(buf[16..])
    {
      var product: int := i * buf[i] as int;
      buf[8 + i] := product % 256;
      if i <= 5 {
        buf[i] := Xor(buf[i], MARKER[i]);
      }
      i := i + 1;
    }
  }

  /** Both ends run this on the seed: the server for (enc, dec), the client for (dec, enc). */
  method KeyExchange(sha: Sha1, first: CryptBlock, second: CryptBlock, data: array<byte>) returns (proof: array<byte>)
    requires Digests(sha) && data.Length == 16
    requires first.Valid() && second.Valid() && first != second && first.keytable != second.keytable
    requires data != first.keytable && data != second.keytable
    modifies first, first.keytable, second, second.keytable, data
    ensures fresh(proof)
    ensures Keys(first.View(), second.View(), proof[..]) == DeriveKeys(sha, old(data[..]))
  {
    hide CryptByte, CryptData, InitBlock;
    assert data[..16] == data[..];
    XorInPlace(data);
    assert data[..16] == data[..];
    var digest := sha(data[..]);
    proof := new byte[20](i requires 0 <= i < 20 => digest[i]);
    assert proof[..20] == proof[..] == digest;
    assert data[0..0 + 16] == data[..];
    ghost var masked := data[..];
    first.Init(proof, 20);
    first.Crypt(data, 0, 16, DECRYPT);
    assert data[..16] == data[..] == CryptData(InitBlock(digest), masked, DECRYPT).data;
    assert proof[0..0 + 20] == digest;
    second.Init(data, 16);
    second.Crypt(proof, 0, 20, DECRYPT);
  }

  method ServerSeed(random: seq<byte>) returns (data: array<byte>)
    requires |random| == 12
    ensures fresh(data) && data[..] == Seed(random)
  {
    data := new byte[16](i requires 0 <= i < 16 => if i < 12 then random[i] else 0);
    var i := 0;
    while i < 4
      invariant 0 <= i <= 4
      invariant forall k :: 0 <= k < 12 ==> data[k] == random[k]
      invariant forall k :: 0 <= k < i ==> data[12 + k] == CheckByte(random, k)
    {
      var sum: int := data[i] + data[4 + i] + data[8 + i] as int;
      data[12 + i] := sum % 256;
      i := i + 1;
    }
  }

  /** The client's three messages. */
  method ClientLogin(cc: CcData, wire: Wire, proof: seq<byte>, usr: seq<byte>, pwd: seq<byte>)
    requires cc.Valid() && |proof| == 20 && IsCString(usr)
    modifies wire, cc.enc, cc.enc.keytable
    ensures cc.Valid()
    ensures var r := ClientSends(old(cc.enc.View()), proof, usr, pwd);
            cc.enc.View() == r.block && wire.bytes == old(wire.bytes) + r.data
  {
    hide CryptByte, CryptData;
    var n := cc.CmdSend(wire, proof, NoHeader);
    n := cc.CmdSend(wire, NameField(usr), NoHeader);
    var password := CryptBytes(cc.enc, AtMost(pwd, 64), ENCRYPT);
    n := cc.CmdSend(wire, MARKER, NoHeader);
  }

  /** The account loop, over the accounts from the first on. */
  method CheckAccounts(cc: CcData, buf: seq<byte>, accounts: seq<Account>, usr: seq<byte>)
    returns (account: Option<Account>)
    requires cc.Valid() && |buf| == 6
    modifies cc.dec, cc.dec.keytable
    ensures cc.Valid()
    ensures var t := TryAccounts(old(cc.dec.View()), old(cc.dec.View()), buf, accounts, usr);
            account == t.account && cc.dec.View() == t.block
  {
    hide CryptByte, CryptData, NameMatches, AtMost;
    ghost var save := cc.dec.View();
    var saveTable, saveState, saveCounter, saveSum := cc.dec.keytable[..], cc.dec.state, cc.dec.counter, cc.dec.sum;
    var six := buf;
    var i := 0;
    account := None;
    while i < |accounts|
      invariant 0 <= i <= |accounts|
      invariant cc.Valid() && |six| == 6
      invariant TryAccounts(save, cc.dec.View(), six, accounts[i..], usr) == TryAccounts(save, save, buf, accounts, usr)
    {
      if NameMatches(usr, accounts[i]) {
        cc.dec.Restore(saveTable, saveState, saveCounter, saveSum);
        var password := CryptBytes(cc.dec, AtMost(accounts[i].pwd, 64), ENCRYPT);
        six := CryptBytes(cc.dec, six, DECRYPT);
        if six == MARKER {
          account := Some(accounts[i]);
          return;
        }
      }
      assert accounts[i..][1..] == accounts[i + 1..];
      i := i + 1;
    }
  }

  method ServerLogin(cc: CcData, wire: Wire, accounts: seq<Account>) returns (outcome: Outcome)
    requires cc.Valid()
    modifies wire, cc.dec, cc.dec.keytable
    ensures cc.Valid()
    ensures ServerRun(outcome, cc.dec.View()) == ServerReads(old(cc.dec.View()), old(wire.bytes), accounts)
    ensures |old(wire.bytes)| >= 46 && outcome.Accepted? ==> wire.bytes == old(wire.bytes)[46..]
  {
    hide CryptByte, CryptData, TryAccounts;
    ghost var stream := wire.bytes;
    var got := wire.Receive(20);
    if |got| != 20 {
      return Refused(-1);
    }
    assert got == stream[..20] && wire.bytes == stream[20..];
    got := CryptBytes(cc.dec, got, DECRYPT);
    got := wire.Receive(20);
    if |got| != 20 {
      return Refused(-2);
    }
    assert got == stream[20..40] && wire.bytes == stream[40..];
    got := CryptBytes(cc.dec, got, DECRYPT);
    var usr := CString(got);
    if !Printable(usr) {
      return Refused(-3);
    }
    got := wire.Receive(6);
    if |got| != 6 {
      return Refused(-2);
    }
    assert got == stream[40..46] && wire.bytes == stream[46..];
    var account := CheckAccounts(cc, got, accounts, usr);
    outcome := Judge(account, usr);
  }

  ghost predicate Apart(server: CcData, client: CcData) {
    && {server.enc, server.dec} !! {client.enc, client.dec}
    && {server.enc.keytable, server.dec.keytable} !! {client.enc.keytable, client.dec.keytable}
  }

  /** The seed, and both ends' keys from it. */
  method ExchangeKeys(sha: Sha1, server: CcData, client: CcData, random: seq<byte>) returns (proof: seq<byte>)
    requires Digests(sha) && |random| == 12
    requires server.Valid() && client.Valid() && Apart(server, client)
    modifies server.enc, server.enc.keytable, server.dec, server.dec.keytable
    modifies client.enc, client.enc.keytable, client.dec, client.dec.keytable
    ensures server.Valid() && client.Valid()
    ensures DeriveKeys(sha, Seed(random)) == Keys(server.enc.View(), server.dec.View(), proof)
    ensures client.dec.View() == server.enc.View() && client.enc.View() == server.dec.View()
  {
    hide DeriveKeys, Seed;
    var seed := ServerSeed(random);
    var copy := new byte[16](i requires 0 <= i < 16 reads seed => seed[i]);
    assert copy[..] == seed[..];
    var unused := KeyExchange(sha, server.enc, server.dec, seed);
    var digest := KeyExchange(sha, client.dec, client.enc, copy);
    proof := digest[..];
  }

  /** A whole login over two wires, ending in mirrored cipher blocks on both sides. */
  method Handshake(sha: Sha1, server: CcData, client: CcData, random: seq<byte>, accounts: seq<Account>,
                   usr: seq<byte>, pwd: seq<byte>, up: Wire, down: Wire, ghost which: nat)
    returns (outcome: Outcome, accepted: bool)
    requires Digests(sha) && |random| == 12
    requires server.Valid() && client.Valid() && Apart(server, client)
    requires up != down && up.bytes == [] && down.bytes == []
    requires IsCString(usr) && Printable(AtMost(usr, 20))
    requires FirstMatchHas(accounts, AtMost(usr, 20), pwd, which)
    modifies server.enc, server.enc.keytable, server.dec, server.dec.keytable
    modifies client.enc, client.enc.keytable, client.dec, client.dec.keytable, up, down
    ensures server.Valid() && client.Valid()
    ensures outcome == Judge(Some(accounts[which]), AtMost(usr, 20)) && accepted
    ensures client.enc.View() == server.dec.View()
    ensures client.dec.View() == server.enc.View()
  {
    hide CryptByte, CryptData, ServerReads, ClientSends, DeriveKeys, Seed, Judge, AtMost, FirstMatchHas;
    var proof := ExchangeKeys(sha, server, client, random);
    ghost var keys := DeriveKeys(sha, Seed(random));
    LoginMirrors(sha, Seed(random), usr, pwd, accounts, which);
    ClientLogin(client, up, proof, usr, pwd);
    assert up.bytes == ClientSends(keys.second, keys.proof, usr, pwd).data;
    outcome := ServerLogin(server, up, accounts);
    var n := server.CmdSend(down, MARKER + Zeros(14), NoHeader);
    assert down.bytes == Ack(keys.first).data;
    var ack := down.Receive(20);
    assert ack == Ack(keys.first).data;
    ack := CryptBytes(client.dec, ack, DECRYPT);
    assert ClientAccepts(keys.first, Ack(keys.first).data);
    accepted := |ack| == 20 && ack[..5] == MARKER[..5];
  }
}
