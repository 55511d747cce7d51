/**
 Bytes, machine integers in network order, and bitwise exclusive or, written over
 mathematical integers so that no proof has to convert to and from bit vectors.
 */
module Bytes {

  type byte = x: int | 0 <= x < 256
  type u16 = x: int | 0 <= x < 0x1_0000
  type u32 = x: int | 0 <= x < 0x1_0000_0000
  type int8 = x: int | -128 <= x < 128

  /** Conversion to a signed byte. */
  function ToInt8(v: int): int8 {
    (v + 128) % 256 - 128
  }

  datatype Option<+T> = None | Some(value: T)

  // ---------------------------------------------------------------- exclusive or

  function Pow2(w: nat): (p: nat)
    ensures p > 0
  {
    if w == 0 then 1 else 2 * Pow2(w - 1)
  }

  /** The exclusive or of the lowest w bits of a and b. */
  function XorBits(w: nat, a: nat, b: nat): (r: nat)
    ensures r < Pow2(w)
  {
    if w == 0 then 0
    else 2 * XorBits(w - 1, a / 2, b / 2) + (if a % 2 == b % 2 then 0 else 1)
  }

  /** Bit i of a number. */
  function Bit(n: nat, i: nat): nat {
    if i == 0 then n % 2 else Bit(n / 2, i - 1)
  }

  /** A bit of the result is set exactly if it is set in one of the two. */
  lemma {:induction false} XorIsBitwise(w: nat, a: nat, b: nat, i: nat)
    requires i < w
    ensures Bit(XorBits(w, a, b), i) == if Bit(a, i) == Bit(b, i) then 0 else 1
  {
    if i > 0 {
      XorIsBitwise(w - 1, a / 2, b / 2, i - 1);
      assert XorBits(w, a, b) / 2 == XorBits(w - 1, a / 2, b / 2);
    }
  }

  lemma {:induction false} XorBitsCancel(w: nat, a: nat, b: nat)
    requires a < Pow2(w)
    ensures XorBits(w, XorBits(w, a, b), b) == a
  {
    if w == 0 {
    } else {
      XorBitsCancel(w - 1, a / 2, b / 2);
      var r := XorBits(w, a, b);
      assert r / 2 == XorBits(w - 1, a / 2, b / 2);
    }
  }

  lemma {:induction false} XorBitsExchange(w: nat, a: nat, b: nat, c: nat)
    ensures XorBits(w, XorBits(w, a, b), c) == XorBits(w, XorBits(w, a, c), b)
  {
    if w == 0 {
    } else {
      XorBitsExchange(w - 1, a / 2, b / 2, c / 2);
      assert XorBits(w, a, b) / 2 == XorBits(w - 1, a / 2, b / 2);
      assert XorBits(w, a, c) / 2 == XorBits(w - 1, a / 2, c / 2);
    }
  }

  function Xor(a: byte, b: byte): byte {
    assert Pow2(8) == 256 by {
      assert Pow2(4) == 16;
      assert Pow2(6) == 64;
    }
    XorBits(8, a, b)
  }

  /** Two masks applied twice, in the same order, cancel. */
  lemma {:induction false} XorTwiceCancels(x: byte, k: byte, s: byte)
    ensures Xor(Xor(Xor(Xor(x, k), s), k), s) == x
  {
    assert Pow2(8) == 256 by {
      assert Pow2(4) == 16;
      assert Pow2(6) == 64;
    }
    XorBitsExchange(8, Xor(x, k), s, k);
    XorBitsCancel(8, x, k);
    XorBitsCancel(8, x, s);
  }

  // ---------------------------------------------------------------- network order

  function U16Bytes(v: u16): seq<byte> { [v / 256, v % 256] }

  function U24Bytes(v: nat): seq<byte> { [v / 256 / 256 % 256, v / 256 % 256, v % 256] }

  function U32Bytes(v: u32): seq<byte> {
    [v / 256 / 256 / 256, v / 256 / 256 % 256, v / 256 % 256, v % 256]
  }

  /** The number in the n bytes at i, most significant byte first. */
  function BytesToInt(s: seq<byte>, i: nat, n: nat): nat
    requires i + n <= |s|
  {
    if n == 0 then 0 else BytesToInt(s, i, n - 1) * 256 + s[i + n - 1]
  }

  lemma {:induction false} BytesToIntValues(s: seq<byte>, i: nat)
    ensures i + 2 <= |s| ==> BytesToInt(s, i, 2) == (s[i] as int) * 256 + s[i + 1]
    ensures i + 3 <= |s| ==> BytesToInt(s, i, 3) == (s[i] as int) * 0x1_0000 + (s[i + 1] as int) * 256 + s[i + 2]
    ensures i + 4 <= |s| ==>
              BytesToInt(s, i, 4) ==
              (s[i] as int) * 0x100_0000 + (s[i + 1] as int) * 0x1_0000 + (s[i + 2] as int) * 256 + s[i + 3]
  {
    if i + 2 <= |s| {
      assert BytesToInt(s, i, 1) == s[i];
      assert BytesToInt(s, i, 2) == BytesToInt(s, i, 1) * 256 + s[i + 1];
    }
    if i + 3 <= |s| {
      assert BytesToInt(s, i, 3) == BytesToInt(s, i, 2) * 256 + s[i + 2];
    }
    if i + 4 <= |s| {
      assert BytesToInt(s, i, 4) == BytesToInt(s, i, 3) * 256 + s[i + 3];
    }
  }

  lemma {:induction false} U16RoundTrip(s: seq<byte>, i: nat, v: u16)
    requires i + 2 <= |s| && s[i..i + 2] == U16Bytes(v)
    ensures BytesToInt(s, i, 2) == v
  {
    BytesToIntValues(s, i);
    assert s[i] == s[i..i + 2][0] && s[i + 1] == s[i..i + 2][1];
  }

  lemma {:induction false} U24RoundTrip(s: seq<byte>, i: nat, v: nat)
    requires i + 3 <= |s| && s[i..i + 3] == U24Bytes(v) && v < 0x100_0000
    ensures BytesToInt(s, i, 3) == v
  {
    BytesToIntValues(s, i);
    assert s[i] == s[i..i + 3][0] && s[i + 1] == s[i..i + 3][1] && s[i + 2] == s[i..i + 3][2];
  }

  lemma {:induction false} U32RoundTrip(s: seq<byte>, i: nat, v: u32)
    requires i + 4 <= |s| && s[i..i + 4] == U32Bytes(v)
    ensures BytesToInt(s, i, 4) == v
  {
    BytesToIntValues(s, i);
    var t := s[i..i + 4];
    assert s[i] == t[0] && s[i + 1] == t[1] && s[i + 2] == t[2] && s[i + 3] == t[3];
  }

  // ---------------------------------------------------------------- sequences

  function Flatten<T>(parts: seq<seq<T>>): seq<T> {
    if parts == [] then [] else Flatten(parts[..|parts| - 1]) + parts[|parts| - 1]
  }

  lemma {:induction false} FlattenConcat<T>(a: seq<seq<T>>, b: seq<seq<T>>)
    ensures Flatten(a + b) == Flatten(a) + Flatten(b)
  {
    if b == [] {
      assert a + b == a;
    } else {
      var n := |b| - 1;
      FlattenConcat(a, b[..n]);
      assert (a + b)[..|a + b| - 1] == a + b[..n];
      assert Flatten(a) + (Flatten(b[..n]) + b[n]) == (Flatten(a) + Flatten(b[..n])) + b[n];
    }
  }

  function Zeros(n: nat): (z: seq<byte>)
    ensures |z| == n
  {
    seq(n, _ => 0)
  }

  /** The first index whose element passes, or the length of the sequence. */
  function First<T>(s: seq<T>, passes: T -> bool): (i: nat)
    ensures i <= |s|
    ensures i < |s| ==> passes(s[i])
    ensures forall k :: 0 <= k < i ==> !passes(s[k])
  {
    if s == [] || passes(s[0]) then 0
    else
      assert forall k :: 1 <= k < |s| ==> s[k] == s[1..][k - 1];
      1 + First(s[1..], passes)
  }

  function AtMost<T>(s: seq<T>, n: nat): (r: seq<T>)
    ensures |r| <= n && r <= s
  {
    if |s| <= n then s else s[..n]
  }

  lemma {:induction false} SubSlice<T>(s: seq<T>, a: nat, b: nat, x: nat, y: nat)
    requires a <= b <= |s| && x <= y && a + y <= b
    ensures s[a..b][x..y] == s[a + x..a + y]
  {
    var u, v := s[a..b][x..y], s[a + x..a + y];
    assert |u| == |v| && forall k :: 0 <= k < |u| ==> u[k] == s[a + (x + k)] && v[k] == s[(a + x) + k];
  }

  ghost predicate AllWide<T>(parts: seq<seq<T>>, w: nat) {
    forall i :: 0 <= i < |parts| ==> |parts[i]| == w
  }

  lemma {:induction false} FlattenLength<T>(parts: seq<seq<T>>, w: nat)
    requires AllWide(parts, w)
    ensures |Flatten(parts)| == w * |parts|
  {
    if parts == [] {
    } else {
      var n := |parts| - 1;
      FlattenLength(parts[..n], w);
      assert w * (n + 1) == w * n + w;
    }
  }

  /** Parts of equal width are found at multiples of it. */
  lemma {:induction false} FlattenAt<T>(parts: seq<seq<T>>, w: nat, i: nat, at: nat)
    requires AllWide(parts, w) && i < |parts| && at == w * i
    ensures at + w <= |Flatten(parts)|
    ensures Flatten(parts)[at..at + w] == parts[i]
    decreases |parts|
  {
    var n := |parts| - 1;
    FlattenLength(parts[..n], w);
    if i == n {
    } else {
      FlattenAt(parts[..n], w, i, at);
      assert Flatten(parts)[at..at + w] == Flatten(parts[..n])[at..at + w];
    }
  }

  ghost predicate NoDuplicates<T>(s: seq<T>) {
    forall i, j :: 0 <= i < j < |s| ==> s[i] != s[j]
  }

  lemma {:induction false} DistinctFit<T>(path: seq<T>, all: set<T>)
    requires NoDuplicates(path) && forall n :: n in path ==> n in all
    ensures |path| <= |all|
  {
    if path == [] {
    } else {
      var k := |path| - 1;
      DistinctFit(path[..k], all - {path[k]});
    }
  }

  /** All but the element at i. */
  function Without<T>(s: seq<T>, i: nat): seq<T>
    requires i < |s|
  {
    s[..i] + s[i + 1..]
  }

  lemma {:induction false} WithoutIn<T>(s: seq<T>, i: nat)
    requires i < |s|
    ensures forall x :: x in Without(s, i) ==> x in s
  {
  }
}
