/**
 RFC 3394 key wrap (boringssl/android_compat_keywrap.c): the in-place loops of AES_wrap_key and
 AES_unwrap_key compute the shift-register definitions of sections 2.2.1 and 2.2.2, and undo each other.
 The block cipher under a fixed key is a parameter.
 */
module KeyWrap {
  import opened Bytes

  type Octets = seq<bv8>

  /** C's unsigned int; arithmetic on it is verified not to wrap. */
  newtype u32 = x: int | 0 <= x < 0x1_0000_0000

  type Cipher = Octets -> Octets

  ghost predicate OnBlocks(f: Cipher) {
    forall b: Octets :: |b| == 16 ==> |f(b)| == 16
  }

  /** g undoes f on blocks of 16 bytes. */
  ghost predicate Undoes(g: Cipher, f: Cipher) {
    forall b: Octets :: |b| == 16 ==> g(f(b)) == b
  }

  const DEFAULT_IV: Octets := [0xA6, 0xA6, 0xA6, 0xA6, 0xA6, 0xA6, 0xA6, 0xA6]

  function Iv(iv: Option<Octets>): (r: Octets)
    ensures iv.None? ==> |r| == 8 && forall i :: 0 <= i < 8 ==> r[i] == 0xA6
    ensures iv.Some? ==> r == iv.value
  {
    if iv.None? then DEFAULT_IV else iv.value
  }

  function Xor(a: Octets, b: Octets): (c: Octets)
    requires |a| == |b|
    ensures |c| == |a| && forall i :: 0 <= i < |a| ==> c[i] == a[i] ^ b[i]
  {
    seq(|a|, i requires 0 <= i < |a| => a[i] ^ b[i])
  }

  lemma XorTwice(a: Octets, b: Octets)
    requires |a| == |b|
    ensures Xor(Xor(a, b), b) == a
  {
    forall i | 0 <= i < |a| ensures Xor(Xor(a, b), b)[i] == a[i] {
      assert (a[i] ^ b[i]) ^ b[i] == a[i];
    }
  }

  // ---------------------------------------------------------------- the step counter

  function Octet(b: byte): bv8 { b as bv8 }

  function Low(t: nat): bv8 { Octet(t % 256) }

  function Mapped<T>(f: byte -> T, s: seq<byte>): (r: seq<T>)
    ensures |r| == |s|
  {
    seq(|s|, i requires 0 <= i < |s| => f(s[i]))
  }

  /** The last n base-256 digits of t, most significant first. */
  function Digits(n: nat, t: nat): (s: seq<byte>)
    ensures |s| == n
  {
    if n == 0 then [] else Digits(n - 1, t / 256) + [t % 256]
  }

  /** The number a byte string spells. */
  function Number(s: seq<byte>): nat {
    if s == [] then 0 else 256 * Number(s[..|s| - 1]) + s[|s| - 1]
  }

  /** Digits is the big-endian encoding the RFC speaks of: it spells t, as long as t fits. */
  lemma {:induction false} DigitsSpell(n: nat, t: nat)
    requires t < Pow256(n)
    ensures Number(Digits(n, t)) == t
  {
    if n > 0 {
      var s := Digits(n, t);
      assert s[..n - 1] == Digits(n - 1, t / 256) && s[n - 1] == t % 256;
      DigitsSpell(n - 1, t / 256);
    }
  }

  function BigEndian(n: nat, t: nat): (s: Octets)
    ensures |s| == n
  {
    Mapped(Octet, Digits(n, t))
  }

  /** The counter as AES_wrap_key applies it: one byte, and three more when t exceeds 0xff. */
  function Stirred(a: Octets, t: nat): Octets
    requires |a| == 8
  {
    Stir(a, t > 0xff, Low(t / 0x100_0000), Low(t / 0x1_0000), Low(t / 256), Low(t))
  }

  function Stir(a: Octets, big: bool, b4: bv8, b5: bv8, b6: bv8, b7: bv8): Octets
    requires |a| == 8
  {
    if big then a[..4] + [a[4] ^ b4, a[5] ^ b5, a[6] ^ b6, a[7] ^ b7] else a[..7] + [a[7] ^ b7]
  }

  lemma ZeroDigits(n: nat)
    ensures Digits(n, 0) == seq(n, i => 0)
  {
    if n > 0 {
      ZeroDigits(n - 1);
    }
  }

  lemma Shifts(t: nat)
    ensures t / 256 / 256 == t / 0x1_0000 && t / 0x1_0000 / 256 == t / 0x100_0000
    ensures t < 0x1_0000_0000 ==> t / 0x100_0000 / 256 == 0
  {}

  lemma LastDigit(n: nat, t: nat, q: nat)
    requires n > 0 && q == t / 256
    ensures Digits(n, t) == Digits(n - 1, q) + [t % 256]
  {}

  lemma FourDigits(t: nat, b: nat, c: nat, d: nat)
    requires t / 256 == b && b / 256 == c && c / 256 == d && d / 256 == 0
    ensures Digits(8, t) == [0, 0, 0, 0] + [d % 256, c % 256, b % 256, t % 256]
  {
    LastDigit(8, t, b);
    LastDigit(7, b, c);
    LastDigit(6, c, d);
    LastDigit(5, d, 0);
    ZeroDigits(4);
  }

  lemma MappedLast<T>(f: byte -> T, s: seq<byte>, d: byte, c: byte, b: byte, t: byte)
    requires s == [0, 0, 0, 0] + [d, c, b, t]
    ensures Mapped(f, s) == [f(0), f(0), f(0), f(0)] + [f(d), f(c), f(b), f(t)]
  {
    assert s[0] == s[1] == s[2] == s[3] == 0;
    assert s[4] == d && s[5] == c && s[6] == b && s[7] == t;
  }

  lemma CounterBytes(t: nat)
    requires t < 0x1_0000_0000
    ensures BigEndian(8, t) == [0, 0, 0, 0] + [Low(t / 0x100_0000), Low(t / 0x1_0000), Low(t / 256), Low(t)]
  {
    Shifts(t);
    FourDigits(t, t / 256, t / 0x1_0000, t / 0x100_0000);
    MappedLast(Octet, Digits(8, t), t / 0x100_0000 % 256, t / 0x1_0000 % 256, t / 256 % 256, t % 256);
  }

  /** XOR with four zero bytes and four others. */
  lemma XorTail(a: Octets, z: Octets, b: Octets)
    requires |a| == 8 && |z| == 4 && |b| == 4 && forall i :: 0 <= i < 4 ==> z[i] == 0
    ensures Xor(a, z + b) == a[..4] + Xor(a[4..], b)
  {
    forall i | 0 <= i < 8 ensures Xor(a, z + b)[i] == (a[..4] + Xor(a[4..], b))[i] {
      if i < 4 {
        assert a[i] ^ 0 == a[i];
      }
    }
  }

  /** The conditional byte operations are one XOR with the 64-bit big-endian counter. */
  lemma StirredIsXor(a: Octets, t: nat)
    requires |a| == 8 && t < 0x1_0000_0000
    ensures Stirred(a, t) == Xor(a, BigEndian(8, t))
  {
    CounterBytes(t);
    var b := [Low(t / 0x100_0000), Low(t / 0x1_0000), Low(t / 256), Low(t)];
    XorTail(a, [0, 0, 0, 0], b);
    if t <= 0xff {
      SmallCounter(t);
    }
    StirTail(a, t > 0xff, b[0], b[1], b[2], b[3]);
  }

  lemma SmallCounter(t: nat)
    requires t <= 0xff
    ensures Low(t / 0x100_0000) == 0 && Low(t / 0x1_0000) == 0 && Low(t / 256) == 0
  {
    assert t / 0x100_0000 == 0 && t / 0x1_0000 == 0 && t / 256 == 0;
  }

  lemma XorByte(a: Octets, b: Octets, i: nat)
    requires |a| == 8 && |b| == 4 && i < 4
    ensures Xor(a[4..], b)[i] == a[4 + i] ^ b[i]
  {}

  lemma FourBytes(x: Octets, c0: bv8, c1: bv8, c2: bv8, c3: bv8)
    requires |x| == 4 && x[0] == c0 && x[1] == c1 && x[2] == c2 && x[3] == c3
    ensures x == [c0, c1, c2, c3]
  {}

  lemma XorFour(a: Octets, b: Octets)
    requires |a| == 8 && |b| == 4
    ensures Xor(a[4..], b) == [a[4] ^ b[0], a[5] ^ b[1], a[6] ^ b[2], a[7] ^ b[3]]
  {
    XorByte(a, b, 0);
    XorByte(a, b, 1);
    XorByte(a, b, 2);
    XorByte(a, b, 3);
    FourBytes(Xor(a[4..], b), a[4] ^ b[0], a[5] ^ b[1], a[6] ^ b[2], a[7] ^ b[3]);
  }

  lemma XorZero(x: bv8)
    ensures x ^ 0 == x
  {}

  /** Leaving three bytes alone is XOR with three zeros. */
  lemma StirSmall(a: Octets, b7: bv8)
    requires |a| == 8
    ensures Stir(a, false, 0, 0, 0, b7) == a[..4] + [a[4] ^ 0, a[5] ^ 0, a[6] ^ 0, a[7] ^ b7]
  {
    XorZero(a[4]);
    XorZero(a[5]);
    XorZero(a[6]);
    assert a[..7] == a[..4] + [a[4], a[5], a[6]];
  }

  lemma StirTail(a: Octets, big: bool, b4: bv8, b5: bv8, b6: bv8, b7: bv8)
    requires |a| == 8 && (!big ==> b4 == 0 && b5 == 0 && b6 == 0)
    ensures Stir(a, big, b4, b5, b6, b7) == a[..4] + Xor(a[4..], [b4, b5, b6, b7])
  {
    XorFour(a, [b4, b5, b6, b7]);
    if !big {
      StirSmall(a, b7);
    }
  }

  // ---------------------------------------------------------------- sections 2.2.1 and 2.2.2 of RFC 3394

  /** Steps 1 to t of a process, and steps t to 1 of another. */
  ghost function Up<X>(s: (nat, X) -> X, x: X, t: nat): X {
    if t == 0 then x else s(t, Up(s, x, t - 1))
  }

  ghost function Down<X>(u: (nat, X) -> X, x: X, t: nat): X
    decreases t
  {
    if t == 0 then x else Down(u, u(t, x), t - 1)
  }

  lemma {:induction false} DownUp<X(!new)>(s: (nat, X) -> X, u: (nat, X) -> X, x: X, t: nat)
    requires forall k: nat, y: X :: u(k, s(k, y)) == y
    ensures Down(u, Up(s, x, t), t) == x
    decreases t
  {
    if t > 0 {
      DownUp(s, u, x, t - 1);
    }
  }

  lemma {:induction false} UpDown<X(!new)>(s: (nat, X) -> X, u: (nat, X) -> X, x: X, t: nat)
    requires forall k: nat, y: X :: s(k, u(k, y)) == y
    ensures Up(s, Down(u, x, t), t) == x
    decreases t
  {
    if t > 0 {
      UpDown(s, u, u(t, x), t - 1);
    }
  }

  /** The value XORed into A at each step. */
  type Stamps = nat -> Octets

  ghost predicate Stamped(s: Stamps) {
    forall t: nat :: |s(t)| == 8
  }

  /** The RFC's choice: the step number as 64 bits. */
  function Counter(t: nat): Octets { BigEndian(8, t) }

  /** It is the eight bytes that spell t. */
  lemma CounterSpells(t: nat) returns (s: seq<byte>)
    requires t < Pow256(8)
    ensures |s| == 8 && Number(s) == t && |Counter(t)| == 8 && forall i :: 0 <= i < 8 ==> Counter(t)[i] == s[i] as bv8
  {
    s := Digits(8, t);
    DigitsSpell(8, t);
    forall i | 0 <= i < 8 ensures Counter(t)[i] == s[i] as bv8 {
      assert Counter(t)[i] == Octet(s[i]);
    }
  }

  /** The registers A and R[1..n], the latter as one string of 8n bytes. */
  datatype Reg = Reg(a: Octets, r: Octets) {
    predicate Valid() {
      |a| == 8 && |r| % 8 == 0 && |r| >= 8
    }
  }

  /** One step of section 2.2.1: the registers shift down, the new block enters at the top. */
  function WrapStep(f: Cipher, s: Octets, x: Reg): (y: Reg)
    requires x.Valid() && OnBlocks(f) && |s| == 8
    ensures y.Valid() && |y.r| == |x.r|
  {
    var b := f(x.a + x.r[..8]);
    Reg(Xor(b[..8], s), x.r[8..] + b[8..])
  }

  /** One step of section 2.2.2: the registers shift up, the new block enters at the bottom. */
  function UnwrapStep(g: Cipher, s: Octets, x: Reg): (y: Reg)
    requires x.Valid() && OnBlocks(g) && |s| == 8
    ensures y.Valid() && |y.r| == |x.r|
  {
    var n := |x.r| - 8;
    var b := g(Xor(x.a, s) + x.r[n..]);
    Reg(b[..8], b[8..] + x.r[..n])
  }

  /** Steps 1 to t. */
  ghost function WrapSteps(f: Cipher, s: Stamps, x: Reg, t: nat): (y: Reg)
    requires x.Valid() && OnBlocks(f) && Stamped(s)
    ensures y.Valid() && |y.r| == |x.r|
  {
    if t == 0 then x else WrapStep(f, s(t), WrapSteps(f, s, x, t - 1))
  }

  /** Steps t down to 1. */
  ghost function UnwrapSteps(g: Cipher, s: Stamps, x: Reg, t: nat): (y: Reg)
    requires x.Valid() && OnBlocks(g) && Stamped(s)
    ensures y.Valid() && |y.r| == |x.r|
    decreases t
  {
    if t == 0 then x else UnwrapSteps(g, s, UnwrapStep(g, s(t), x), t - 1)
  }

  ghost function Wrapping(f: Cipher, s: Stamps): (nat, Reg) -> Reg
    requires OnBlocks(f) && Stamped(s)
  {
    (t: nat, x: Reg) => if x.Valid() then WrapStep(f, s(t), x) else x
  }

  ghost function Unwrapping(g: Cipher, s: Stamps): (nat, Reg) -> Reg
    requires OnBlocks(g) && Stamped(s)
  {
    (t: nat, x: Reg) => if x.Valid() then UnwrapStep(g, s(t), x) else x
  }

  lemma {:induction false} AsUp(f: Cipher, s: Stamps, x: Reg, t: nat)
    requires x.Valid() && OnBlocks(f) && Stamped(s)
    ensures WrapSteps(f, s, x, t) == Up(Wrapping(f, s), x, t)
  {
    if t > 0 { AsUp(f, s, x, t - 1); }
  }

  lemma {:induction false} AsDown(g: Cipher, s: Stamps, x: Reg, t: nat)
    requires x.Valid() && OnBlocks(g) && Stamped(s)
    ensures UnwrapSteps(g, s, x, t) == Down(Unwrapping(g, s), x, t)
    decreases t
  {
    if t > 0 { AsDown(g, s, UnwrapStep(g, s(t), x), t - 1); }
  }

  lemma UnwrapWrapStep(f: Cipher, g: Cipher, s: Octets, x: Reg)
    requires x.Valid() && OnBlocks(f) && OnBlocks(g) && Undoes(g, f) && |s| == 8
    ensures UnwrapStep(g, s, WrapStep(f, s, x)) == x
  {
    var b := f(x.a + x.r[..8]);
    XorTwice(b[..8], s);
    assert b[..8] + b[8..] == b;
    assert (x.a + x.r[..8])[..8] == x.a && (x.a + x.r[..8])[8..] == x.r[..8];
    var r := x.r[8..] + b[8..];
    assert r[..|r| - 8] == x.r[8..] && r[|r| - 8..] == b[8..];
    assert x.r[..8] + x.r[8..] == x.r;
  }

  lemma WrapUnwrapStep(f: Cipher, g: Cipher, s: Octets, x: Reg)
    requires x.Valid() && OnBlocks(f) && OnBlocks(g) && Undoes(f, g) && |s| == 8
    ensures WrapStep(f, s, UnwrapStep(g, s, x)) == x
  {
    var n := |x.r| - 8;
    var a := Xor(x.a, s);
    var b := g(a + x.r[n..]);
    assert b[..8] + b[8..] == b;
    assert (a + x.r[n..])[..8] == a && (a + x.r[n..])[8..] == x.r[n..];
    XorTwice(x.a, s);
    var r := b[8..] + x.r[..n];
    assert r[..8] == b[8..] && r[8..] == x.r[..n];
    assert x.r[..n] + x.r[n..] == x.r;
  }

  /** If decryption inverts encryption, unwrapping undoes wrapping. */
  lemma UnwrapWrapSteps(f: Cipher, g: Cipher, s: Stamps, x: Reg, t: nat)
    requires x.Valid() && OnBlocks(f) && OnBlocks(g) && Undoes(g, f) && Stamped(s)
    ensures UnwrapSteps(g, s, WrapSteps(f, s, x, t), t) == x
  {
    forall k, y: Reg | y.Valid() ensures UnwrapStep(g, s(k), WrapStep(f, s(k), y)) == y {
      UnwrapWrapStep(f, g, s(k), y);
    }
    DownUp(Wrapping(f, s), Unwrapping(g, s), x, t);
    AsUp(f, s, x, t);
    AsDown(g, s, WrapSteps(f, s, x, t), t);
  }

  /** If encryption inverts decryption, wrapping undoes unwrapping. */
  lemma WrapUnwrapSteps(f: Cipher, g: Cipher, s: Stamps, x: Reg, t: nat)
    requires x.Valid() && OnBlocks(f) && OnBlocks(g) && Undoes(f, g) && Stamped(s)
    ensures WrapSteps(f, s, UnwrapSteps(g, s, x, t), t) == x
  {
    forall k, y: Reg | y.Valid() ensures WrapStep(f, s(k), UnwrapStep(g, s(k), y)) == y {
      WrapUnwrapStep(f, g, s(k), y);
    }
    UpDown(Wrapping(f, s), Unwrapping(g, s), x, t);
    AsDown(g, s, x, t);
    AsUp(f, s, UnwrapSteps(g, s, x, t), t);
  }

  // ---------------------------------------------------------------- the key wrap as a whole

  predicate Wrappable(n: nat) { n % 8 == 0 && n >= 8 }

  /** The length of a wrapped key. */
  predicate Unwrappable(n: nat) { n >= 8 && Wrappable(n - 8) }

  ghost function Wrap(f: Cipher, iv: Octets, p: Octets): (c: Octets)
    requires OnBlocks(f) && |iv| == 8 && Wrappable(|p|)
    ensures |c| == |p| + 8
  {
    var y := WrapSteps(f, Counter, Reg(iv, p), 6 * (|p| / 8));
    y.a + y.r
  }

  ghost function Unwrapped(g: Cipher, c: Octets): (y: Reg)
    requires OnBlocks(g) && |c| >= 8 && Wrappable(|c| - 8)
    ensures y.Valid() && |y.r| == |c| - 8
  {
    UnwrapSteps(g, Counter, Reg(c[..8], c[8..]), 6 * ((|c| - 8) / 8))
  }

  /** None when the integrity check fails. */
  ghost function Unwrap(g: Cipher, iv: Octets, c: Octets): Option<Octets>
    requires OnBlocks(g) && |iv| == 8 && |c| >= 8 && Wrappable(|c| - 8)
  {
    var y := Unwrapped(g, c);
    if y.a == iv then Some(y.r) else None
  }

  /** Unwrapping a wrapped key returns the key. */
  lemma UnwrapOfWrap(f: Cipher, g: Cipher, iv: Octets, p: Octets)
    requires OnBlocks(f) && OnBlocks(g) && Undoes(g, f) && |iv| == 8 && Wrappable(|p|)
    ensures Unwrap(g, iv, Wrap(f, iv, p)) == Some(p)
  {
    var s := 6 * (|p| / 8);
    var y := WrapSteps(f, Counter, Reg(iv, p), s);
    var c := y.a + y.r;
    assert c[..8] == y.a && c[8..] == y.r;
    UnwrapWrapSteps(f, g, Counter, Reg(iv, p), s);
  }

  /** A ciphertext is accepted exactly when it is the wrap of some key, and then that key is returned. */
  lemma AcceptedIsWrapped(f: Cipher, g: Cipher, iv: Octets, c: Octets, p: Octets)
    requires OnBlocks(f) && OnBlocks(g) && Undoes(f, g) && Undoes(g, f) && |iv| == 8
    requires |c| >= 8 && Wrappable(|c| - 8)
    ensures Unwrap(g, iv, c) == Some(p) <==> Wrappable(|p|) && Wrap(f, iv, p) == c
  {
    if Wrappable(|p|) && Wrap(f, iv, p) == c {
      UnwrapOfWrap(f, g, iv, p);
    }
    if Unwrap(g, iv, c) == Some(p) {
      WrapUnwrapSteps(f, g, Counter, Reg(c[..8], c[8..]), 6 * (|p| / 8));
      assert c[..8] + c[8..] == c;
    }
  }

  // ---------------------------------------------------------------- the loops of the C code

  lemma StirAt(a: Octets, c: Octets, big: bool, b4: bv8, b5: bv8, b6: bv8, b7: bv8)
    requires |a| == 8 && |c| == 8 && forall k :: 0 <= k < 4 ==> c[k] == a[k]
    requires c[7] == a[7] ^ b7
    requires if big then c[4] == a[4] ^ b4 && c[5] == a[5] ^ b5 && c[6] == a[6] ^ b6 else c[4..7] == a[4..7]
    ensures c == Stir(a, big, b4, b5, b6, b7)
  {
    var d := Stir(a, big, b4, b5, b6, b7);
    if !big {
      forall k | 4 <= k < 7 ensures c[k] == a[k] { assert c[4..7][k - 4] == a[4..7][k - 4]; }
    }
    forall k | 0 <= k < 8 ensures c[k] == d[k] {}
  }

  /** The counter statements: A[7] always, A[6], A[5] and A[4] once the counter exceeds one byte. */
  method ApplyCounter(b: array<bv8>, big: bool, b4: bv8, b5: bv8, b6: bv8, b7: bv8)
    requires b.Length == 16
    modifies b
    ensures b[..8] == Stir(old(b[..8]), big, b4, b5, b6, b7) && b[8..] == old(b[8..])
  {
    b[7] := b[7] ^ b7;
    if big {
      b[6] := b[6] ^ b6;
      b[5] := b[5] ^ b5;
      b[4] := b[4] ^ b4;
    }
    StirAt(old(b[..8]), b[..8], big, b4, b5, b6, b7);
  }

  /** B is replaced by its image under the cipher. */
  method Crypt(f: Cipher, b: array<bv8>)
    requires OnBlocks(f) && b.Length == 16
    modifies b
    ensures b[..] == f(old(b[..]))
  {
    var c := f(b[..]);
    forall k | 0 <= k < 16 { b[k] := c[k]; }
  }

  /** memcpy(B + 8, R, 8) */
  method Load(b: array<bv8>, out: array<bv8>, r: nat)
    requires b.Length == 16 && out != b && r + 8 <= out.Length
    modifies b
    ensures b[..8] == old(b[..8]) && b[8..] == out[..][r..r + 8] && b[..] == b[..8] + b[8..]
  {
    forall k | 0 <= k < 8 { b[8 + k] := out[r + k]; }
  }

  /** memcpy(R, B + 8, 8) */
  method Store(b: array<bv8>, out: array<bv8>, r: nat)
    requires b.Length == 16 && out != b && r + 8 <= out.Length
    modifies out
    ensures out[..] == Overwritten(old(out[..]), r, b[8..])
  {
    forall k | 0 <= k < 8 { out[r + k] := b[8 + k]; }
  }

  /** The body of the inner wrap loop: R is out[r..r + 8], A is b[..8]. */
  method WrapBlock(f: Cipher, out: array<bv8>, b: array<bv8>, r: nat, t: u32)
    requires OnBlocks(f) && b.Length == 16 && out != b && r + 8 <= out.Length
    modifies out, b
    ensures var c := f(old(b[..8]) + old(out[..][r..r + 8]));
      b[..8] == Xor(c[..8], Counter(t as nat)) && out[..] == Overwritten(old(out[..]), r, c[8..])
  {
    Load(b, out, r);
    Crypt(f, b);
    ghost var c := b[..];
    StirredIsXor(c[..8], t as nat);
    assert b[..8] == c[..8] && b[8..] == c[8..];
    ApplyCounter(b, t > 0xff, Low(t as nat / 0x100_0000), Low(t as nat / 0x1_0000), Low(t as nat / 256), Low(t as nat));
    Store(b, out, r);
  }

  /** The body of the inner unwrap loop. */
  method UnwrapBlock(g: Cipher, out: array<bv8>, b: array<bv8>, r: nat, t: u32)
    requires OnBlocks(g) && b.Length == 16 && out != b && r + 8 <= out.Length
    modifies out, b
    ensures var c := g(Xor(old(b[..8]), Counter(t as nat)) + old(out[..][r..r + 8]));
      b[..8] == c[..8] && out[..] == Overwritten(old(out[..]), r, c[8..])
  {
    StirredIsXor(b[..8], t as nat);
    ApplyCounter(b, t > 0xff, Low(t as nat / 0x100_0000), Low(t as nat / 0x1_0000), Low(t as nat / 256), Low(t as nat));
    Load(b, out, r);
    Crypt(g, b);
    ghost var c := b[..];
    assert b[..8] == c[..8] && b[8..] == c[8..];
    Store(b, out, r);
  }

  /** The bytes from k on, then those before k. */
  function Rotated(q: Octets, k: nat): Octets
    requires k <= |q|
  {
    q[k..] + q[..k]
  }

  /** The bytes of q with the eight from k on overwritten. */
  function Overwritten(q: Octets, k: nat, c: Octets): Octets
    requires k + 8 <= |q|
  {
    q[..k] + c + q[k + 8..]
  }

  /** Rewriting a block in place, and looking one block further, is one step of the shift register. */
  lemma RotateWrap(f: Cipher, s: Octets, a: Octets, q: Octets, k: nat)
    requires OnBlocks(f) && |s| == 8 && |a| == 8 && Wrappable(|q|) && k + 8 <= |q|
    ensures var c := f(a + q[k..k + 8]);
      WrapStep(f, s, Reg(a, Rotated(q, k))) == Reg(Xor(c[..8], s), Rotated(Overwritten(q, k, c[8..]), k + 8))
  {
    var c := f(a + q[k..k + 8]);
    var r, q' := Rotated(q, k), Overwritten(q, k, c[8..]);
    assert r[..8] == q[k..k + 8];
    assert r[8..] == q[k + 8..] + q[..k];
    assert q'[k + 8..] == q[k + 8..] && q'[..k + 8] == q[..k] + c[8..];
  }

  lemma RotateUnwrap(g: Cipher, s: Octets, a: Octets, q: Octets, k: nat)
    requires OnBlocks(g) && |s| == 8 && |a| == 8 && Wrappable(|q|) && k + 8 <= |q|
    ensures var c := g(Xor(a, s) + q[k..k + 8]);
      UnwrapStep(g, s, Reg(a, Rotated(q, k + 8))) == Reg(c[..8], Rotated(Overwritten(q, k, c[8..]), k))
  {
    var c := g(Xor(a, s) + q[k..k + 8]);
    var r, q' := Rotated(q, k + 8), Overwritten(q, k, c[8..]);
    assert r[|q| - 8..] == q[k..k + 8];
    assert r[..|q| - 8] == q[k + 8..] + q[..k];
    assert q'[k..] == c[8..] + q[k + 8..] && q'[..k] == q[..k];
  }

  /** The registers as the loops keep them: A in b, R in out from lo on, rotated by k. */
  ghost function RegAt(out: array<bv8>, b: array<bv8>, lo: nat, n: nat, k: nat): Reg
    requires lo + n <= out.Length && k <= n && b.Length == 16
    reads out, b
  {
    Reg(b[..8], Rotated(out[..][lo..lo + n], k))
  }

  /** Overwriting eight bytes of the buffer, seen from the key bytes in it. */
  lemma KeyBytes(o: Octets, lo: nat, n: nat, k: nat, c: Octets)
    requires lo + n <= |o| && k + 8 <= n && |c| == 8
    ensures var o' := Overwritten(o, lo + k, c);
      |o'| == |o| && o'[..lo] == o[..lo] && o'[lo + n..] == o[lo + n..]
      && o'[lo..lo + n] == Overwritten(o[lo..lo + n], k, c)
    ensures o[lo..lo + n][k..k + 8] == o[lo + k..lo + k + 8]
  {
    SliceOfSlice(o, lo, lo + n, k, k + 8);
    SliceOfSlice(o, lo, lo + n, 0, k);
    SliceOfSlice(o, lo, lo + n, k + 8, n);
  }

  /** One turn of the inner loops, as far as the values go: in the buffer o, and in the key bytes from lo on. */
  lemma WrapTurned(f: Cipher, s: Octets, a: Octets, o: Octets, lo: nat, n: nat, k: nat)
    requires OnBlocks(f) && |s| == 8 && |a| == 8 && Wrappable(n) && k + 8 <= n && lo + n <= |o|
    ensures var c := f(a + o[lo + k..lo + k + 8]);
      var o' := Overwritten(o, lo + k, c[8..]);
      && |o'| == |o| && o'[lo + n..] == o[lo + n..]
      && Reg(Xor(c[..8], s), Rotated(o'[lo..lo + n], k + 8)) == WrapStep(f, s, Reg(a, Rotated(o[lo..lo + n], k)))
  {
    var c := f(a + o[lo + k..lo + k + 8]);
    KeyBytes(o, lo, n, k, c[8..]);
    RotateWrap(f, s, a, o[lo..lo + n], k);
  }

  lemma UnwrapTurned(g: Cipher, s: Octets, a: Octets, o: Octets, lo: nat, n: nat, k: nat)
    requires OnBlocks(g) && |s| == 8 && |a| == 8 && Wrappable(n) && k + 8 <= n && lo + n <= |o|
    ensures var c := g(Xor(a, s) + o[lo + k..lo + k + 8]);
      var o' := Overwritten(o, lo + k, c[8..]);
      && |o'| == |o| && o'[lo + n..] == o[lo + n..]
      && Reg(c[..8], Rotated(o'[lo..lo + n], k)) == UnwrapStep(g, s, Reg(a, Rotated(o[lo..lo + n], k + 8)))
  {
    var c := g(Xor(a, s) + o[lo + k..lo + k + 8]);
    KeyBytes(o, lo, n, k, c[8..]);
    RotateUnwrap(g, s, a, o[lo..lo + n], k);
  }

  /** One turn of the inner wrap loop is one step of the shift register. */
  method WrapTurn(f: Cipher, out: array<bv8>, b: array<bv8>, n: nat, k: nat, t: u32)
    requires OnBlocks(f) && b.Length == 16 && out != b && Wrappable(n) && k + 8 <= n && 8 + n <= out.Length
    modifies out, b
    ensures RegAt(out, b, 8, n, k + 8) == WrapStep(f, Counter(t as nat), old(RegAt(out, b, 8, n, k)))
    ensures out[..][8 + n..] == old(out[..])[8 + n..]
  {
    WrapTurned(f, Counter(t as nat), b[..8], out[..], 8, n, k);
    assert out[8 + k..8 + k + 8] == out[..][8 + k..8 + k + 8];
    WrapBlock(f, out, b, 8 + k, t);
  }

  /** One turn of the inner unwrap loop is one step of the shift register. */
  method UnwrapTurn(g: Cipher, out: array<bv8>, b: array<bv8>, n: nat, k: nat, t: u32)
    requires OnBlocks(g) && b.Length == 16 && out != b && Wrappable(n) && k + 8 <= n && n <= out.Length
    modifies out, b
    ensures RegAt(out, b, 0, n, k) == UnwrapStep(g, Counter(t as nat), old(RegAt(out, b, 0, n, k + 8)))
    ensures out[..][n..] == old(out[..])[n..]
  {
    UnwrapTurned(g, Counter(t as nat), b[..8], out[..], 0, n, k);
    assert out[k..k + 8] == out[..][k..k + 8];
    UnwrapBlock(g, out, b, k, t);
  }

  /** Step 2 of the index-based form of section 2.2.1 for one block, at k: encrypted in place, and the stamp goes into A. */
  ghost function InPlace(f: Cipher, stamp: Octets, x: Reg, k: nat): (y: Reg)
    requires OnBlocks(f) && |stamp| == 8 && x.Valid() && k + 8 <= |x.r|
    ensures y.Valid() && |y.r| == |x.r|
  {
    var b := f(x.a + x.r[k..k + 8]);
    Reg(Xor(b[..8], stamp), Overwritten(x.r, k, b[8..]))
  }

  /** The registers, and the block the next step is for. */
  datatype Spot = Spot(x: Reg, i: nat)

  /** One step of the index-based form. */
  ghost function NextSpot(f: Cipher, stamp: Octets, y: Spot, n: nat): (z: Spot)
    requires OnBlocks(f) && |stamp| == 8 && y.x.Valid() && |y.x.r| == 8 * n && y.i < n
    ensures z.x.Valid() && |z.x.r| == 8 * n && z.i < n
  {
    Spot(InPlace(f, stamp, y.x, 8 * y.i), if y.i + 1 == n then 0 else y.i + 1)
  }

  /**
   The index-based form up to step t, on the n blocks of x one after the other and then from the first again. As
   SpotAt says, step t == n * j + i is the one of round j on block i, both as the RFC counts.
   */
  ghost function Indexed(f: Cipher, s: Stamps, x: Reg, n: nat, t: nat): (y: Spot)
    requires OnBlocks(f) && Stamped(s) && x.Valid() && |x.r| == 8 * n
    ensures y.x.Valid() && |y.x.r| == 8 * n && y.i < n
  {
    if t == 0 then Spot(x, 0) else NextSpot(f, s(t), Indexed(f, s, x, n, t - 1), n)
  }

  /** Counting on from step t - 1 of block i: the same round, or the next. */
  lemma CountOn(n: nat, j: nat, i: nat, t: nat) returns (j': nat)
    requires i < n && t == n * j + i + 1
    ensures t == n * j' + if i + 1 == n then 0 else i + 1
  {
    j' := if i + 1 == n then j + 1 else j;
    assert n * (j + 1) == n * j + n;
  }

  lemma {:induction false} SpotAt(f: Cipher, s: Stamps, x: Reg, n: nat, t: nat) returns (j: nat)
    requires OnBlocks(f) && Stamped(s) && x.Valid() && |x.r| == 8 * n
    ensures t == n * j + Indexed(f, s, x, n, t).i
  {
    j := 0;
    if t > 0 {
      var j0 := SpotAt(f, s, x, n, t - 1);
      j := CountOn(n, j0, Indexed(f, s, x, n, t - 1).i, t);
    }
  }

  ghost function Register(y: Spot, n: nat): Reg
    requires |y.x.r| == 8 * n && y.i < n
  {
    Reg(y.x.a, Rotated(y.x.r, 8 * y.i))
  }

  lemma SpotIsStep(f: Cipher, stamp: Octets, y: Spot, n: nat)
    requires OnBlocks(f) && |stamp| == 8 && y.x.Valid() && |y.x.r| == 8 * n && y.i < n
    ensures Register(y, n).Valid() && WrapStep(f, stamp, Register(y, n)) == Register(NextSpot(f, stamp, y, n), n)
  {
    RotateWrap(f, stamp, y.x.a, y.x.r, 8 * y.i);
    FullTurn(NextSpot(f, stamp, y, n).x.r);
  }

  lemma {:induction false} ShiftIsIndexed(f: Cipher, s: Stamps, x: Reg, n: nat, t: nat)
    requires OnBlocks(f) && Stamped(s) && x.Valid() && |x.r| == 8 * n
    ensures WrapSteps(f, s, x, t) == Register(Indexed(f, s, x, n, t), n)
  {
    if t == 0 {
      FullTurn(x.r);
    } else {
      ShiftIsIndexed(f, s, x, n, t - 1);
      SpotIsStep(f, s(t), Indexed(f, s, x, n, t - 1), n);
    }
  }

  lemma Multiples(n: nat, j: nat)
    ensures (j <= 5 ==> n * j <= 5 * n) && (j >= 7 ==> n * j >= 7 * n)
  {
    if j <= 5 {
      assert n * j <= n * 5;
    } else if j >= 7 {
      assert n * j >= n * 7;
    }
  }

  lemma SixRounds(n: nat, j: nat, i: nat)
    requires i < n && 6 * n == n * j + i
    ensures j == 6 && i == 0
  {
    Multiples(n, j);
  }

  /** Wrapping as the shift register does it is wrapping by index, in six rounds over all blocks. */
  lemma WrapIsIndexed(f: Cipher, iv: Octets, p: Octets)
    requires OnBlocks(f) && |iv| == 8 && Wrappable(|p|)
    ensures var n := |p| / 8; var y := Indexed(f, Counter, Reg(iv, p), n, 6 * n);
      y.i == 0 && Wrap(f, iv, p) == y.x.a + y.x.r
  {
    var n, x := |p| / 8, Reg(iv, p);
    ShiftIsIndexed(f, Counter, x, n, 6 * n);
    var j := SpotAt(f, Counter, x, n, 6 * n);
    var y := Indexed(f, Counter, x, n, 6 * n);
    SixRounds(n, j, y.i);
    FullTurn(y.x.r);
  }

  /** How the unsigned length + 8 comes back through the int the functions return. */
  function ReturnValue(n: nat): (r: int)
    ensures -0x8000_0000 <= r < 0x8000_0000 && (n - r) % 0x1_0000_0000 == 0
  {
    var u := n % 0x1_0000_0000;
    if u < 0x8000_0000 then u else u - 0x1_0000_0000
  }

  /** Steps t to last, the next one first. */
  ghost function WrapOn(f: Cipher, s: Stamps, x: Reg, t: nat, last: nat): (y: Reg)
    requires x.Valid() && OnBlocks(f) && Stamped(s)
    ensures y.Valid() && |y.r| == |x.r|
    decreases last + 1 - t
  {
    if t > last then x else WrapOn(f, s, WrapStep(f, s(t), x), t + 1, last)
  }

  lemma {:induction false} WrapOnIs(f: Cipher, s: Stamps, x: Reg, t: nat, last: nat)
    requires x.Valid() && OnBlocks(f) && Stamped(s) && t <= last
    ensures WrapOn(f, s, WrapSteps(f, s, x, t), t + 1, last) == WrapSteps(f, s, x, last)
    decreases last - t
  {
    if t < last {
      WrapOnIs(f, s, x, t + 1, last);
    }
  }

  lemma FullTurn(q: Octets)
    ensures Rotated(q, |q|) == q && Rotated(q, 0) == q
  {}

  lemma RoundsLeft(j: nat, n: nat)
    requires j < 6
    ensures j * n <= 5 * n && (j + 1) * n == j * n + n
  {}

  /** Having gone round once, the loop is where it started. */
  lemma Round(out: array<bv8>, b: array<bv8>, lo: nat, n: nat)
    requires lo + n <= out.Length && b.Length == 16
    ensures RegAt(out, b, lo, n, n) == RegAt(out, b, lo, n, 0)
  {
    FullTurn(out[..][lo..lo + n]);
  }

  /** The inner loop of AES_wrap_key; z is where the whole wrapping ends. */
  method WrapRound(f: Cipher, out: array<bv8>, b: array<bv8>, inlen: u32, ghost n: nat, t0: u32, ghost last: nat, ghost z: Reg)
    returns (t: u32)
    requires OnBlocks(f) && b.Length == 16 && out != b && inlen as nat == 8 * n && Wrappable(inlen as nat) && inlen as nat + 8 <= out.Length
    requires t0 as nat + n <= last + 1 < 0x1_0000_0000
    requires WrapOn(f, Counter, RegAt(out, b, 8, inlen as nat, 0), t0 as nat, last) == z
    modifies out, b
    ensures t as nat == t0 as nat + n
    ensures WrapOn(f, Counter, RegAt(out, b, 8, inlen as nat, 0), t as nat, last) == z
    ensures out[..][inlen as nat + 8..] == old(out[..])[inlen as nat + 8..]
  {
    t := t0;
    var i: u32 := 0;
    ghost var k := 0;
    while i < inlen
      invariant k <= n && i as nat == 8 * k && t as nat == t0 as nat + k
      invariant WrapOn(f, Counter, RegAt(out, b, 8, inlen as nat, i as nat), t as nat, last) == z
      invariant out[..][inlen as nat + 8..] == old(out[..])[inlen as nat + 8..]
    {
      WrapTurn(f, out, b, inlen as nat, i as nat, t);
      i, t, k := i + 8, t + 1, k + 1;
    }
    Round(out, b, 8, inlen as nat);
  }

  /** The nested loops of AES_wrap_key: after 6n steps the registers are those of section 2.2.1. */
  method WrapLoops(f: Cipher, out: array<bv8>, b: array<bv8>, inlen: u32)
    requires OnBlocks(f) && b.Length == 16 && out != b && Wrappable(inlen as nat) && inlen as nat + 8 <= out.Length
    modifies out, b
    ensures RegAt(out, b, 8, inlen as nat, 0)
      == WrapSteps(f, Counter, old(RegAt(out, b, 8, inlen as nat, 0)), 6 * (inlen as nat / 8))
    ensures out[..][inlen as nat + 8..] == old(out[..])[inlen as nat + 8..]
  {
    ghost var x, n := RegAt(out, b, 8, inlen as nat, 0), inlen as nat / 8;
    ghost var z := WrapSteps(f, Counter, x, 6 * n);
    WrapOnIs(f, Counter, x, 0, 6 * n);
    var t: u32 := 1;
    var j: u32 := 0;
    while j < 6
      invariant j <= 6 && t as nat == j as nat * n + 1
      invariant WrapOn(f, Counter, RegAt(out, b, 8, inlen as nat, 0), t as nat, 6 * n) == z
      invariant out[..][inlen as nat + 8..] == old(out[..])[inlen as nat + 8..]
    {
      RoundsLeft(j as nat, n);
      t := WrapRound(f, out, b, inlen, n, t, 6 * n, z);
      j := j + 1;
    }
  }

  /** The copies before the loops: the key to out + lo, iv or the first block to A. */
  method Start(out: array<bv8>, b: array<bv8>, lo: nat, a: Octets, key: Octets)
    requires b.Length == 16 && out != b && |a| == 8 && lo + |key| <= out.Length
    modifies out, b
    ensures RegAt(out, b, lo, |key|, 0) == Reg(a, key) && out[..][lo + |key|..] == old(out[..])[lo + |key|..]
  {
    forall k | 0 <= k < |key| { out[lo + k] := key[k]; }
    forall k | 0 <= k < 8 { b[k] := a[k]; }
    assert out[..][lo..lo + |key|] == key && b[..8] == a;
    FullTurn(key);
  }

  lemma TwoParts(o: Octets, lo: nat, hi: nat)
    requires lo <= hi <= |o|
    ensures o[lo..] == o[lo..hi] + o[hi..]
  {}

  /** memcpy(out, A, 8) */
  method PutA(out: array<bv8>, b: array<bv8>)
    requires b.Length == 16 && out != b && out.Length >= 8
    modifies out
    ensures out[..] == b[..8] + old(out[..])[8..]
  {
    forall k | 0 <= k < 8 { out[k] := b[k]; }
  }

  /** A in front of the rest of the buffer is both registers in order. */
  lemma Assembled(a: Octets, o: Octets, n: nat, y: Reg)
    requires 8 + n <= |o| && Reg(a, Rotated(o[8..8 + n], 0)) == y
    ensures a + o[8..] == y.a + y.r + o[8 + n..]
  {
    FullTurn(o[8..8 + n]);
    TwoParts(o, 8, 8 + n);
    ConcatAssoc(y.a, y.r, o[8 + n..]);
  }

  /** AES_wrap_key for a length it accepts. */
  method WrapBuffer(f: Cipher, iv: Octets, out: array<bv8>, input: Octets)
    requires OnBlocks(f) && |iv| == 8 && Wrappable(|input|) && |input| < 0x1_0000_0000 && |input| + 8 <= out.Length
    modifies out
    ensures out[..] == Wrap(f, iv, input) + old(out[..])[|input| + 8..]
  {
    var b := new bv8[16](_ => 0);
    Start(out, b, 8, iv, input);
    WrapLoops(f, out, b, |input| as u32);
    Assembled(b[..8], out[..], |input|, RegAt(out, b, 8, |input|, 0));
    PutA(out, b);
  }

  /** AES_wrap_key */
  method AesWrapKey(f: Cipher, iv: Option<Octets>, out: array<bv8>, input: Octets) returns (r: int)
    requires OnBlocks(f) && |input| < 0x1_0000_0000 && (iv.Some? ==> |iv.value| == 8)
    requires Wrappable(|input|) ==> |input| + 8 <= out.Length
    modifies out
    ensures r == if Wrappable(|input|) then ReturnValue(|input| + 8) else -1
    ensures r == -1 <==> |input| % 8 != 0 || |input| == 0
    ensures out[..] == if Wrappable(|input|) then Wrap(f, Iv(iv), input) + old(out[..])[|input| + 8..] else old(out[..])
  {
    var inlen := |input| as u32;
    if inlen % 8 != 0 || inlen < 8 {
      return -1;
    }
    WrapBuffer(f, Iv(iv), out, input);
    return ReturnValue(|input| + 8);
  }

  /** One turn, on the block from r to end, leaves the end of the unwrapping where it is. */
  method UnwrapNext(g: Cipher, out: array<bv8>, b: array<bv8>, n: nat, r: nat, end: nat, t: u32, ghost z: Reg) returns (next: u32)
    requires OnBlocks(g) && b.Length == 16 && out != b && Wrappable(n) && r + 8 == end <= n <= out.Length && t > 0
    requires UnwrapSteps(g, Counter, RegAt(out, b, 0, n, end), t as nat) == z
    modifies out, b
    ensures next as nat == t as nat - 1 && UnwrapSteps(g, Counter, RegAt(out, b, 0, n, r), next as nat) == z
    ensures out[..][n..] == old(out[..])[n..]
  {
    UnwrapTurn(g, out, b, n, r, t);
    next := t - 1;
  }

  /** The inner loop of AES_unwrap_key; z is where the whole unwrapping ends. */
  method UnwrapRound(g: Cipher, out: array<bv8>, b: array<bv8>, inlen: u32, ghost n: nat, t0: u32, ghost z: Reg) returns (t: u32)
    requires OnBlocks(g) && b.Length == 16 && out != b && inlen as nat == 8 * n && Wrappable(inlen as nat) && inlen as nat <= out.Length
    requires t0 as nat >= n
    requires UnwrapSteps(g, Counter, RegAt(out, b, 0, inlen as nat, 0), t0 as nat) == z
    modifies out, b
    ensures t as nat == t0 as nat - n
    ensures UnwrapSteps(g, Counter, RegAt(out, b, 0, inlen as nat, 0), t as nat) == z
    ensures out[..][inlen as nat..] == old(out[..])[inlen as nat..]
  {
    t := t0;
    var i: u32 := 0;
    var end: nat := inlen as nat;   // where the block at R ends
    Round(out, b, 0, end);
    while i < inlen
      invariant i <= inlen && t <= t0 && i as nat == 8 * (t0 as nat - t as nat) && i as nat + end == inlen as nat
      invariant UnwrapSteps(g, Counter, RegAt(out, b, 0, inlen as nat, end), t as nat) == z
      invariant out[..][inlen as nat..] == old(out[..])[inlen as nat..]
    {
      assert end >= 8 && t > 0;
      var r := end - 8;
      t := UnwrapNext(g, out, b, inlen as nat, r, end, t, z);
      i, end := i + 8, r;
    }
  }

  /** The nested loops of AES_unwrap_key: the registers become those section 2.2.2 ends with. */
  method UnwrapLoops(g: Cipher, out: array<bv8>, b: array<bv8>, inlen: u32)
    requires OnBlocks(g) && b.Length == 16 && out != b && Wrappable(inlen as nat) && inlen as nat <= out.Length
    modifies out, b
    ensures RegAt(out, b, 0, inlen as nat, 0)
      == UnwrapSteps(g, Counter, old(RegAt(out, b, 0, inlen as nat, 0)), 6 * (inlen as nat / 8))
    ensures out[..][inlen as nat..] == old(out[..])[inlen as nat..]
  {
    ghost var n := inlen as nat / 8;
    var t: u32 := 6 * (inlen / 8);
    ghost var z := UnwrapSteps(g, Counter, RegAt(out, b, 0, inlen as nat, 0), t as nat);
    var j: u32 := 0;
    while j < 6
      invariant j <= 6 && t as nat == 6 * n - j as nat * n
      invariant UnwrapSteps(g, Counter, RegAt(out, b, 0, inlen as nat, 0), t as nat) == z
      invariant out[..][inlen as nat..] == old(out[..])[inlen as nat..]
    {
      RoundsLeft(j as nat, n);
      t := UnwrapRound(g, out, b, inlen, n, t, z);
      j := j + 1;
    }
  }

  /** OPENSSL_cleanse(out, n) */
  method Cleanse(out: array<bv8>, n: nat)
    requires n <= out.Length
    modifies out
    ensures out[..] == seq(n, _ => 0 as bv8) + old(out[..])[n..]
  {
    forall k | 0 <= k < n { out[k] := 0; }
  }

  /** AES_unwrap_key for a length it accepts; 0 reports a failed integrity check. */
  method UnwrapBuffer(g: Cipher, iv: Octets, out: array<bv8>, input: Octets) returns (r: int)
    requires OnBlocks(g) && |iv| == 8 && Unwrappable(|input|) && |input| < 0x1_0000_0000 && |input| - 8 <= out.Length
    modifies out
    ensures var key, rest := Unwrap(g, iv, input), old(out[..])[|input| - 8..];
      if key.Some? then r == ReturnValue(|input| - 8) && out[..] == key.value + rest
      else r == 0 && out[..] == seq(|input| - 8, _ => 0 as bv8) + rest
  {
    var inlen := (|input| - 8) as u32;
    var b := new bv8[16](_ => 0);
    Start(out, b, 0, input[..8], input[8..]);
    UnwrapLoops(g, out, b, inlen);
    FullTurn(out[..][0..inlen as nat]);
    TwoParts(out[..], 0, inlen as nat);
    if b[..8] != iv {
      Cleanse(out, inlen as nat);
      return 0;
    }
    return ReturnValue(inlen as nat);
  }

  /**
   AES_unwrap_key. The length computation wraps below eight bytes, which is harmless except for the empty
   input.
   */
  method AesUnwrapKey(g: Cipher, iv: Option<Octets>, out: array<bv8>, input: Octets) returns (r: int)
    requires OnBlocks(g) && 0 < |input| < 0x1_0000_0000 && (iv.Some? ==> |iv.value| == 8)
    requires Unwrappable(|input|) ==> |input| - 8 <= out.Length
    modifies out
    ensures !Unwrappable(|input|) ==> r == -1 && out[..] == old(out[..])
    ensures r == -1 <==> |input| % 8 != 0 || |input| < 16
    ensures Unwrappable(|input|) ==>
      var key, rest := Unwrap(g, Iv(iv), input), old(out[..])[|input| - 8..];
      if key.Some? then r == ReturnValue(|input| - 8) && out[..] == key.value + rest
      else r == 0 && out[..] == seq(|input| - 8, _ => 0 as bv8) + rest
  {
    var inlen := ((|input| + 0x1_0000_0000 - 8) % 0x1_0000_0000) as u32;
    if inlen % 8 != 0 {
      return -1;
    }
    if inlen < 8 {
      return -1;
    }
    r := UnwrapBuffer(g, Iv(iv), out, input);
  }
}
