/** Bytes, byte strings and the few sequence facts every other module needs. */
module Bytes {

  type byte = b: int | 0 <= b < 256

  datatype Option<+T> = None | Some(value: T)

  /** The concatenation of a sequence of byte strings. */
  function Flat<T>(q: seq<seq<T>>): seq<T> {
    if q == [] then [] else q[0] + Flat(q[1..])
  }

  lemma {:induction false} FlatAppend<T>(p: seq<seq<T>>, q: seq<seq<T>>)
    ensures Flat(p + q) == Flat(p) + Flat(q)
  {
    if p == [] {
      assert p + q == q;
    } else {
      FlatAppend(p[1..], q);
      ConcatAssoc(p[0], Flat(p[1..]), Flat(q));
      assert (p + q)[0] == p[0] && (p + q)[1..] == p[1..] + q;
    }
  }

  lemma FlatOne<T>(x: seq<T>)
    ensures Flat([x]) == x
  {
    assert Flat([x]) == x + Flat([]);
  }

  lemma ConcatAssoc<T>(p: seq<T>, q: seq<T>, r: seq<T>)
    ensures p + (q + r) == p + q + r
  {}

  lemma SliceOfSlice<T>(q: seq<T>, lo: nat, hi: nat, i: nat, j: nat)
    requires lo <= hi <= |q| && i <= j <= hi - lo
    ensures q[lo..hi][i..j] == q[lo + i..lo + j]
  {
    assert |q[lo..hi][i..j]| == |q[lo + i..lo + j]|;
    forall k | 0 <= k < j - i ensures q[lo..hi][i..j][k] == q[lo + i..lo + j][k] {}
  }

  /** p is a prefix of q, spelled so that the solver can chain it. */
  ghost predicate Prefix<T>(p: seq<T>, q: seq<T>) {
    |p| <= |q| && p == q[..|p|]
  }

  lemma PrefixTrans<T>(p: seq<T>, q: seq<T>, r: seq<T>)
    requires Prefix(p, q) && Prefix(q, r)
    ensures Prefix(p, r)
  {
    assert q[..|p|] == r[..|q|][..|p|] == r[..|p|];
  }

  lemma PrefixOfConcat<T>(p: seq<T>, q: seq<T>)
    ensures Prefix(p, p + q)
  {}

  /** Cutting a sequence of strings in two. */
  lemma FlatCut<T>(q: seq<seq<T>>, i: nat)
    requires i <= |q|
    ensures Flat(q) == Flat(q[..i]) + Flat(q[i..])
  {
    assert q == q[..i] + q[i..];
    FlatAppend(q[..i], q[i..]);
  }

  /** The first i + 1 strings are the first i and one more, and a prefix of all. */
  lemma FlatNext<T>(q: seq<seq<T>>, i: nat)
    requires i < |q|
    ensures Flat(q[..i + 1]) == Flat(q[..i]) + q[i]
    ensures Prefix(Flat(q[..i + 1]), Flat(q))
  {
    FlatCut(q, i + 1);
    PrefixOfConcat(Flat(q[..i + 1]), Flat(q[i + 1..]));
    FlatCut(q[..i + 1], i);
    assert q[..i + 1][..i] == q[..i] && q[..i + 1][i..] == [q[i]];
    FlatOne(q[i]);
  }

  // ---------------------------------------------------------------- little-endian numbers

  /** The k bytes of n, least significant first. */
  function LittleEndian(k: nat, n: nat): (s: seq<byte>)
    ensures |s| == k
  {
    if k == 0 then [] else [n % 256] + LittleEndian(k - 1, n / 256)
  }

  function LeValue(s: seq<byte>): nat {
    if s == [] then 0 else s[0] + 256 * LeValue(s[1..])
  }

  function Pow256(k: nat): nat {
    if k == 0 then 1 else 256 * Pow256(k - 1)
  }

  lemma {:induction false} LeRoundTrip(k: nat, n: nat)
    requires n < Pow256(k)
    ensures LeValue(LittleEndian(k, n)) == n
  {
    if k > 0 {
      LeRoundTrip(k - 1, n / 256);
      assert LittleEndian(k, n)[1..] == LittleEndian(k - 1, n / 256);
    }
  }

  /** Reading and writing the bytes of a number is the identity too. */
  lemma {:induction false} LeInverse(s: seq<byte>)
    ensures LittleEndian(|s|, LeValue(s)) == s
  {
    if s != [] {
      LeInverse(s[1..]);
      assert s == [s[0]] + s[1..];
    }
  }

  /** The first byte counts once, the next 256 times, and so on. */
  lemma LeFour(s: seq<byte>)
    requires |s| == 4
    ensures LeValue(s) == s[0] as int + 0x100 * (s[1] as int) + 0x1_0000 * (s[2] as int) + 0x100_0000 * (s[3] as int)
  {
    var a, b, c := s[1..], s[2..], s[3..];
    assert a[1..] == b && b[1..] == c && c[1..] == [];
    assert LeValue(c) == s[3] && LeValue(b) == s[2] + 256 * LeValue(c) && LeValue(a) == s[1] + 256 * LeValue(b);
  }

  const WORD: nat := 0x1_0000_0000

  lemma Word(n: nat)
    ensures Pow256(4) == WORD
    ensures n < WORD ==> LeValue(LittleEndian(4, n)) == n
  {
    assert Pow256(4) == 256 * (256 * (256 * (256 * 1)));
    if n < WORD { LeRoundTrip(4, n); }
  }

  function Min(a: nat, b: nat): nat { if a <= b then a else b }
}
