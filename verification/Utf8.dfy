/**
 Writing UTF-8 to the Windows console in pieces (src/sysdeps_win32.cpp): what is incomplete at the end
 of one write is carried over to the next.
 */
module Utf8 {
  import opened Bytes

  type Data = seq<byte>

  /** x >> k */
  function Shr(x: nat, k: nat): nat
    decreases k
  {
    if k == 0 then x else Shr(x / 2, k - 1)
  }

  /** utf8_codepoint_len: ((0xe5000000 >> ((ch >> 3) & 0x1e)) & 3) + 1, the mask clearing the last bit. */
  function CodepointLen(ch: byte): nat {
    Shr(0xe500_0000, ch / 8 - ch / 8 % 2) % 4 + 1
  }

  lemma CodepointLenIs(ch: byte)
    ensures CodepointLen(ch) == if ch < 0xC0 then 1 else if ch < 0xE0 then 2 else if ch < 0xF0 then 3 else 4
  {
    assert ch / 8 - ch / 8 % 2 == 2 * (ch / 16);
    Shifted(ch / 16);
  }

  lemma TwoMore(x: nat, n: nat)
    ensures Shr(x, 2 * (n + 1)) == Shr(x / 4, 2 * n)
  {
    assert x / 2 / 2 == x / 4;
    assert Shr(x, 2 * n + 2) == Shr(x / 2, 2 * n + 1);
  }

  lemma Fourfold(x: nat, p: nat)
    ensures x * (4 * p) == 4 * (x * p)
  {}

  /** The low zero bits are shifted out without effect on the last two. */
  lemma {:induction false} ShiftZeros(x: nat, n: nat, m: nat)
    requires n < m
    ensures Shr(x * Pow4(m), 2 * n) % 4 == 0
    decreases n
  {
    Fourfold(x, Pow4(m - 1));
    if n > 0 {
      TwoMore(x * Pow4(m), n - 1);
      ShiftZeros(x, n - 1, m - 1);
    }
  }

  function Pow4(n: nat): nat { if n == 0 then 1 else 4 * Pow4(n - 1) }

  lemma {:induction false} ShiftAll(x: nat, n: nat)
    ensures Shr(x * Pow4(n), 2 * n) == x
  {
    if n > 0 {
      var y := x * Pow4(n - 1);
      Fourfold(x, Pow4(n - 1));
      TwoMore(4 * y, n - 1);
      ShiftAll(x, n - 1);
    }
  }

  lemma Shifted(n: nat)
    requires n < 16
    ensures Shr(0xe500_0000, 2 * n) % 4 == if n < 12 then 0 else if n < 14 then 1 else if n < 15 then 2 else 3
  {
    assert Pow4(12) == 0x100_0000 && Pow4(13) == 0x400_0000 && Pow4(14) == 0x1000_0000 && Pow4(15) == 0x4000_0000;
    if n < 12 { ShiftZeros(0xe5, n, 12); } else { Top(n); }
  }

  /** 0xe5 is 11 10 01 01 in binary. */
  lemma Top(n: nat)
    requires 12 <= n < 16 && Pow4(12) == 0x100_0000
    ensures Shr(0xe500_0000, 2 * n) == Shr(0xe5, 2 * (n - 12))
  {
    Split(0xe500_0000, 2 * (n - 12), 24);
    ShiftAll(0xe5, 12);
  }

  lemma {:induction false} Split(x: nat, a: nat, b: nat)
    ensures Shr(x, a + b) == Shr(Shr(x, b), a)
    decreases b
  {
    if b > 0 {
      Split(x / 2, a, b - 1);
    }
  }

  predicate Trailing(b: byte) { 0x80 <= b < 0xC0 }

  /** The bytes of d from i on are the beginning of a sequence that is not complete. */
  ghost predicate Incomplete(d: Data, i: int) {
    && 0 <= i < |d| && d[i] >= 0xC0 && |d| - i < CodepointLen(d[i])
    && forall j :: i < j < |d| ==> Trailing(d[j])
  }

  /** ParseCompleteUTF8: everything but an incomplete sequence at the end, if there is one. */
  method ParseCompleteUtf8(d: Data) returns (complete: nat, remaining: Data)
    ensures complete <= |d| && remaining == d[complete..]
    ensures complete < |d| ==> Incomplete(d, complete)
    ensures complete == |d| ==> forall i :: !Incomplete(d, i)
  {
    var after := |d|;
    while after != 0
      invariant 0 <= after <= |d|
      invariant forall j :: after <= j < |d| ==> Trailing(d[j])
    {
      var current := after - 1;
      var ch := d[current];
      if ch < 0x80 {
        break;
      } else if ch >= 0xC0 {
        var available := |d| - current;
        if available < CodepointLen(ch) {
          return current, d[current..];
        }
        break;
      }
      after := after - 1;
    }
    return |d|, [];
  }

  /** The static buffer of _console_write_utf8, and (history) what came in and what went to the console. */
  class Console {
    var carry: Data
    ghost var total: Data
    ghost var emitted: Data

    constructor ()
      ensures Valid() && total == []
    {
      carry, total, emitted := [], [], [];
    }

    /** Nothing is lost or reordered, and at most three bytes wait. */
    ghost predicate Valid()
      reads this
    {
      emitted + carry == total && |carry| <= 3
    }

    /** _console_write_utf8 up to the conversion to UTF-16: the bytes to be converted now. */
    method Write(buf: Data) returns (utf8: Data)
      requires Valid()
      modifies this
      ensures Valid() && total == old(total) + buf && emitted == old(emitted) + utf8
      ensures utf8 + carry == old(carry) + buf
      ensures carry != [] ==> Incomplete(utf8 + carry, |utf8|)
      ensures carry == [] ==> forall i :: !Incomplete(utf8, i)
    {
      var combined := buf;
      if carry != [] {
        combined := carry + buf;
      }
      assert combined == carry + buf;
      var size, rest := ParseCompleteUtf8(combined);
      utf8 := combined[..size];
      assert utf8 + rest == combined;
      if size < |combined| {
        CodepointLenIs(combined[size]);
      } else {
        assert utf8 == combined;
      }
      ConcatAssoc(emitted, carry, buf);
      ConcatAssoc(emitted, utf8, rest);
      total, emitted, carry := total + buf, emitted + utf8, rest;
    }
  }

  // ---------------------------------------------------------------- code point boundaries

  /** One code point, by the grammar of section 4 of RFC 3629. */
  predicate Codepoint(c: Data) {
    if |c| == 1 then c[0] < 0x80
    else if |c| == 2 then 0xC2 <= c[0] <= 0xDF && Trailing(c[1])
    else if |c| == 3 then
      && Trailing(c[1]) && Trailing(c[2])
      && ((c[0] == 0xE0 && c[1] >= 0xA0) || 0xE1 <= c[0] <= 0xEC || (c[0] == 0xED && c[1] <= 0x9F) || 0xEE <= c[0] <= 0xEF)
    else
      && |c| == 4 && Trailing(c[1]) && Trailing(c[2]) && Trailing(c[3])
      && ((c[0] == 0xF0 && c[1] >= 0x90) || 0xF1 <= c[0] <= 0xF3 || (c[0] == 0xF4 && c[1] <= 0x8F))
  }

  /** The lead byte tells the length, and only the lead byte is not a trailing byte. */
  lemma LeadByte(c: Data)
    requires Codepoint(c)
    ensures |c| == CodepointLen(c[0]) && !Trailing(c[0]) && (|c| > 1 ==> c[0] >= 0xC0)
    ensures forall i :: 1 <= i < |c| ==> Trailing(c[i])
  {
    CodepointLenIs(c[0]);
  }

  ghost predicate Text(cs: seq<Data>) {
    forall i :: 0 <= i < |cs| ==> Codepoint(cs[i])
  }

  /** d ends inside code point cs[m], or, when part is empty, where cs[m] would start. */
  lemma {:induction false} Locate(d: Data, cs: seq<Data>) returns (m: nat, part: Data)
    requires Text(cs) && Prefix(d, Flat(cs))
    ensures m <= |cs| && d == Flat(cs[..m]) + part
    ensures part != [] ==> m < |cs| && |part| < |cs[m]| && part == cs[m][..|part|]
    decreases |cs|
  {
    if cs == [] || |d| < |cs[0]| {
      m, part := 0, d;
      assert cs != [] ==> Flat(cs)[..|d|] == cs[0][..|d|];
    } else {
      assert Text(cs[1..]) by { forall i | 0 <= i < |cs[1..]| ensures Codepoint(cs[1..][i]) { assert Codepoint(cs[i + 1]); } }
      var rest := d[|cs[0]|..];
      assert d[..|cs[0]|] == cs[0];
      assert rest == Flat(cs[1..])[..|rest|];
      var k;
      k, part := Locate(rest, cs[1..]);
      m := k + 1;
      assert cs[..m] == [cs[0]] + cs[1..][..k];
      assert Flat(cs[..m]) == cs[0] + Flat(cs[1..][..k]);
      ConcatAssoc(cs[0], Flat(cs[1..][..k]), part);
    }
  }

  /** Inside a code point, its first byte is where the incomplete sequence begins. */
  lemma InsideCodepoint(d: Data, before: Data, c: Data, part: Data)
    requires Codepoint(c) && d == before + part && part != [] && |part| < |c| && part == c[..|part|]
    ensures Incomplete(d, |before|)
  {
    LeadByte(c);
    assert d[|before|] == c[0];
    forall j | |before| < j < |d| ensures Trailing(d[j]) {
      assert d[j] == c[j - |before|];
    }
  }

  /** After a whole code point nothing is incomplete. */
  lemma AfterCodepoint(d: Data, before: Data, c: Data, i: int)
    requires Codepoint(c) && d == before + c
    ensures !Incomplete(d, i)
  {
    LeadByte(c);
    var k := |before|;
    assert d[k] == c[0];
    if k < i < |d| {
      assert d[i] == c[i - k];
    }
  }

  lemma OneIncomplete(d: Data, i: int, j: int)
    requires Incomplete(d, i) && Incomplete(d, j)
    ensures i == j
  {}

  /** The split of a prefix of a text falls on a code point boundary. */
  lemma SplitAtBoundary(d: Data, cs: seq<Data>, complete: nat) returns (m: nat)
    requires Text(cs) && Prefix(d, Flat(cs)) && complete <= |d|
    requires complete < |d| ==> Incomplete(d, complete)
    requires complete == |d| ==> forall i :: !Incomplete(d, i)
    ensures m <= |cs| && d[..complete] == Flat(cs[..m])
  {
    var part;
    m, part := Locate(d, cs);
    if part != [] {
      InsideCodepoint(d, Flat(cs[..m]), cs[m], part);
      OneIncomplete(d, |Flat(cs[..m])|, complete);
    } else if m > 0 {
      var c := cs[m - 1];
      assert cs[..m] == cs[..m - 1] + [c];
      FlatAppend(cs[..m - 1], [c]);
      FlatOne(c);
      AfterCodepoint(d, Flat(cs[..m - 1]), c, complete);
    }
  }

  lemma CancelPrefix(a: Data, d: Data, b: Data)
    requires Prefix(a + d, a + b)
    ensures Prefix(d, b)
  {
    assert (a + b)[..|a + d|] == a + b[..|d|];
    assert d == (a + d)[|a|..];
    assert b[..|d|] == (a + b[..|d|])[|a|..];
  }

  ghost predicate AllOnBoundary(pieces: seq<Data>, cs: seq<Data>) {
    forall k :: 0 <= k <= |pieces| ==> OnBoundary(Flat(pieces[..k]), cs)
  }

  lemma OneMorePiece(pieces: seq<Data>, utf8: Data, cs: seq<Data>)
    requires AllOnBoundary(pieces, cs) && OnBoundary(Flat(pieces) + utf8, cs)
    ensures AllOnBoundary(pieces + [utf8], cs) && Flat(pieces + [utf8]) == Flat(pieces) + utf8
  {
    FlatAppend(pieces, [utf8]);
    FlatOne(utf8);
    var more := pieces + [utf8];
    forall k | 0 <= k <= |more| ensures OnBoundary(Flat(more[..k]), cs) {
      if k <= |pieces| {
        assert more[..k] == pieces[..k];
      } else {
        assert more[..k] == more;
      }
    }
  }

  lemma NothingOnBoundary(cs: seq<Data>)
    ensures AllOnBoundary([], cs)
  {
    assert Flat(cs[..0]) == [];
  }

  /** One write between others. */
  method WriteNext(t: Console, buf: Data, ghost pieces: seq<Data>, ghost cs: seq<Data>, ghost all: Data) returns (utf8: Data)
    requires t.Valid() && t.emitted == Flat(pieces) && AllOnBoundary(pieces, cs) && Text(cs)
    requires Prefix(t.total + buf, all) && Prefix(all, Flat(cs))
    modifies t
    ensures t.Valid() && t.total == old(t.total) + buf && t.emitted == Flat(pieces + [utf8])
    ensures AllOnBoundary(pieces + [utf8], cs)
  {
    utf8 := t.Write(buf);
    assert OnBoundary(Flat(pieces), cs) by { assert pieces[..|pieces|] == pieces; }
    BoundaryStep(pieces, utf8, t.carry, cs, t.total, all);
    OneMorePiece(pieces, utf8, cs);
  }

  /**
   While everything written so far is the beginning of a text, what went to the console ends on a code
   point boundary after every write.
   */
  method WriteAll(t: Console, bufs: seq<Data>, ghost cs: seq<Data>) returns (pieces: seq<Data>)
    requires t.Valid() && t.total == [] && Text(cs) && Prefix(Flat(bufs), Flat(cs))
    modifies t
    ensures t.Valid() && t.total == Flat(bufs) && |pieces| == |bufs|
    ensures AllOnBoundary(pieces, cs)
    ensures Flat(pieces) + t.carry == Flat(bufs)
  {
    pieces := [];
    var i := 0;
    assert bufs[..0] == [];
    NothingOnBoundary(cs);
    while i < |bufs|
      invariant 0 <= i <= |bufs| && |pieces| == i && t.Valid()
      invariant t.total == Flat(bufs[..i]) && t.emitted == Flat(pieces)
      invariant AllOnBoundary(pieces, cs)
    {
      FlatNext(bufs, i);
      var utf8 := WriteNext(t, bufs[i], pieces, cs, Flat(bufs));
      pieces := pieces + [utf8];
      i := i + 1;
    }
    assert bufs[..i] == bufs;
  }

  ghost predicate OnBoundary(d: Data, cs: seq<Data>) {
    exists m :: 0 <= m <= |cs| && d == Flat(cs[..m])
  }

  lemma TextRest(cs: seq<Data>, m: nat)
    requires Text(cs) && m <= |cs|
    ensures Text(cs[m..])
  {
    forall i | 0 <= i < |cs[m..]| ensures Codepoint(cs[m..][i]) { assert cs[m..][i] == cs[m + i]; }
  }

  lemma TwoStretches(cs: seq<Data>, m: nat, k: nat)
    requires m + k <= |cs|
    ensures Flat(cs[..m + k]) == Flat(cs[..m]) + Flat(cs[m..][..k])
  {
    FlatCut(cs[..m + k], m);
    assert cs[..m + k][..m] == cs[..m] && cs[..m + k][m..] == cs[m..][..k];
  }

  /** One more piece, after pieces that end on a boundary. */
  lemma BoundaryStep(pieces: seq<Data>, utf8: Data, carry: Data, cs: seq<Data>, total: Data, all: Data)
    requires Text(cs) && OnBoundary(Flat(pieces), cs)
    requires total == Flat(pieces) + utf8 + carry && Prefix(total, all) && Prefix(all, Flat(cs))
    requires carry != [] ==> Incomplete(utf8 + carry, |utf8|)
    requires carry == [] ==> forall i :: !Incomplete(utf8, i)
    ensures OnBoundary(Flat(pieces) + utf8, cs)
  {
    var m :| 0 <= m <= |cs| && Flat(pieces) == Flat(cs[..m]);
    var d, rest := utf8 + carry, cs[m..];
    FlatCut(cs, m);
    PrefixTrans(total, all, Flat(cs));
    ConcatAssoc(Flat(pieces), utf8, carry);
    CancelPrefix(Flat(pieces), d, Flat(rest));
    assert carry == [] ==> d == utf8;
    TextRest(cs, m);
    var k := SplitAtBoundary(d, rest, |utf8|);
    assert d[..|utf8|] == utf8;
    TwoStretches(cs, m, k);
  }
}
