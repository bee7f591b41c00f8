/** Hexadecimal lengths: "%04x" as adb_io.cpp prints them, unhex of sockets.cpp, and strings with such a prefix. */
module Hex {
  import opened Bytes
  import opened AdbIo

  function HexDigit(n: nat): byte
    requires n < 16
  {
    if n < 10 then 48 + n else 97 + (n - 10)
  }

  /** '0' to '9', 'a' to 'f', 'A' to 'F'. */
  function HexValue(c: byte): Option<nat> {
    if 48 <= c <= 57 then Some(c - 48)
    else if 97 <= c <= 102 then Some(c - 97 + 10)
    else if 65 <= c <= 70 then Some(c - 65 + 10)
    else None
  }

  /** "%x" with at least w digits. */
  function HexPrint(w: nat, n: nat): (s: Data)
    ensures |s| >= w
    decreases n, w
  {
    if n == 0 && w == 0 then []
    else HexPrint(if w == 0 then 0 else w - 1, n / 16) + [HexDigit(n % 16)]
  }

  /** The number s spells, if all of it is hexadecimal. */
  function HexNumber(s: Data): Option<nat> {
    if s == [] then Some(0)
    else match HexNumber(s[..|s| - 1])
      case None => None
      case Some(n) =>
        match HexValue(s[|s| - 1])
        case None => None
        case Some(c) => Some(16 * n + c)
  }

  /** The characters: "%x" prints lower case, and either case is read. */
  lemma DigitCharacters(c: byte)
    ensures forall d :: 0 <= d < 16 ==> HexDigit(d) as int == "0123456789abcdef"[d] as int
    ensures forall d :: 0 <= d < 16 && (c as int == "0123456789abcdef"[d] as int || c as int == "0123456789ABCDEF"[d] as int) ==>
      HexValue(c) == Some(d)
    ensures (forall d :: 0 <= d < 16 ==> c as int != "0123456789abcdef"[d] as int && c as int != "0123456789ABCDEF"[d] as int) ==>
      HexValue(c) == None
  {
    var lower, upper := "0123456789abcdef", "0123456789ABCDEF";
    if HexValue(c).Some? {
      assert c as int == lower[HexValue(c).value] as int || c as int == upper[HexValue(c).value] as int;
    }
  }

  lemma DigitValue(d: nat)
    requires d < 16
    ensures HexValue(HexDigit(d)) == Some(d)
  {}

  lemma ReadLast(p: Data, c: byte, n: nat, v: nat)
    requires HexNumber(p) == Some(n) && HexValue(c) == Some(v)
    ensures HexNumber(p + [c]) == Some(16 * n + v)
  {
    assert (p + [c])[..|p|] == p;
  }

  /** Printing and reading are inverse, for every number and width. */
  lemma {:induction false} PrintRead(w: nat, n: nat)
    ensures HexNumber(HexPrint(w, n)) == Some(n)
    decreases n, w
  {
    if n != 0 || w != 0 {
      var k, q, d := if w == 0 then 0 else w - 1, n / 16, n % 16;
      PrintRead(k, q);
      DigitValue(d);
      ReadLast(HexPrint(k, q), HexDigit(d), q, d);
    }
  }

  predicate LowerHex(c: byte) { 48 <= c <= 57 || 97 <= c <= 102 }

  lemma DigitOf(c: byte)
    requires LowerHex(c)
    ensures HexValue(c).Some? && HexValue(c).value < 16 && HexDigit(HexValue(c).value) == c
  {}

  lemma LastDigit(n: nat, v: nat)
    requires v < 16
    ensures (16 * n + v) / 16 == n && (16 * n + v) % 16 == v
  {}

  /** Reading lower-case digits and printing them again at the same width gives them back. */
  lemma {:induction false} ReadPrint(s: Data)
    requires forall i :: 0 <= i < |s| ==> LowerHex(s[i])
    ensures HexNumber(s).Some? && HexPrint(|s|, HexNumber(s).value) == s
  {
    if s != [] {
      var p, c := s[..|s| - 1], s[|s| - 1];
      ReadPrint(p);
      DigitOf(c);
      var n, v := HexNumber(p).value, HexValue(c).value;
      LastDigit(n, v);
      assert HexPrint(|p| + 1, 16 * n + v) == HexPrint(|p|, n) + [HexDigit(v)];
      assert s == p + [c];
    }
  }

  function Pow16(w: nat): nat { if w == 0 then 1 else 16 * Pow16(w - 1) }

  /** Exactly the numbers below 16^w fit in w digits. */
  lemma {:induction false} PrintWidth(w: nat, n: nat)
    ensures |HexPrint(w, n)| == w <==> n < Pow16(w)
    decreases n, w
  {
    if n != 0 || w != 0 {
      if w > 0 {
        PrintWidth(w - 1, n / 16);
        assert n / 16 < Pow16(w - 1) <==> n < 16 * Pow16(w - 1);
      }
    }
  }

  lemma PlaceOfFirst(v: nat, unit: nat, n: nat, d: nat)
    ensures 16 * (v * unit + n) + d == v * (16 * unit) + (16 * n + d)
  {}

  /** The first digit counts most. */
  lemma {:induction false} FirstDigitCounts(c: byte, s: Data)
    requires HexValue(c).Some? && HexNumber(s).Some?
    ensures HexNumber([c] + s) == Some(HexValue(c).value * Pow16(|s|) + HexNumber(s).value)
  {
    var v := HexValue(c).value;
    if s == [] {
      assert [c] + s == [] + [c];
      ReadLast([], c, 0, v);
    } else {
      var f, d := s[..|s| - 1], HexValue(s[|s| - 1]).value;
      FirstDigitCounts(c, f);
      assert [c] + s == ([c] + f) + [s[|s| - 1]];
      ReadLast([c] + f, s[|s| - 1], v * Pow16(|f|) + HexNumber(f).value, d);
      PlaceOfFirst(v, Pow16(|f|), HexNumber(f).value, d);
    }
  }

  const BAD: nat := 0xffff_ffff

  /** unhex: the number, on 32 bits, or BAD at the first character that is no digit. */
  method Unhex(s: Data) returns (n: nat)
    ensures n == match HexNumber(s) { case Some(v) => v % 0x1_0000_0000 case None => BAD }
  {
    n := 0;
    var i := 0;
    while i < |s|
      invariant 0 <= i <= |s| && HexNumber(s[..i]).Some? && n == HexNumber(s[..i]).value % 0x1_0000_0000
    {
      assert s[..i + 1][..i] == s[..i];
      var c := HexValue(s[i]);
      if c.None? {
        BadDigit(s, i);
        return BAD;
      }
      ShiftIn(HexNumber(s[..i]).value, c.value);
      n := (n * 16 + c.value) % 0x1_0000_0000;
      i := i + 1;
    }
    assert s[..i] == s;
  }

  lemma ShiftIn(v: nat, c: nat)
    ensures (v % 0x1_0000_0000 * 16 + c) % 0x1_0000_0000 == (16 * v + c) % 0x1_0000_0000
  {
    var q := v / 0x1_0000_0000;
    assert 16 * v + c == (v % 0x1_0000_0000 * 16 + c) + 16 * q * 0x1_0000_0000;
  }

  lemma {:induction false} BadDigit(s: Data, i: nat)
    requires i < |s| && HexValue(s[i]).None?
    ensures HexNumber(s).None?
  {
    if i < |s| - 1 {
      BadDigit(s[..|s| - 1], i);
    }
  }

  // ---------------------------------------------------------------- strings with a length

  const MAX_PAYLOAD: nat := 256 * 1024

  /** What "%.*s" prints: the string up to its first NUL. */
  function UpToNul(s: Data): Data {
    if s == [] || s[0] == 0 then [] else [s[0]] + UpToNul(s[1..])
  }

  lemma {:induction false} NulFree(s: Data)
    ensures |UpToNul(s)| <= |s| && (UpToNul(s) == s <==> 0 !in s) && (0 in s ==> |UpToNul(s)| < |s|)
    ensures var k := |UpToNul(s)|; UpToNul(s) == s[..k] && 0 !in UpToNul(s) && (k < |s| ==> s[k] == 0)
  {
    if s != [] {
      NulFree(s[1..]);
      assert s == [s[0]] + s[1..];
    }
  }

  /** What SendProtocolString sends; nothing if the string is too long. */
  function Encoded(s: Data): Option<Data> {
    if |s| > MAX_PAYLOAD - 4 then None else Some(HexPrint(4, |s|) + UpToNul(s))
  }

  /** The leading hexadecimal digits. */
  function HexPrefix(s: Data): Data {
    if s == [] || HexValue(s[0]).None? then [] else [s[0]] + HexPrefix(s[1..])
  }

  lemma {:induction false} HexPrefixSpells(s: Data)
    ensures HexNumber(HexPrefix(s)).Some?
    ensures HexNumber(s).Some? ==> HexPrefix(s) == s
  {
    if s != [] {
      HexPrefixSpells(s[1..]);
      if HexValue(s[0]).Some? {
        FirstDigit(s[0], HexPrefix(s[1..]));
        FirstDigit(s[0], s[1..]);
        assert [s[0]] + s[1..] == s;
      } else {
        BadDigit(s, 0);
      }
    }
  }

  lemma {:induction false} FirstDigit(c: byte, s: Data)
    requires HexValue(c).Some?
    ensures HexNumber([c] + s).Some? <==> HexNumber(s).Some?
  {
    if s == [] {
      assert [c] + s == [c] && [c][..0] == [];
    } else {
      FirstDigit(c, s[..|s| - 1]);
      assert ([c] + s)[..|s|] == [c] + s[..|s| - 1];
    }
  }

  /** isspace */
  function SkipBlanks(s: Data): Data {
    if s != [] && (s[0] == 32 || 9 <= s[0] <= 13) then SkipBlanks(s[1..]) else s
  }

  function LeadingHex(s: Data): nat {
    HexPrefixSpells(s);
    HexNumber(HexPrefix(s)).value
  }

  /** The number after blanks and sign. */
  function Unsigned16(u: Data): nat {
    LeadingHex(if |u| > 2 && u[0] == 48 && (u[1] == 120 || u[1] == 88) && HexValue(u[2]).Some? then u[2..] else u)
  }

  /** strtoul(s, 0, 16) for up to four characters: blanks, a sign and 0x may come first. */
  function Strtoul16(s: Data): nat {
    var t := SkipBlanks(s);
    var minus := t != [] && t[0] == 45;
    var u := if minus || (t != [] && t[0] == 43) then t[1..] else t;
    var v := Unsigned16(u);
    if minus && 0 < v < 0x1_0000_0000_0000_0000 then 0x1_0000_0000_0000_0000 - v else v
  }

  predicate Blank(c: byte) { c == 32 || 9 <= c <= 13 }

  lemma {:induction false} BlanksSkipped(b: Data, t: Data)
    requires (forall i :: 0 <= i < |b| ==> Blank(b[i])) && (t != [] ==> !Blank(t[0]))
    ensures SkipBlanks(b + t) == t
  {
    if b == [] {
      assert b + t == t;
    } else {
      assert (b + t)[1..] == b[1..] + t;
      BlanksSkipped(b[1..], t);
    }
  }

  lemma {:induction false} DigitsLead(h: Data, rest: Data)
    requires (forall i :: 0 <= i < |h| ==> HexValue(h[i]).Some?) && (rest != [] ==> HexValue(rest[0]).None?)
    ensures HexPrefix(h + rest) == h
  {
    if h == [] {
      assert h + rest == rest;
    } else {
      assert (h + rest)[1..] == h[1..] + rest;
      DigitsLead(h[1..], rest);
    }
  }

  lemma LeadingIs(h: Data, rest: Data)
    requires (forall i :: 0 <= i < |h| ==> HexValue(h[i]).Some?) && (rest != [] ==> HexValue(rest[0]).None?)
    ensures HexNumber(h) == Some(LeadingHex(h + rest))
  {
    DigitsLead(h, rest);
    HexPrefixSpells(h + rest);
  }

  /** Digits h, up to a character that is none: the number they spell, with 0x before it... */
  lemma PrefixedForm(x: byte, h: Data, rest: Data)
    requires (x == 120 || x == 88) && h != [] && (forall i :: 0 <= i < |h| ==> HexValue(h[i]).Some?)
    requires rest != [] ==> HexValue(rest[0]).None?
    ensures HexNumber(h) == Some(Unsigned16([48, x] + (h + rest)))
  {
    var t := h + rest;
    var u := [48, x] + t;
    LeadingIs(h, rest);
    assert t[0] == h[0] && u[2] == t[0] && u[2..] == t;
  }

  /** ...or, alone, without. */
  lemma PlainForm(h: Data)
    requires h != [] && forall i :: 0 <= i < |h| ==> HexValue(h[i]).Some?
    ensures HexNumber(h) == Some(Unsigned16(h))
  {
    LeadingIs(h, []);
    assert h + [] == h;
    assert HexValue(120) == None && HexValue(88) == None;
    assert |h| > 1 ==> HexValue(h[1]).Some?;
  }

  /** Blanks do not count, nor a plus; with a minus the number wraps around on 64 bits. */
  lemma SignForms(b: Data, u: Data)
    requires (forall i :: 0 <= i < |b| ==> Blank(b[i])) && u != [] && !Blank(u[0])
    ensures Strtoul16(b + ([43] + u)) == Unsigned16(u)
    ensures u[0] != 43 && u[0] != 45 ==> Strtoul16(b + u) == Unsigned16(u)
    ensures 0 < Unsigned16(u) < 0x1_0000_0000_0000_0000 ==> Strtoul16(b + ([45] + u)) + Unsigned16(u) == 0x1_0000_0000_0000_0000
  {
    BlanksSkipped(b, u);
    BlanksSkipped(b, [43] + u);
    BlanksSkipped(b, [45] + u);
    assert ([43] + u)[1..] == u && ([45] + u)[1..] == u;
  }

  /** What ReadProtocolString makes of a stream: the string and what follows it; a huge length, as a sign gives, is not survived. */
  function Decoded(d: Data): Option<(Data, Data)> {
    if |d| < 4 then None
    else
      var len := Strtoul16(d[..4]);
      if |d| - 4 < len then None else Some((d[4..4 + len], d[4 + len..]))
  }

  method SendProtocolString(fd: OutFd, s: Data) returns (ok: bool)
    modifies fd
    ensures Encoded(s).None? ==> !ok && fd.sent == old(fd.sent)
    ensures Encoded(s).Some? && ok ==> fd.sent == old(fd.sent) + Encoded(s).value
    ensures Encoded(s).Some? && old(fd.Sound()) ==> ok
    ensures |s| > 0x4_0000 - 4 ==> !ok && fd.sent == old(fd.sent)
    ensures ok ==> fd.sent == old(fd.sent) + (HexPrint(4, |s|) + UpToNul(s))
    ensures |s| <= 0x4_0000 - 4 && old(fd.Sound()) ==> ok
  {
    if |s| > MAX_PAYLOAD - 4 {
      return false;
    }
    ok := WriteFdExactly(fd, HexPrint(4, |s|) + UpToNul(s));
  }

  method ReadProtocolString(fd: InFd) returns (s: Option<Data>)
    modifies fd
    ensures s.Some? ==> Decoded(old(fd.data)) == Some((s.value, fd.data))
    ensures old(fd.Sound()) && s.None? ==> Decoded(old(fd.data)).None?
  {
    var ok, buf := ReadFdExactly(fd, 4);
    if !ok {
      return None;
    }
    assert old(fd.data)[..4] == buf && old(fd.data)[4..] == fd.data;
    var got, body := ReadFdExactly(fd, Strtoul16(buf));
    if !got {
      return None;
    }
    ghost var d := old(fd.data);
    assert d == buf + (body + fd.data);
    assert d[4..4 + |body|] == body && d[4 + |body|..] == fd.data;
    return Some(body);
  }

  /** Four digits have no blank, sign or prefix before them. */
  lemma DigitsRead(h: Data)
    requires |h| == 4 && HexNumber(h).Some?
    ensures Strtoul16(h) == HexNumber(h).value
  {
    HexPrefixSpells(h);
    assert HexPrefix(h) == h;
  }

  lemma LengthFirst(h: Data, rest: Data)
    requires |h| == 4
    ensures var n := Strtoul16(h); Decoded(h + rest) == if |rest| < n then None else Some((rest[..n], rest[n..]))
  {
    var n, d := Strtoul16(h), h + rest;
    assert d[..4] == h;
    if n <= |rest| {
      assert d[4..4 + n] == rest[..n] && d[4 + n..] == rest[n..];
    }
  }

  /** With a NUL in it less is sent than announced. */
  lemma ShortRead(s: Data)
    requires |s| <= 0xffff
    ensures Decoded(Encoded(s).value) == if 0 in s then None else Some((s, []))
  {
    var h, u := HexPrint(4, |s|), UpToNul(s);
    NulFree(s);
    PrintRead(4, |s|);
    PrintWidth(4, |s|);
    assert Pow16(4) == 0x1_0000;
    DigitsRead(h);
    LengthFirst(h, u);
    if 0 !in s {
      assert s[..|s|] == s && s[|s|..] == [];
    }
  }

  /** A string sent alone comes back if and only if it has at most 65535 bytes, none of them NUL. */
  lemma SendRead(s: Data)
    requires Encoded(s).Some?
    ensures Decoded(Encoded(s).value) == Some((s, [])) <==> |s| <= 0xffff && 0 !in s
  {
    if |s| <= 0xffff { ShortRead(s); } else { TooLong(s); }
  }

  /** Beyond 65535 bytes the reader takes four of five digits for the length. */
  lemma TooLong(s: Data)
    requires 0xffff < |s| <= MAX_PAYLOAD - 4
    ensures Decoded(Encoded(s).value) != Some((s, []))
  {
    var h := HexPrint(4, |s|);
    var p, c := HexPrint(3, |s| / 16), HexDigit(|s| % 16);
    PrintRead(3, |s| / 16);
    PrintWidth(4, |s| / 16);
    PrintWidth(3, |s| / 16);
    assert Pow16(3) == 0x1000 && Pow16(4) == 0x1_0000;
    SameWidth(|s| / 16);
    DigitsRead(p);
    ConcatAssoc(p, [c], UpToNul(s));
    LengthFirst(p, [c] + UpToNul(s));
  }

  /** A number that needs all the digits is printed the same for smaller widths. */
  lemma SameWidth(n: nat)
    requires 0x1000 <= n < 0x1_0000
    ensures HexPrint(3, n) == HexPrint(4, n) && |HexPrint(3, n)| == 4
  {
    PrintWidth(4, n);
    var q := n / 16;
    assert HexPrint(3, n) == HexPrint(2, q) + [HexDigit(n % 16)];
    assert HexPrint(4, n) == HexPrint(3, q) + [HexDigit(n % 16)];
    var r := q / 16;
    assert HexPrint(2, q) == HexPrint(1, r) + [HexDigit(q % 16)];
    assert HexPrint(3, q) == HexPrint(2, r) + [HexDigit(q % 16)];
    var u := r / 16;
    assert HexPrint(1, r) == HexPrint(0, u) + [HexDigit(r % 16)];
    assert HexPrint(2, r) == HexPrint(1, u) + [HexDigit(r % 16)];
    assert u > 0 && u < 16;
    assert HexPrint(0, u) == HexPrint(0, u / 16) + [HexDigit(u % 16)];
    assert HexPrint(1, u) == HexPrint(0, u / 16) + [HexDigit(u % 16)];
  }
}
