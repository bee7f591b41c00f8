/**
 The file push protocol on the wire (src/file_sync_service.h): what the client sends for one file and how
 the service takes it apart. SyncClient and SyncService hold the code of the two ends.
 */
module SyncWire {
  import opened Bytes
  import opened AdbIo
  import opened Hex

  function MkId(a: byte, b: byte, c: byte, d: byte): nat {
    a + 256 * (b + 256 * (c + 256 * d))
  }

  const ID_SEND: nat := MkId(83, 69, 78, 68)
  const ID_DATA: nat := MkId(68, 65, 84, 65)
  const ID_DONE: nat := MkId(68, 79, 78, 69)
  const ID_OKAY: nat := MkId(79, 75, 65, 89)
  const ID_FAIL: nat := MkId(70, 65, 73, 76)
  const ID_QUIT: nat := MkId(81, 85, 73, 84)

  const SYNC_DATA_MAX: nat := 65536
  const PATH_LIMIT: nat := 1024

  /** SyncRequest, msg.data and msg.status alike: two 32-bit little-endian words. */
  function Header(id: nat, n: nat): (h: Data)
    ensures |h| == 8
  {
    LittleEndian(4, id) + LittleEndian(4, n)
  }

  function HeadId(d: Data): nat
    requires |d| >= 8
  {
    LeValue(d[..4])
  }

  function HeadLen(d: Data): nat
    requires |d| >= 8
  {
    LeValue(d[4..8])
  }

  lemma HeaderRead(id: nat, n: nat, rest: Data)
    requires id < WORD && n < WORD
    ensures var d := Header(id, n) + rest;
      HeadId(d) == id && HeadLen(d) == n && d[8..] == rest
  {
    var d := Header(id, n) + rest;
    Word(id);
    Word(n);
    assert d[..4] == LittleEndian(4, id) && d[4..8] == LittleEndian(4, n);
  }

  /** On the wire: four bytes each, the lowest first. */
  lemma HeaderLayout(id: nat, n: nat)
    requires id < WORD && n < WORD
    ensures var h := Header(id, n);
      && h[0] as int + 0x100 * (h[1] as int) + 0x1_0000 * (h[2] as int) + 0x100_0000 * (h[3] as int) == id
      && h[4] as int + 0x100 * (h[5] as int) + 0x1_0000 * (h[6] as int) + 0x100_0000 * (h[7] as int) == n
  {
    Word(id);
    Word(n);
    LeFour(LittleEndian(4, id));
    LeFour(LittleEndian(4, n));
  }

  /** An id is sent as the four letters it is made of. */
  lemma IdSpells(a: byte, b: byte, c: byte, d: byte)
    ensures LittleEndian(4, MkId(a, b, c, d)) == [a, b, c, d]
  {
    LeFour([a, b, c, d]);
    LeInverse([a, b, c, d]);
  }

  lemma IdFirst(id: nat, n: nat)
    ensures Header(id, n)[..4] == LittleEndian(4, id)
  {}

  /** The ids are sent as the letters SEND, DATA, DONE, OKAY, FAIL and QUIT. */
  lemma IdsSpell(n: nat)
    ensures Header(ID_SEND, n)[..4] == [83, 69, 78, 68] && Header(ID_DATA, n)[..4] == [68, 65, 84, 65]
    ensures Header(ID_DONE, n)[..4] == [68, 79, 78, 69] && Header(ID_OKAY, n)[..4] == [79, 75, 65, 89]
    ensures Header(ID_FAIL, n)[..4] == [70, 65, 73, 76] && Header(ID_QUIT, n)[..4] == [81, 85, 73, 84]
  {
    IdFirst(ID_SEND, n); IdSpells(83, 69, 78, 68);
    IdFirst(ID_DATA, n); IdSpells(68, 65, 84, 65);
    IdFirst(ID_DONE, n); IdSpells(68, 79, 78, 69);
    IdFirst(ID_OKAY, n); IdSpells(79, 75, 65, 89);
    IdFirst(ID_FAIL, n); IdSpells(70, 65, 73, 76);
    IdFirst(ID_QUIT, n); IdSpells(81, 85, 73, 84);
  }

  // ---------------------------------------------------------------- path and mode

  /** The decimal digits of n, as "%d" prints them. */
  function Decimal(n: nat): (s: Data)
    ensures s != [] && forall i :: 0 <= i < |s| ==> 48 <= s[i] < 58
  {
    if n < 10 then [48 + n] else Decimal(n / 10) + [48 + n % 10]
  }

  function Pow10(k: nat): nat { if k == 0 then 1 else 10 * Pow10(k - 1) }

  /** The first digit counts most: with the number of digits it says n to within one unit of its place. */
  lemma {:induction false} DecimalLeads(n: nat)
    ensures var s, unit := Decimal(n), Pow10(|Decimal(n)| - 1);
      unit * (s[0] - 48) <= n < unit * (s[0] - 48 + 1) && s[|s| - 1] == 48 + n % 10
  {
    if n >= 10 {
      DecimalLeads(n / 10);
      LeadOfMore(Pow10(|Decimal(n / 10)| - 1), Decimal(n / 10)[0] - 48, n);
    }
  }

  lemma LeadOfMore(unit: nat, d: nat, n: nat)
    requires unit * d <= n / 10 < unit * (d + 1)
    ensures 10 * unit * d <= n < 10 * unit * (d + 1)
  {
    assert 10 * unit * d == 10 * (unit * d) && 10 * unit * (d + 1) == 10 * (unit * (d + 1));
  }

  /** A mode_t given to "%d" is taken for a signed int. */
  function AsInt(mode: nat): (r: int)
    ensures mode < WORD ==> -0x8000_0000 <= r < 0x8000_0000 && (mode - r) % 0x1_0000_0000 == 0
  {
    if mode < 0x8000_0000 then mode else mode - WORD
  }

  function PrintInt(i: int): Data {
    if i < 0 then [45] + Decimal(-i) else Decimal(i)
  }

  /** "%s,%d" */
  function Spec(path: Data, mode: nat): Data {
    path + [44] + PrintInt(AsInt(mode))
  }

  /** find_last_of(',') */
  function LastComma(s: Data): (k: Option<nat>)
    ensures k.Some? ==> k.value < |s| && s[k.value] == 44 && 44 !in s[k.value + 1..]
    ensures k.None? ==> 44 !in s
  {
    if s == [] then None
    else if s[|s| - 1] == 44 then Some(|s| - 1)
    else LastComma(s[..|s| - 1])
  }

  /** The value of a digit in some base up to 16, or the base if it is none. */
  function DigitIn(c: byte, radix: nat): nat {
    var v := if 48 <= c < 58 then c - 48 else if 97 <= c < 103 then c - 87 else if 65 <= c < 71 then c - 55 else radix;
    if v < radix then v else radix
  }

  function Accumulate(s: Data, radix: nat, acc: nat): nat {
    if s == [] || DigitIn(s[0], radix) == radix then acc
    else Accumulate(s[1..], radix, acc * radix + DigitIn(s[0], radix))
  }

  /** The digits strtoul reads when its base argument is 0. */
  function AnyRadix(s: Data): nat {
    if |s| > 2 && s[0] == 48 && (s[1] == 120 || s[1] == 88) && DigitIn(s[2], 16) < 16 then Accumulate(s[2..], 16, 0)
    else if s != [] && s[0] == 48 then Accumulate(s, 8, 0)
    else Accumulate(s, 10, 0)
  }

  const ULONG: nat := 0x1_0000_0000_0000_0000

  /** mode_t mode = strtoul(s, nullptr, 0); None if that sets errno. */
  function ParseMode(s: Data): Option<nat> {
    var t := SkipBlanks(s);
    var minus := t != [] && t[0] == 45;
    var v := AnyRadix(if minus || (t != [] && t[0] == 43) then t[1..] else t);
    if v >= ULONG then None else Some((if minus then (ULONG - v) % ULONG else v) % WORD)
  }

  /** A digit of some base is a hexadecimal digit that is small enough. */
  lemma DigitsOf(c: byte, radix: nat)
    requires 2 <= radix <= 16
    ensures DigitIn(c, radix) == if HexValue(c).Some? && HexValue(c).value < radix then HexValue(c).value else radix
  {}

  lemma ReadTwo(a: byte, b: byte, rest: Data, radix: nat)
    requires 2 <= radix <= 16 && DigitIn(a, radix) < radix && DigitIn(b, radix) < radix
    ensures Accumulate([a, b] + rest, radix, 0) == Accumulate(rest, radix, radix * DigitIn(a, radix) + DigitIn(b, radix))
  {
    var s := [a, b] + rest;
    assert s[1..] == [b] + rest && s[1..][1..] == rest;
  }

  /** The forms strtoul takes besides decimal numbers: "0755", "0x1fF", " +12" and "-1". */
  lemma ModeForms()
    ensures ParseMode([48, 55, 53, 53]) == Some(493) && ParseMode([48, 120, 49, 102, 70]) == Some(511)
    ensures ParseMode([32, 43, 49, 50]) == Some(12) && ParseMode([45, 49]) == Some(0xffff_ffff)
  {
    var octal, hex := [48, 55, 53, 53], [48, 120, 49, 102, 70];
    assert octal == [48, 55] + [53, 53] && [53, 53] == [53, 53] + [];
    ReadTwo(48, 55, [53, 53], 8);
    assert Accumulate([53, 53], 8, 7) == Accumulate([53], 8, 61) == Accumulate([], 8, 493) by {
      assert [53, 53][1..] == [53] && [53][1..] == [];
    }
    assert hex[2..] == [49, 102] + [70];
    ReadTwo(49, 102, [70], 16);
    assert Accumulate([70], 16, 31) == Accumulate([], 16, 511) by { assert [70][1..] == []; }
    var plus := [32, 43, 49, 50];
    assert SkipBlanks(plus) == [43, 49, 50] by { assert plus[1..] == [43, 49, 50]; }
    assert [43, 49, 50][1..] == [49, 50] == [49, 50] + [];
    ReadTwo(49, 50, [], 10);
    assert [45, 49][1..] == [49] && Accumulate([49], 10, 0) == Accumulate([], 10, 1) by { assert [49][1..] == []; }
    assert (ULONG - 1) % ULONG % WORD == 0xffff_ffff;
  }

  lemma {:induction false} AccumulateAppend(s: Data, t: Data, acc: nat)
    requires forall i :: 0 <= i < |s| ==> 48 <= s[i] < 58
    ensures Accumulate(s + t, 10, acc) == Accumulate(t, 10, Accumulate(s, 10, acc))
  {
    if s == [] {
      assert s + t == t;
    } else {
      assert (s + t)[1..] == s[1..] + t;
      AccumulateAppend(s[1..], t, acc * 10 + DigitIn(s[0], 10));
    }
  }

  /** Printing and reading a number; no leading 0 makes it octal, unless it is 0. */
  lemma {:induction false} DecimalReads(n: nat)
    ensures Accumulate(Decimal(n), 10, 0) == n
    ensures n > 0 ==> Decimal(n)[0] != 48
  {
    if n >= 10 {
      DecimalReads(n / 10);
      AccumulateAppend(Decimal(n / 10), [48 + n % 10], 0);
      assert Accumulate([48 + n % 10], 10, n / 10) == Accumulate([], 10, n / 10 * 10 + n % 10);
    } else {
      assert Accumulate([48 + n], 10, 0) == Accumulate([], 10, n);
    }
  }

  lemma AnyRadixReads(n: nat)
    ensures AnyRadix(Decimal(n)) == n
  {
    DecimalReads(n);
    if n == 0 {
      assert Accumulate([48], 8, 0) == Accumulate([], 8, 0);
    }
  }

  lemma ParsePlain(n: nat)
    requires n < ULONG
    ensures ParseMode(Decimal(n)) == Some(n % WORD)
  {
    var t := Decimal(n);
    assert SkipBlanks(t) == t && 48 <= t[0];
    AnyRadixReads(n);
  }

  lemma ParseNegated(n: nat)
    requires 0 < n < ULONG
    ensures ParseMode([45] + Decimal(n)) == Some((ULONG - n) % WORD)
  {
    var t := [45] + Decimal(n);
    assert SkipBlanks(t) == t && t[1..] == Decimal(n);
    AnyRadixReads(n);
    assert (ULONG - n) % ULONG == ULONG - n;
  }

  /** Every 32-bit mode survives "%d" and strtoul, even one that prints as a negative number. */
  lemma ModeRoundTrip(mode: nat)
    requires mode < WORD
    ensures ParseMode(PrintInt(AsInt(mode))) == Some(mode)
  {
    if mode < 0x8000_0000 {
      ParsePlain(mode);
    } else {
      ParseNegated(WORD - mode);
      Wraps(mode);
    }
  }

  lemma Wraps(mode: nat)
    requires 0 < mode < WORD
    ensures (ULONG - (WORD - mode)) % WORD == mode
  {
    assert ULONG - (WORD - mode) == WORD * (WORD - 1) + mode;
  }

  lemma {:induction false} LastCommaIs(p: Data, t: Data)
    requires 44 !in t
    ensures LastComma(p + [44] + t) == Some(|p|)
  {
    var s := p + [44] + t;
    if t == [] {
      assert s[|s| - 1] == 44;
    } else {
      assert s[..|s| - 1] == p + [44] + t[..|t| - 1];
      assert s[|s| - 1] == t[|t| - 1];
      LastCommaIs(p, t[..|t| - 1]);
    }
  }

  lemma PrintedChars(i: int)
    ensures 44 !in PrintInt(i) && 0 !in PrintInt(i)
  {}

  /** The service gets path and mode back, commas in the path or not. */
  lemma SpecRoundTrip(path: Data, mode: nat)
    requires mode < WORD && 0 !in path
    ensures var s := Spec(path, mode);
      0 !in s && LastComma(s) == Some(|path|) && s[..|path|] == path && ParseMode(s[|path| + 1..]) == Some(mode)
  {
    var t := PrintInt(AsInt(mode));
    PrintedChars(AsInt(mode));
    LastCommaIs(path, t);
    ModeRoundTrip(mode);
    assert Spec(path, mode)[|path| + 1..] == t;
  }

  // ---------------------------------------------------------------- the body of a push

  function ChunkBytes(c: Data): Data {
    Header(ID_DATA, |c|) + c
  }

  function Chunks(cs: seq<Data>): Data {
    if cs == [] then [] else ChunkBytes(cs[0]) + Chunks(cs[1..])
  }

  lemma {:induction false} ChunksAppend(cs: seq<Data>, c: Data)
    ensures Chunks(cs + [c]) == Chunks(cs) + ChunkBytes(c)
  {
    if cs == [] {
      assert cs + [c] == [c] && Chunks([]) == [];
    } else {
      assert (cs + [c])[1..] == cs[1..] + [c];
      ChunksAppend(cs[1..], c);
      ConcatAssoc(ChunkBytes(cs[0]), Chunks(cs[1..]), ChunkBytes(c));
    }
  }

  /** What follows the path: content, timestamp, and what is left of the stream. */
  datatype Body = Body(content: Data, mtime: nat, rest: Data)

  /** The messages of a regular file up to DONE, with what was received before; None if they are not in order. */
  function ParseBody(d: Data, acc: Data): (b: Option<Body>)
    ensures b.Some? ==> |b.value.rest| < |d|
    decreases |d|
  {
    if |d| < 8 then None
    else if HeadId(d) == ID_DONE then Some(Body(acc, HeadLen(d), d[8..]))
    else if HeadId(d) != ID_DATA || HeadLen(d) > SYNC_DATA_MAX || |d| - 8 < HeadLen(d) then None
    else ParseBody(d[8 + HeadLen(d)..], acc + d[8..8 + HeadLen(d)])
  }

  /** The two messages of a symbolic link. */
  function ParseLink(d: Data): (b: Option<Body>)
    ensures b.Some? ==> |b.value.rest| < |d|
  {
    if |d| < 8 || HeadId(d) != ID_DATA || HeadLen(d) > SYNC_DATA_MAX || |d| - 8 < HeadLen(d) then None
    else
      var content, e := d[8..8 + HeadLen(d)], d[8 + HeadLen(d)..];
      if |e| < 8 || HeadId(e) != ID_DONE then None else Some(Body(content, HeadLen(e), e[8..]))
  }

  lemma ChunkRead(c: Data, rest: Data)
    requires |c| < WORD
    ensures var d := ChunkBytes(c) + rest;
      && |d| >= 8 && HeadId(d) == ID_DATA && HeadLen(d) == |c| && |d| - 8 >= |c|
      && d[8..8 + |c|] == c && d[8 + |c|..] == rest
  {
    HeaderRead(ID_DATA, |c|, c + rest);
    ConcatAssoc(Header(ID_DATA, |c|), c, rest);
  }

  lemma DoneRead(mtime: nat, rest: Data)
    requires mtime < WORD
    ensures var d := Header(ID_DONE, mtime) + rest;
      |d| >= 8 && HeadId(d) == ID_DONE && HeadLen(d) == mtime && d[8..] == rest
  {
    HeaderRead(ID_DONE, mtime, rest);
  }

  /** The service accepts a chunked content exactly when no chunk is oversize, and then has it whole. */
  lemma {:induction false} BodyRoundTrip(cs: seq<Data>, mtime: nat, rest: Data, acc: Data)
    requires mtime < WORD && forall i :: 0 <= i < |cs| ==> |cs[i]| < WORD
    ensures var b := ParseBody(Chunks(cs) + (Header(ID_DONE, mtime) + rest), acc);
      if forall i :: 0 <= i < |cs| ==> |cs[i]| <= SYNC_DATA_MAX then b == Some(Body(acc + Flat(cs), mtime, rest)) else b == None
    decreases |cs|
  {
    var done := Header(ID_DONE, mtime) + rest;
    if cs == [] {
      DoneRead(mtime, rest);
      assert Chunks(cs) + done == done && acc + Flat(cs) == acc;
    } else {
      var c := cs[0];
      ConcatAssoc(ChunkBytes(c), Chunks(cs[1..]), done);
      ChunkRead(c, Chunks(cs[1..]) + done);
      if |c| <= SYNC_DATA_MAX {
        BodyRoundTrip(cs[1..], mtime, rest, acc + c);
        ConcatAssoc(acc, c, Flat(cs[1..]));
        assert forall i :: 0 < i < |cs| ==> cs[i] == cs[1..][i - 1];
      }
    }
  }

  lemma LinkRoundTrip(c: Data, mtime: nat, rest: Data)
    requires mtime < WORD && |c| <= SYNC_DATA_MAX
    ensures ParseLink(ChunkBytes(c) + (Header(ID_DONE, mtime) + rest)) == Some(Body(c, mtime, rest))
  {
    ChunkRead(c, Header(ID_DONE, mtime) + rest);
    DoneRead(mtime, rest);
  }

  // ---------------------------------------------------------------- one push

  predicate IsLink(mode: nat) { mode / 4096 % 16 == 10 }

  /** S_IFLNK is 0120000, S_IFREG 0100000. */
  lemma LinkModes(mode: nat)
    ensures IsLink(mode) <==> 0xA000 <= mode % 0x1_0000 < 0xB000
  {}

  /** What a client wants stored: where, the mode, the modification time and the content in the pieces it is sent in. */
  datatype Push = Push(path: Data, mode: nat, mtime: nat, chunks: seq<Data>)

  /** A push that neither end has a reason to refuse. */
  ghost predicate Proper(p: Push) {
    && 0 !in p.path && p.mode < WORD && p.mtime < WORD && |Spec(p.path, p.mode)| <= PATH_LIMIT
    && (forall i :: 0 <= i < |p.chunks| ==> |p.chunks[i]| <= SYNC_DATA_MAX)
    && (IsLink(p.mode) ==> |p.chunks| == 1 && 0 in p.chunks[0])
  }

  function Wire(p: Push): Data {
    Header(ID_SEND, |Spec(p.path, p.mode)|) + Spec(p.path, p.mode) + Chunks(p.chunks) + Header(ID_DONE, p.mtime)
  }

  /** What the service makes of a SEND command. */
  datatype Received = Received(path: Data, mode: nat, body: Body)

  function ParseSpec(spec: Data): Option<(Data, nat)> {
    match LastComma(spec)
    case None => None
    case Some(k) =>
      match ParseMode(spec[k + 1..])
      case None => None
      case Some(mode) => Some((spec[..k], mode))
  }

  /** A SEND command with a name of n bytes, after its header. */
  function ParseRequest(id: nat, n: nat, d: Data): (r: Option<Received>)
    ensures r.Some? ==> |r.value.body.rest| <= |d|
  {
    if id != ID_SEND || n > PATH_LIMIT || |d| < n then None
    else
      match ParseSpec(UpToNul(d[..n]))
      case None => None
      case Some((path, mode)) =>
        match if IsLink(mode) then ParseLink(d[n..]) else ParseBody(d[n..], [])
        case None => None
        case Some(body) => Some(Received(path, mode, body))
  }

  function ParseSend(d: Data): (r: Option<Received>)
    ensures r.Some? ==> |r.value.body.rest| < |d|
  {
    if |d| < 8 then None else ParseRequest(HeadId(d), HeadLen(d), d[8..])
  }

  lemma SpecParses(path: Data, mode: nat)
    requires mode < WORD && 0 !in path
    ensures ParseSpec(UpToNul(Spec(path, mode))) == Some((path, mode))
  {
    SpecRoundTrip(path, mode);
    NulFree(Spec(path, mode));
  }

  lemma CommandRead(spec: Data, rest: Data)
    requires |spec| < WORD
    ensures var d := Header(ID_SEND, |spec|) + spec + rest;
      && |d| >= 8 && HeadId(d) == ID_SEND && HeadLen(d) == |spec| && |d[8..]| >= |spec|
      && d[8..][..|spec|] == spec && d[8..][|spec|..] == rest
  {
    HeaderRead(ID_SEND, |spec|, spec + rest);
    ConcatAssoc(Header(ID_SEND, |spec|), spec, rest);
  }

  lemma WireSplit(p: Push, rest: Data)
    ensures Wire(p) + rest
      == Header(ID_SEND, |Spec(p.path, p.mode)|) + Spec(p.path, p.mode) + (Chunks(p.chunks) + (Header(ID_DONE, p.mtime) + rest))
  {
    var s := Header(ID_SEND, |Spec(p.path, p.mode)|) + Spec(p.path, p.mode);
    ConcatAssoc(s + Chunks(p.chunks), Header(ID_DONE, p.mtime), rest);
    ConcatAssoc(s, Chunks(p.chunks), Header(ID_DONE, p.mtime) + rest);
  }

  lemma OneChunk(cs: seq<Data>)
    requires |cs| == 1
    ensures Chunks(cs) == ChunkBytes(cs[0]) && Flat(cs) == cs[0]
  {
    assert Chunks(cs[1..]) == [];
    assert cs == [cs[0]];
    FlatOne(cs[0]);
  }

  /**
   The push round trip: from the bytes of a proper push the service recovers path, mode, timestamp and
   content, for every chunking, and consumes exactly those bytes.
   */
  lemma PushRoundTrip(p: Push, rest: Data)
    requires Proper(p)
    ensures ParseSend(Wire(p) + rest) == Some(Received(p.path, p.mode, Body(Flat(p.chunks), p.mtime, rest)))
  {
    var spec, done := Spec(p.path, p.mode), Header(ID_DONE, p.mtime) + rest;
    WireSplit(p, rest);
    CommandRead(spec, Chunks(p.chunks) + done);
    SpecParses(p.path, p.mode);
    if IsLink(p.mode) {
      OneChunk(p.chunks);
      LinkRoundTrip(p.chunks[0], p.mtime, rest);
    } else {
      BodyRoundTrip(p.chunks, p.mtime, rest, []);
      assert [] + Flat(p.chunks) == Flat(p.chunks);
    }
  }

  /** Of the pushes of regular files with a proper path, the service accepts exactly those without an oversize chunk. */
  lemma OversizeIsRefused(p: Push, rest: Data)
    requires 0 !in p.path && p.mode < WORD && p.mtime < WORD && |Spec(p.path, p.mode)| <= PATH_LIMIT && !IsLink(p.mode)
    requires forall i :: 0 <= i < |p.chunks| ==> |p.chunks[i]| < WORD
    ensures ParseSend(Wire(p) + rest).Some? <==> forall i :: 0 <= i < |p.chunks| ==> |p.chunks[i]| <= SYNC_DATA_MAX
  {
    WireSplit(p, rest);
    CommandRead(Spec(p.path, p.mode), Chunks(p.chunks) + (Header(ID_DONE, p.mtime) + rest));
    SpecParses(p.path, p.mode);
    BodyRoundTrip(p.chunks, p.mtime, rest, []);
  }
}
