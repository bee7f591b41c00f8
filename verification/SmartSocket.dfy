/** Reassembly of a service request from the packets a client's bytes arrive in (smart_socket_enqueue in src/sockets.cpp). */
module SmartSocket {
  import opened Bytes
  import opened AdbIo
  import opened Hex

  /** Return value 0 without a request, the failure exit, and a request found. */
  datatype Outcome = Waiting | Fail | Found(service: Data)

  /** What a buffered prefix of the client's bytes means. */
  function Verdict(d: Data): Outcome {
    if |d| < 4 then Waiting
    else match HexNumber(d[..4])
      case None => Fail
      case Some(len) =>
        if len < 1 || len > MAX_PAYLOAD then Fail
        else if len + 4 > |d| then Waiting
        else Found(UpToNul(d[4..4 + len]))
  }

  /** A request fails exactly when its first four bytes spell no positive number; else it waits for as many bytes as that. */
  lemma VerdictExactly(d: Data)
    ensures |d| < 4 ==> Verdict(d) == Waiting
    ensures |d| >= 4 ==> var n := HexNumber(d[..4]);
      && (Verdict(d) == Fail <==> n == None || n == Some(0))
      && (n.Some? && n.value > 0 ==> (Verdict(d).Found? <==> |d| >= 4 + n.value))
      && (Verdict(d).Found? ==> var s := Verdict(d).service;
           |s| <= n.value && s == d[4..4 + |s|] && 0 !in s && (|s| < n.value ==> d[4 + |s|] == 0))
  {
    if |d| >= 4 {
      FourDigits(d[..4]);
      var n := HexNumber(d[..4]);
      if n.Some? && 4 + n.value <= |d| { NulFree(d[4..4 + n.value]); }
    }
  }

  class Smart {
    const maxPayload: nat
    var packet: Option<Data>   // pkt_first, as far as it is filled

    constructor (maxPayload: nat)
      ensures this.maxPayload == maxPayload && packet == None
    {
      this.maxPayload, packet := maxPayload, None;
    }

    ghost function Buffered(): Data
      reads this
    {
      if packet.None? then [] else packet.value
    }

    /** smart_socket_enqueue up to the point where the service string is known. */
    method Enqueue(p: Data) returns (r: Outcome)
      modifies this
      ensures var d := old(Buffered()) + p;
        if old(packet).Some? && |d| > maxPayload then r == Fail && packet == old(packet)
        else r == Verdict(d) && packet == Some(d)
    {
      if packet.None? {
        packet := Some(p);
      } else {
        if |packet.value| + |p| > maxPayload {
          return Fail;
        }
        packet := Some(packet.value + p);
      }
      assert packet.value == old(Buffered()) + p;
      r := Judge(packet.value);
    }
  }

  /** The tests of smart_socket_enqueue on the bytes it has. */
  method Judge(d: Data) returns (r: Outcome)
    ensures r == Verdict(d)
  {
    if |d| < 4 {
      return Waiting;
    }
    var len := Unhex(d[..4]);
    FourDigits(d[..4]);
    if len < 1 || len > MAX_PAYLOAD {
      return Fail;
    }
    if len + 4 > |d| {
      return Waiting;
    }
    assert len + 4 < MAX_PAYLOAD;  // the terminating NUL is written inside the packet
    return Found(UpToNul(d[4..4 + len]));
  }

  /** Four digits cannot overflow, nor spell the error value. */
  lemma FourDigits(s: Data)
    requires |s| == 4
    ensures HexNumber(s).Some? ==> HexNumber(s).value < 0x1_0000
  {
    if HexNumber(s).Some? { SmallNumber(s); }
    assert Pow16(4) == 0x1_0000;
  }

  lemma {:induction false} SmallNumber(s: Data)
    requires HexNumber(s).Some?
    ensures HexNumber(s).value < Pow16(|s|)
  {
    if s != [] {
      SmallNumber(s[..|s| - 1]);
    }
  }

  /** A request as a client sends it. */
  function Request(s: Data): Data { HexPrint(4, |s|) + s }

  ghost predicate GoodService(s: Data) { 1 <= |s| <= 0xffff && 0 !in s }

  /** No proper prefix of a request says anything; the request, whatever follows it, says exactly the service. */
  lemma PrefixVerdict(s: Data, d: Data, rest: Data)
    requires GoodService(s)
    ensures |d| < |Request(s)| && Prefix(d, Request(s)) ==> Verdict(d) == Waiting
    ensures d == Request(s) + rest ==> Verdict(d) == Found(s)
  {
    var h := HexPrint(4, |s|);
    PrintRead(4, |s|);
    PrintWidth(4, |s|);
    assert Pow16(4) == 0x1_0000;
    NulFree(s);
    if |d| < |Request(s)| && Prefix(d, Request(s)) && |d| >= 4 {
      assert d[..4] == h;
    }
    if d == Request(s) + rest {
      assert d[..4] == h && d[4..4 + |s|] == s;
    }
  }

  /**
   The verdicts on a request that arrives in pieces do not depend on the pieces: nothing is dispatched
   before the last one, and then exactly the service string.
   */
  method Feed(t: Smart, chunks: seq<Data>, s: Data) returns (rs: seq<Outcome>)
    requires GoodService(s) && Flat(chunks) == Request(s) && |Request(s)| <= t.maxPayload
    requires forall k :: 0 <= k < |chunks| ==> chunks[k] != []
    requires t.packet == None
    modifies t
    ensures |rs| == |chunks| > 0 && rs[|rs| - 1] == Found(s)
    ensures forall k :: 0 <= k < |rs| - 1 ==> rs[k] == Waiting
  {
    rs := [];
    var i := 0;
    assert chunks[..0] == [];
    while i < |chunks|
      invariant 0 <= i <= |chunks| && |rs| == i
      invariant t.Buffered() == Flat(chunks[..i])
      invariant forall k :: 0 <= k < i ==> rs[k] == if k == |chunks| - 1 then Found(s) else Waiting
    {
      Piece(chunks, i);
      PrefixVerdict(s, Flat(chunks[..i + 1]), []);
      assert Request(s) + [] == Request(s);
      var r := t.Enqueue(chunks[i]);
      rs := rs + [r];
      i := i + 1;
    }
    PrintRead(4, |s|);
  }

  /** The bytes of the first pieces are a prefix, proper unless it is all of them. */
  lemma Piece(chunks: seq<Data>, i: nat)
    requires i < |chunks| && forall k :: 0 <= k < |chunks| ==> chunks[k] != []
    ensures Flat(chunks[..i + 1]) == Flat(chunks[..i]) + chunks[i]
    ensures Prefix(Flat(chunks[..i + 1]), Flat(chunks))
    ensures |Flat(chunks[..i + 1])| < |Flat(chunks)| <==> i < |chunks| - 1
  {
    FlatNext(chunks, i);
    FlatCut(chunks, i + 1);
    var rest := chunks[i + 1..];
    if rest != [] {
      assert Flat(rest) == rest[0] + Flat(rest[1..]);
    } else {
      assert chunks[..i + 1] == chunks;
    }
  }
}
