/** Framing of shell packets (src/shell_service_protocol.cpp): a one-byte id, a four-byte length, the payload. */
module ShellPackets {
  import opened Bytes
  import opened AdbIo

  datatype Packet = Packet(id: byte, data: Data)

  const HEADER: nat := 5

  function Encode(p: Packet): Data {
    [p.id] + LittleEndian(4, |p.data|) + p.data
  }

  function EncodeAll(ps: seq<Packet>): Data {
    if ps == [] then [] else Encode(ps[0]) + EncodeAll(ps[1..])
  }

  /** On the wire: the id, the length with its lowest byte first, and the payload. */
  lemma EncodeLayout(p: Packet)
    requires |p.data| < 0x1_0000_0000
    ensures var e := Encode(p);
      && |e| == 5 + |p.data| && e[0] == p.id && e[5..] == p.data
      && e[1] as int + 0x100 * (e[2] as int) + 0x1_0000 * (e[3] as int) + 0x100_0000 * (e[4] as int) == |p.data|
  {
    var n := LittleEndian(4, |p.data|);
    Word(|p.data|);
    LeFour(n);
  }

  /** What one Read delivers of a packet: as much as fits in the buffer. */
  function Fragments(p: Packet, cap: nat): (fs: seq<Packet>)
    requires cap > 0
    ensures fs != []
    decreases |p.data|
  {
    if |p.data| <= cap then [p] else [Packet(p.id, p.data[..cap])] + Fragments(Packet(p.id, p.data[cap..]), cap)
  }

  function AllFragments(ps: seq<Packet>, cap: nat): seq<Packet>
    requires cap > 0
  {
    if ps == [] then [] else Fragments(ps[0], cap) + AllFragments(ps[1..], cap)
  }

  function Payloads(ps: seq<Packet>): Data {
    if ps == [] then [] else ps[0].data + Payloads(ps[1..])
  }

  /** k reads of at most cap bytes are what n bytes take: k is 1 for none, and n / cap rounded up for some. */
  predicate Reads(n: nat, cap: nat, k: nat) {
    if n == 0 then k == 1 else k > 0 && cap * (k - 1) < n <= cap * k
  }

  lemma OneMore(n: nat, cap: nat, k: nat)
    requires n > cap > 0 && Reads(n - cap, cap, k)
    ensures Reads(n, cap, k + 1)
  {
    assert cap * k == cap * (k - 1) + cap && cap * (k + 1) == cap * k + cap;
  }

  /** The fragments of a packet carry its id and, in order, its payload, and are as few as can be. */
  lemma {:induction false} FragmentsCarry(p: Packet, cap: nat)
    requires cap > 0
    ensures var fs := Fragments(p, cap);
      && Payloads(fs) == p.data && Reads(|p.data|, cap, |fs|)
      && (forall i :: 0 <= i < |fs| ==> fs[i].id == p.id && |fs[i].data| <= cap)
    decreases |p.data|
  {
    if |p.data| <= cap {
      assert Payloads([p]) == p.data + Payloads([]);
    } else {
      var rest := Packet(p.id, p.data[cap..]);
      var tail := Fragments(rest, cap);
      FragmentsCarry(rest, cap);
      OneMore(|p.data|, cap, |tail|);
      var fs := Fragments(p, cap);
      assert fs[0].data == p.data[..cap] && fs[1..] == tail;
      forall i | 1 <= i < |fs| ensures fs[i] == tail[i - 1] {}
    }
  }

  /** What a reader has left to deliver: the rest of the current packet, and the packets after it. */
  datatype Reading = Reading(id: byte, rest: Data, packets: seq<Packet>) {
    function Wire(): Data { rest + EncodeAll(packets) }

    predicate Done() { rest == [] && packets == [] }

    /** The packet being delivered, after its header. */
    function Begun(): Reading
      requires !Done()
    {
      if rest == [] then Reading(packets[0].id, packets[0].data, packets[1..]) else this
    }

    function Fragment(cap: nat): Packet
      requires !Done()
    {
      Packet(Begun().id, Begun().rest[..Min(|Begun().rest|, cap)])
    }

    function After(cap: nat): Reading
      requires !Done()
    {
      Begun().(rest := Begun().rest[Min(|Begun().rest|, cap)..])
    }

    /** All that is still to come. */
    function ToCome(cap: nat): seq<Packet>
      requires cap > 0
    {
      (if rest == [] then [] else Fragments(Packet(id, rest), cap)) + AllFragments(packets, cap)
    }
  }

  lemma NextToCome(r: Reading, cap: nat)
    requires cap > 0 && !r.Done()
    ensures r.ToCome(cap) == [r.Fragment(cap)] + r.After(cap).ToCome(cap)
  {
    var b := r.Begun();
    var p := Packet(b.id, b.rest);
    assert r.ToCome(cap) == Fragments(p, cap) + AllFragments(b.packets, cap) by {
      if r.rest == [] {
        assert r.packets[0] == p;
        assert AllFragments(r.packets, cap) == Fragments(p, cap) + AllFragments(b.packets, cap);
      }
    }
    if |b.rest| <= cap {
      assert b.rest[..|b.rest|] == b.rest && b.rest[|b.rest|..] == [];
    } else {
      ConcatAssoc([r.Fragment(cap)], Fragments(Packet(p.id, p.data[cap..]), cap), AllFragments(b.packets, cap));
    }
  }

  /** The class of the same name: a descriptor, the buffer, and how much of the current packet is unread. */
  class ShellProtocol {
    const input: InFd
    const output: OutFd
    const capacity: nat    // data_capacity()
    var id: byte           // buffer_[0]
    var data: Data         // the first data_length_ bytes of data()
    var bytesLeft: nat

    constructor (input: InFd, output: OutFd, capacity: nat)
      ensures this.input == input && this.output == output && this.capacity == capacity
      ensures bytesLeft == 0 && data == [] && id == 255
    {
      this.input, this.output, this.capacity := input, output, capacity;
      id, data, bytesLeft := 255, [], 0;
    }

    /** The descriptor will deliver what r says is left. */
    ghost predicate Expects(r: Reading)
      reads this, input
    {
      && input.data == r.Wire() && bytesLeft == |r.rest| && (r.rest != [] ==> id == r.id)
      && (forall p :: p in r.packets ==> |p.data| < WORD)
    }

    /** The header of the next packet. */
    method ReadHeader(ghost r: Reading) returns (ok: bool)
      requires Expects(r) && bytesLeft == 0
      modifies this, input
      ensures ok ==> !r.Done() && Expects(r.Begun()) && id == r.Begun().id && data == []
      ensures old(input.Sound()) ==> input.Sound() && (!ok ==> r.Done())
    {
      ghost var wire := input.data;
      var header;
      ok, header := ReadFdExactly(input, HEADER);
      if !ok {
        HeaderThere(r, wire);
        return;
      }
      HeaderFirst(r, wire, header, input.data);
      id := header[0];
      bytesLeft := LeValue(header[1..]);
      data := [];
    }

    /** The next piece of the packet at hand. */
    method ReadPiece(ghost b: Reading) returns (ok: bool)
      requires Expects(b) && capacity > 0 && id == b.id && (b.rest == [] ==> data == [])
      modifies this, input
      ensures ok ==> Expects(b.(rest := b.rest[Min(|b.rest|, capacity)..])) && Packet(id, data) == Packet(b.id, b.rest[..Min(|b.rest|, capacity)])
      ensures old(input.Sound()) ==> ok && input.Sound()
    {
      var readLength := Min(bytesLeft, capacity);
      assert b.Wire() == b.rest[..readLength] + (b.rest[readLength..] + EncodeAll(b.packets));
      if readLength != 0 {
        var got, body := ReadFdExactly(input, readLength);
        if !got {
          return false;
        }
        data := body;
        assert b.Wire()[..readLength] == body;
      }
      bytesLeft := bytesLeft - readLength;
      ok := true;
    }

    /** Read: the next fragment, or false at the end of the stream. */
    method Read(ghost r: Reading) returns (ok: bool)
      requires Expects(r) && capacity > 0
      modifies this, input
      ensures r.Done() ==> !ok
      ensures old(input.Sound()) ==> input.Sound() && (ok <==> !r.Done())
      ensures ok ==> Expects(r.After(capacity)) && Packet(id, data) == r.Fragment(capacity)
    {
      if bytesLeft == 0 {
        ok := ReadHeader(r);
        if !ok {
          return;
        }
      }
      ok := ReadPiece(r.Begun());
    }
  }

  /** Between packets the wire starts with a whole header, if it has anything. */
  lemma HeaderFirst(r: Reading, wire: Data, header: Data, after: Data)
    requires r.rest == [] && wire == r.Wire() && |header| == HEADER && header + after == wire
    requires forall p :: p in r.packets ==> |p.data| < WORD
    ensures !r.Done()
    ensures header[0] == r.Begun().id && LeValue(header[1..]) == |r.Begun().rest| && after == r.Begun().Wire()
  {
    var p, more := r.packets[0], EncodeAll(r.packets[1..]);
    var h := [p.id] + LittleEndian(4, |p.data|);
    ConcatAssoc(h, p.data, more);
    assert wire == h + (p.data + more);
    SameSplit(header, after, h, p.data + more);
    assert h[1..] == LittleEndian(4, |p.data|);
    assert p in r.packets;
    Word(|p.data|);
  }

  lemma SameSplit(a: Data, b: Data, c: Data, d: Data)
    requires a + b == c + d && |a| == |c|
    ensures a == c && b == d
  {
    assert a == (a + b)[..|a|] && c == (c + d)[..|a|];
    assert b == (a + b)[|a|..] && d == (c + d)[|a|..];
  }

  lemma HeaderThere(r: Reading, wire: Data)
    requires wire == r.Wire()
    ensures !r.Done() && r.rest == [] ==> |wire| >= HEADER
  {}

  /** Reading until the stream ends yields exactly the fragments of the packets written to it. */
  method ReadAll(s: ShellProtocol, ghost ps: seq<Packet>) returns (got: seq<Packet>)
    requires s.input.data == EncodeAll(ps) && s.bytesLeft == 0 && s.capacity > 0 && s.input.Sound()
    requires forall p :: p in ps ==> |p.data| < WORD
    modifies s, s.input
    ensures got == AllFragments(ps, s.capacity)
  {
    got := [];
    ghost var r := Reading(s.id, [], ps);
    var more := true;
    while more
      invariant more ==> s.Expects(r) && s.input.Sound()
      invariant AllFragments(ps, s.capacity) == got + r.ToCome(s.capacity)
      invariant !more ==> r.Done()
      decreases |r.ToCome(s.capacity)|, more
    {
      more := s.Read(r);
      if more {
        NextToCome(r, s.capacity);
        ConcatAssoc(got, [r.Fragment(s.capacity)], r.After(s.capacity).ToCome(s.capacity));
        got, r := got + [Packet(s.id, s.data)], r.After(s.capacity);
      }
    }
  }

  /** Write: header and payload in one go. */
  method Write(s: ShellProtocol, id: byte) returns (ok: bool)
    requires |s.data| < WORD
    modifies s, s.output
    ensures s.data == old(s.data)
    ensures ok ==> s.output.sent == old(s.output.sent) + Encode(Packet(id, s.data))
    ensures old(s.output.Sound()) ==> ok && s.output.Sound()
  {
    s.id := id;
    ok := WriteFdExactly(s.output, [id] + LittleEndian(4, |s.data|) + s.data);
  }

  lemma {:induction false} EncodeAppend(ps: seq<Packet>, p: Packet)
    ensures EncodeAll(ps + [p]) == EncodeAll(ps) + Encode(p)
  {
    if ps == [] {
      assert ps + [p] == [p] && EncodeAll([p]) == Encode(p) + EncodeAll([]);
    } else {
      EncodeAppend(ps[1..], p);
      assert (ps + [p])[0] == ps[0] && (ps + [p])[1..] == ps[1..] + [p];
      ConcatAssoc(Encode(ps[0]), EncodeAll(ps[1..]), Encode(p));
    }
  }

  /** Writing packets one after the other leaves their encodings, in order. */
  method WriteAll(s: ShellProtocol, ps: seq<Packet>)
    requires s.output.sent == [] && s.output.Sound() && forall p :: p in ps ==> |p.data| < WORD
    modifies s, s.output
    ensures s.output.sent == EncodeAll(ps)
  {
    var i := 0;
    while i < |ps|
      invariant 0 <= i <= |ps| && s.output.Sound() && s.output.sent == EncodeAll(ps[..i])
    {
      s.data := ps[i].data;
      var ok := Write(s, ps[i].id);
      assert ps[..i + 1] == ps[..i] + [ps[i]];
      EncodeAppend(ps[..i], ps[i]);
      i := i + 1;
    }
    assert ps[..i] == ps;
  }
}
