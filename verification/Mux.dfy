/**
 The multiplexing protocol: handle_packet (src/adb.cpp), the local socket table with its ids
 (src/sockets.cpp), and the system of two endpoints joined by two FIFO channels.
 */
module Mux {
  import opened Bytes
  import opened Stream

  datatype Command = OPEN | OKAY | CLSE | WRTE

  datatype Packet = Packet(cmd: Command, arg0: nat, arg1: nat, data: Data)

  /** One adb process as seen by a single transport: t->online, local_socket_next_id, the sockets by id. */
  datatype Host = Host(online: bool, next: nat, socks: map<nat, Sock>)

  datatype Reply = Reply(host: Host, out: seq<Packet>) | Fatal

  /** Ids are 32-bit; install_local_socket aborts when the counter wraps to 0. */
  const MAX_ID: nat := 0xffff_ffff

  /** find_local_socket succeeds: active, and paired with peerId unless that is 0. */
  predicate Found(h: Host, id: nat, peerId: nat) {
    id in h.socks && h.socks[id].place == Active && (peerId == 0 || h.socks[id].peer == peerId)
  }

  function Label(m: Msg, id: nat, peer: nat): Packet {
    match m
    case Okay => Packet(OKAY, id, peer, [])
    case Wrte(data) => Packet(WRTE, id, peer, data)
    case Clse => Packet(CLSE, id, peer, [])
  }

  function LabelAll(ms: seq<Msg>, id: nat, peer: nat): (ps: seq<Packet>)
    ensures |ps| == |ms| && forall i :: 0 <= i < |ms| ==> ps[i] == Label(ms[i], id, peer)
  {
    if ms == [] then [] else [Label(ms[0], id, peer)] + LabelAll(ms[1..], id, peer)
  }

  /** What handle_packet's oracles must satisfy: a write accepts no more than it is offered. */
  ghost predicate HandleOk(h: Host, p: Packet, w: WriteOutcome) {
    p.cmd == WRTE && Found(h, p.arg1, p.arg0) && h.socks[p.arg1].queue == [] ==> WriteFits(w, |p.data|)
  }

  /**
   handle_packet for OPEN, OKAY, CLSE and WRTE. `svc` says whether create_local_service_socket
   found the service, `w` how far local_socket_enqueue's write loop got.
   */
  function HandlePacket(h: Host, p: Packet, svc: bool, w: WriteOutcome): Reply
    requires HandleOk(h, p, w)
  {
    match p.cmd
    case OPEN =>
      if !(h.online && p.arg0 != 0 && p.arg1 == 0) then Reply(h, [])
      else if !svc then Reply(h, [Packet(CLSE, 0, p.arg0, [])])
      else if h.next >= MAX_ID then Fatal
      else Reply(h.(next := h.next + 1, socks := h.socks[h.next := Ready(NEW_SOCK.(peer := p.arg0))]),
                 [Packet(OKAY, h.next, p.arg0, [])])
    case OKAY =>
      if !(h.online && p.arg0 != 0 && p.arg1 != 0) then Reply(h, [])
      else if Found(h, p.arg1, 0) then
        Reply(h.(socks := h.socks[p.arg1 := OnOkay(h.socks[p.arg1], p.arg0)]), [])
      else Reply(h, [Packet(CLSE, p.arg1, p.arg0, [])])
    case CLSE =>
      if h.online && p.arg1 != 0 && Found(h, p.arg1, p.arg0) then
        var s := h.socks[p.arg1];
        var e := Close(s);
        Reply(h.(socks := h.socks[p.arg1 := e.sock]), LabelAll(e.out, p.arg1, s.peer))
      else Reply(h, [])
    case WRTE =>
      if h.online && p.arg0 != 0 && p.arg1 != 0 && Found(h, p.arg1, p.arg0) then
        var e := Enqueue(h.socks[p.arg1], p.data, w);
        Reply(h.(socks := h.socks[p.arg1 := e.eff.sock]),
              LabelAll(e.eff.out, p.arg1, p.arg0) + if e.ready then [Packet(OKAY, p.arg1, p.arg0, [])] else [])
      else Reply(h, [])
  }

  /** A packet that comes while offline, lacks an id it must have, or speaks of a socket that has another peer. */
  predicate Stray(h: Host, p: Packet) {
    || !h.online
    || (p.cmd == OPEN && (p.arg0 == 0 || p.arg1 != 0))
    || (p.cmd != OPEN && p.arg1 == 0)
    || ((p.cmd == OKAY || p.cmd == WRTE) && p.arg0 == 0)
    || (p.cmd == WRTE && (p.arg1 !in h.socks || h.socks[p.arg1].place != Active || h.socks[p.arg1].peer != p.arg0))
    || (p.cmd == CLSE && (p.arg1 !in h.socks || h.socks[p.arg1].place != Active || (p.arg0 != 0 && h.socks[p.arg1].peer != p.arg0)))
    || (p.cmd == OKAY && p.arg1 in h.socks && h.socks[p.arg1].place == Active && h.socks[p.arg1].peer != 0 && h.socks[p.arg1].peer != p.arg0)
  }

  /**
   A stray packet has no effect and no answer. Any other one changes at most the socket it addresses or, if it is
   an OPEN, adds the next; and every answer goes to the socket it came from.
   */
  lemma OnlyTheAddressed(h: Host, p: Packet, svc: bool, w: WriteOutcome)
    requires HandleOk(h, p, w)
    ensures Stray(h, p) ==> HandlePacket(h, p, svc, w) == Reply(h, [])
    ensures var q := HandlePacket(h, p, svc, w);
      q.Reply? ==>
        && q.host.online == h.online
        && (forall x :: x in h.socks && x != p.arg1 && x != h.next ==> x in q.host.socks && q.host.socks[x] == h.socks[x])
        && (forall x :: x in q.host.socks && x != h.next ==> x in h.socks)
        && (q.host.next != h.next ==> p.cmd == OPEN && q.host.next == h.next + 1)
    ensures var q := HandlePacket(h, p, svc, w);
      q.Reply? && p.cmd != CLSE ==> forall k :: 0 <= k < |q.out| ==> q.out[k].arg1 == p.arg0
  {}

  /** An OPEN is accepted with the next id, answered with OKAY, and the new socket listens at once; or it is refused. */
  lemma OpenAnswered(h: Host, p: Packet, svc: bool, w: WriteOutcome)
    requires HandleOk(h, p, w) && p.cmd == OPEN && !Stray(h, p)
    ensures var q := HandlePacket(h, p, svc, w);
      && (!svc ==> q == Reply(h, [Packet(CLSE, 0, p.arg0, [])]))
      && (svc ==> (q == Fatal <==> h.next >= 0xffff_ffff))
      && (svc && q.Reply? ==> q.out == [Packet(OKAY, h.next, p.arg0, [])] && h.next in q.host.socks)
      && (svc && q.Reply? ==> var x := q.host.socks[h.next];
           x.place == Active && x.peer == p.arg0 && x.rd && !x.wr && x.queue == [] && x.Read() == x.wrote == [])
  {}

  // ---------------------------------------------------------------- two endpoints

  /**
   Endpoints A and B, the packets in flight each way, and (history) which remote id each
   accepted OPEN paired with which local id.
   */
  datatype Sys = Sys(a: Host, b: Host, ab: seq<Packet>, ba: seq<Packet>, mA: map<nat, nat>, mB: map<nat, nat>) {
    function Flip(): Sys { Sys(b, a, ba, ab, mB, mA) }
  }

  const START: Sys := Sys(Host(true, 1, map[]), Host(true, 1, map[]), [], [], map[], map[])

  /** What an endpoint can do: every nondeterministic result is part of the event. */
  datatype Event =
    | Connect(dest: Data)                                // create_local_socket and connect_to_remote
    | Deliver(svc: bool, wout: WriteOutcome)                // handle_packet on the oldest packet in flight
    | PollFd(id: nat, rd: bool, wr: bool, hup: bool)      // fdevent_process; hup also stands for an exited subprocess
    | DispatchFd(id: nat, wout: WriteOutcome, rout: ReadOutcome) // fdevent_call_fdfunc

  ghost predicate Enabled(s: Sys, e: Event, max: nat) {
    match e
    case Connect(_) => s.a.next < MAX_ID
    case Deliver(svc, w) => s.ba != [] && HandleOk(s.a, s.ba[0], w) && HandlePacket(s.a, s.ba[0], svc, w).Reply?
    case PollFd(id, r, wr, _) => id in s.a.socks && PollOk(s.a.socks[id], r, wr)
    case DispatchFd(id, w, r) =>
      && id in s.a.socks && DispatchOk(s.a.socks[id], w, r)
      && |r.data| <= max && (r.eof ==> |r.data| < max)
  }

  /** The step of endpoint A. */
  ghost function StepA(s: Sys, e: Event, max: nat): Sys
    requires Enabled(s, e, max)
  {
    match e
    case Connect(dest) =>
      s.(a := s.a.(next := s.a.next + 1, socks := s.a.socks[s.a.next := NEW_SOCK]),
         ab := s.ab + [Packet(OPEN, s.a.next, 0, dest)])
    case Deliver(svc, w) =>
      var p := s.ba[0];
      var q := HandlePacket(s.a, p, svc, w);
      var s' := s.(a := q.host, ab := s.ab + q.out, ba := s.ba[1..]);
      if q.host.next != s.a.next then s'.(mA := s.mA[s.a.next := p.arg0], mB := s.mB[p.arg0 := s.a.next]) else s'
    case PollFd(id, r, wr, hup) =>
      s.(a := s.a.(socks := s.a.socks[id := Poll(s.a.socks[id], r, wr, hup)]))
    case DispatchFd(id, w, r) =>
      var x := s.a.socks[id];
      var f := Dispatch(x, w, r);
      s.(a := s.a.(socks := s.a.socks[id := f.sock]), ab := s.ab + LabelAll(f.out, id, x.peer))
  }

  /** connect_to_remote asks for dest under a new id, and waits for the answer before it listens. */
  lemma ConnectAsks(s: Sys, dest: Data, max: nat)
    requires Enabled(s, Connect(dest), max) && s.a.next !in s.a.socks
    ensures var s1 := StepA(s, Connect(dest), max); var id := s.a.next;
      && s1.ab == s.ab + [Packet(OPEN, id, 0, dest)] && s1.b == s.b && s1.ba == s.ba
      && s1.a.socks - {id} == s.a.socks && id in s1.a.socks && s1.a.socks[id].peer == 0 && !s1.a.socks[id].rd
  {}

  /** An event and the endpoint it happens at. */
  datatype Move = Move(atA: bool, e: Event)

  /** One move of the system; a move that is not enabled changes nothing. */
  ghost function Step(s: Sys, m: Move, max: nat): Sys {
    if m.atA then (if Enabled(s, m.e, max) then StepA(s, m.e, max) else s)
    else (if Enabled(s.Flip(), m.e, max) then StepA(s.Flip(), m.e, max).Flip() else s)
  }

  ghost function Run(s: Sys, ms: seq<Move>, max: nat): Sys
    decreases |ms|
  {
    if ms == [] then s else Run(Step(s, ms[0], max), ms[1..], max)
  }

  // ---------------------------------------------------------------- streams inside the system

  predicate IsFor(p: Packet, a: nat, b: nat) {
    p.cmd != OPEN && p.arg0 == a && p.arg1 == b
  }

  function Unlabel(p: Packet): Msg {
    match p.cmd
    case OKAY => Okay
    case WRTE => Wrte(p.data)
    case CLSE => Clse
    case OPEN => Clse
  }

  /** The messages of stream (a, b) in a channel. */
  function Proj(ch: seq<Packet>, a: nat, b: nat): seq<Msg> {
    if ch == [] then []
    else (if IsFor(ch[0], a, b) then [Unlabel(ch[0])] else []) + Proj(ch[1..], a, b)
  }

  ghost function ViewOf(s: Sys, a: nat): View
    requires a in s.mA && a in s.a.socks && s.mA[a] in s.b.socks
  {
    View(s.a.socks[a], s.b.socks[s.mA[a]], Proj(s.ab, a, s.mA[a]), Proj(s.ba, s.mA[a], a))
  }

  predicate IsOpen(p: Packet, x: nat) { p.cmd == OPEN && p.arg0 == x }

  ghost predicate HasOpen(ch: seq<Packet>, x: nat) {
    exists i :: 0 <= i < |ch| && IsOpen(ch[i], x)
  }

  predicate IsRefusal(p: Packet, x: nat) { p.cmd == CLSE && p.arg0 == 0 && p.arg1 == x }

  ghost predicate HasRefusal(ch: seq<Packet>, x: nat) {
    exists i :: 0 <= i < |ch| && IsRefusal(ch[i], x)
  }

  /** A packet from A to B speaks of a pending OPEN, a refused one, or an established pair. */
  ghost predicate PacketOk(s: Sys, p: Packet) {
    if p.cmd == OPEN then p.arg0 in s.a.socks && p.arg0 !in s.mA && p.arg1 == 0
    else if p.cmd == CLSE && p.arg0 == 0 then p.arg1 in s.b.socks && p.arg1 !in s.mB && !HasOpen(s.ba, p.arg1)
    else p.arg0 in s.mA && s.mA[p.arg0] == p.arg1
  }

  /** The socket table of A: ids in range, and peers that are the recorded pairing. */
  ghost predicate Table(s: Sys) {
    && s.a.online && s.a.next > 0
    && (forall x :: x in s.a.socks ==> 0 < x < s.a.next)
    && (forall x :: x in s.mA ==> x in s.a.socks && s.mA[x] in s.mB && s.mB[s.mA[x]] == x)
    && (forall x :: x in s.a.socks && s.a.socks[x].peer != 0 ==> x in s.mA && s.mA[x] == s.a.socks[x].peer)
  }

  /** Every socket of A is consistent, and one that was never paired has carried nothing. */
  ghost predicate Sound(s: Sys) {
    && (forall x :: x in s.a.socks ==> SockInv(s.a.socks[x]))
    && (forall x :: x in s.a.socks && x !in s.mA ==> Unused(s.a.socks[x]))
  }

  /** An unpaired socket of A still has its OPEN, or its refusal, in flight. */
  ghost predicate Pending(s: Sys) {
    forall x :: x in s.a.socks && x !in s.mA && s.a.socks[x].place == Active ==> HasOpen(s.ab, x) || HasRefusal(s.ba, x)
  }

  ghost predicate Packets(s: Sys) {
    forall i :: 0 <= i < |s.ab| ==> PacketOk(s, s.ab[i])
  }

  ghost predicate OneOpen(ch: seq<Packet>) {
    forall i, j :: 0 <= i < j < |ch| && ch[i].cmd == OPEN && ch[j].cmd == OPEN ==> ch[i].arg0 != ch[j].arg0
  }

  /** The bookkeeping invariant of one endpoint and the channel it feeds. */
  ghost predicate Half(s: Sys) {
    Table(s) && Sound(s) && Pending(s) && Packets(s) && OneOpen(s.ab)
  }

  ghost predicate Streams(s: Sys)
    requires forall x :: x in s.mA ==> x in s.a.socks && s.mA[x] in s.b.socks
  {
    forall x :: x in s.mA ==> StreamInv(ViewOf(s, x))
  }

  /** The three parts of the invariant: the bookkeeping of either endpoint, and the streams between them. */
  datatype Facet = Here | There | Between

  ghost predicate Has(s: Sys, f: Facet) {
    match f
    case Here => Half(s)
    case There => Half(s.Flip())
    case Between => Half(s) && Half(s.Flip()) && Streams(s)
  }

  ghost predicate Inv(s: Sys) {
    forall f: Facet :: Has(s, f)
  }

  lemma Facets(s: Sys)
    requires Inv(s)
    ensures Half(s) && Half(s.Flip()) && Streams(s)
  {
    assert Has(s, Between);
  }

  lemma FlipInv(s: Sys)
    requires Inv(s)
    ensures Inv(s.Flip())
  {
    Facets(s);
    forall y | y in s.mB ensures StreamInv(ViewOf(s.Flip(), y)) {
      assert ViewOf(s.Flip(), y) == ViewOf(s, s.mB[y]).Swap();
    }
  }

  lemma {:induction false} ProjAppend(p: seq<Packet>, q: seq<Packet>, a: nat, b: nat)
    ensures Proj(p + q, a, b) == Proj(p, a, b) + Proj(q, a, b)
  {
    if p == [] {
      assert p + q == q;
    } else {
      ProjAppend(p[1..], q, a, b);
      ConcatAssoc(if IsFor(p[0], a, b) then [Unlabel(p[0])] else [], Proj(p[1..], a, b), Proj(q, a, b));
      assert (p + q)[0] == p[0] && (p + q)[1..] == p[1..] + q;
    }
  }

  lemma {:induction false} ProjNone(ch: seq<Packet>, a: nat, b: nat)
    requires forall i :: 0 <= i < |ch| ==> !IsFor(ch[i], a, b)
    ensures Proj(ch, a, b) == []
  {
    if ch != [] {
      assert !IsFor(ch[0], a, b);
      forall i | 0 <= i < |ch[1..]| ensures !IsFor(ch[1..][i], a, b) {
        assert ch[1..][i] == ch[i + 1];
      }
      ProjNone(ch[1..], a, b);
    }
  }

  lemma {:induction false} ProjLabel(ms: seq<Msg>, a: nat, b: nat)
    ensures Proj(LabelAll(ms, a, b), a, b) == ms
  {
    if ms != [] {
      ProjLabel(ms[1..], a, b);
    }
  }

  lemma StartInv()
    ensures Inv(START)
  {}

  // ---------------------------------------------------------------- every move keeps the invariant

  /** Socket id becomes x', says `out` to its peer, and (if pop) has consumed the oldest packet in flight to A. */
  ghost function Acted(s: Sys, id: nat, x': Sock, out: seq<Packet>, pop: bool): Sys
    requires pop ==> s.ba != []
  {
    s.(a := s.a.(socks := s.a.socks[id := x']), ab := s.ab + out, ba := if pop then s.ba[1..] else s.ba)
  }

  lemma OpenStays(ch: seq<Packet>, q: seq<Packet>, x: nat)
    ensures HasOpen(ch, x) ==> HasOpen(ch + q, x)
    ensures HasRefusal(ch, x) ==> HasRefusal(ch + q, x)
    ensures (forall i :: 0 <= i < |q| ==> q[i].cmd != OPEN) && HasOpen(ch + q, x) ==> HasOpen(ch, x)
  {
    if HasOpen(ch, x) {
      var i :| 0 <= i < |ch| && IsOpen(ch[i], x);
      assert (ch + q)[i] == ch[i];
    }
    if HasRefusal(ch, x) {
      var i :| 0 <= i < |ch| && IsRefusal(ch[i], x);
      assert (ch + q)[i] == ch[i];
    }
    if (forall i :: 0 <= i < |q| ==> q[i].cmd != OPEN) && HasOpen(ch + q, x) {
      var i :| 0 <= i < |ch + q| && IsOpen((ch + q)[i], x);
      assert IsOpen(ch[i], x);
    }
  }

  lemma OpenPopped(ch: seq<Packet>, x: nat)
    requires ch != []
    ensures HasOpen(ch[1..], x) ==> HasOpen(ch, x)
    ensures HasOpen(ch, x) && !IsOpen(ch[0], x) ==> HasOpen(ch[1..], x)
    ensures HasRefusal(ch, x) && !IsRefusal(ch[0], x) ==> HasRefusal(ch[1..], x)
  {
    if HasOpen(ch[1..], x) {
      var i :| 0 <= i < |ch[1..]| && IsOpen(ch[1..][i], x);
      assert IsOpen(ch[i + 1], x);
    }
    if HasOpen(ch, x) && !IsOpen(ch[0], x) {
      var i :| 0 <= i < |ch| && IsOpen(ch[i], x);
      assert IsOpen(ch[1..][i - 1], x);
    }
    if HasRefusal(ch, x) && !IsRefusal(ch[0], x) {
      var i :| 0 <= i < |ch| && IsRefusal(ch[i], x);
      assert IsRefusal(ch[1..][i - 1], x);
    }
  }

  /** Packets of an established pair, none of them an OPEN. */
  ghost predicate PairPackets(s: Sys, id: nat, out: seq<Packet>) {
    forall i :: 0 <= i < |out| ==> id in s.mA && IsFor(out[i], id, s.mA[id])
  }

  /** What an acting socket may become. */
  ghost predicate Becomes(s: Sys, id: nat, x': Sock) {
    && id in s.a.socks && SockInv(x')
    && (x'.peer != 0 ==> id in s.mA && s.mA[id] == x'.peer)
    && (id !in s.mA ==> Unused(x') && (x'.place == Active ==> s.a.socks[id].place == Active))
  }

  /** The packet an acting socket may consume. */
  ghost predicate Consumes(s: Sys, id: nat, x': Sock) {
    && s.ba != []
    && (if id in s.mA then IsFor(s.ba[0], s.mA[id], id) else IsRefusal(s.ba[0], id) && x'.place != Active)
  }

  lemma ActedPending(s: Sys, id: nat, x': Sock, out: seq<Packet>, pop: bool)
    requires Table(s) && Pending(s) && Pending(s.Flip()) && Becomes(s, id, x')
    requires pop ==> Consumes(s, id, x')
    ensures Pending(Acted(s, id, x', out, pop)) && Pending(Acted(s, id, x', out, pop).Flip())
  {
    var s' := Acted(s, id, x', out, pop);
    forall x | x in s'.a.socks && x !in s'.mA && s'.a.socks[x].place == Active
      ensures HasOpen(s'.ab, x) || HasRefusal(s'.ba, x)
    {
      OpenStays(s.ab, out, x);
      if pop { OpenPopped(s.ba, x); }
    }
    forall y | y in s'.b.socks && y !in s'.mB && s'.b.socks[y].place == Active
      ensures HasOpen(s'.ba, y) || HasRefusal(s'.ab, y)
    {
      OpenStays(s.ab, out, y);
      if pop { OpenPopped(s.ba, y); }
    }
  }

  lemma ActedPackets(s: Sys, id: nat, x': Sock, out: seq<Packet>, pop: bool)
    requires Table(s) && Packets(s) && Becomes(s, id, x') && PairPackets(s, id, out)
    requires pop ==> Consumes(s, id, x')
    ensures Packets(Acted(s, id, x', out, pop))
  {
    var s' := Acted(s, id, x', out, pop);
    forall i | 0 <= i < |s'.ab| ensures PacketOk(s', s'.ab[i]) {
      if i < |s.ab| {
        assert PacketOk(s, s.ab[i]);
        if pop { OpenPopped(s.ba, s.ab[i].arg1); }
      } else {
        var q := out[i - |s.ab|];
        assert IsFor(q, id, s.mA[id]);
      }
    }
  }

  lemma ActedPacketsOther(s: Sys, id: nat, x': Sock, out: seq<Packet>, pop: bool)
    requires Table(s) && Packets(s.Flip()) && Becomes(s, id, x') && PairPackets(s, id, out)
    requires pop ==> s.ba != []
    ensures Packets(Acted(s, id, x', out, pop).Flip())
  {
    var s' := Acted(s, id, x', out, pop).Flip();
    forall i | 0 <= i < |s'.ab| ensures PacketOk(s', s'.ab[i]) {
      var p := s.ba[if pop then i + 1 else i];
      assert PacketOk(s.Flip(), p);
      OpenStays(s.ab, out, p.arg1);
    }
  }

  lemma OneOpenStays(ch: seq<Packet>, q: seq<Packet>)
    requires OneOpen(ch) && forall i :: 0 <= i < |q| ==> q[i].cmd != OPEN
    ensures OneOpen(ch + q)
    ensures ch != [] ==> OneOpen(ch[1..])
  {}

  lemma ActedTable(s: Sys, id: nat, x': Sock, out: seq<Packet>, pop: bool)
    requires Table(s) && Becomes(s, id, x')
    requires pop ==> s.ba != []
    ensures Table(Acted(s, id, x', out, pop))
  {}

  lemma ActedSound(s: Sys, id: nat, x': Sock, out: seq<Packet>, pop: bool)
    requires Sound(s) && Becomes(s, id, x')
    requires pop ==> s.ba != []
    ensures Sound(Acted(s, id, x', out, pop))
    ensures Sound(s.Flip()) ==> Sound(Acted(s, id, x', out, pop).Flip())
  {}

  lemma ActedTableOther(s: Sys, id: nat, x': Sock, out: seq<Packet>, pop: bool)
    requires Table(s) && Table(s.Flip()) && Becomes(s, id, x')
    requires pop ==> s.ba != []
    ensures Table(Acted(s, id, x', out, pop).Flip())
  {
    var s' := Acted(s, id, x', out, pop).Flip();
    assert s'.a == s.b && s'.mA == s.mB && s'.mB == s.mA;
  }

  lemma ActedHalf(s: Sys, id: nat, x': Sock, out: seq<Packet>, pop: bool)
    requires Half(s) && Half(s.Flip()) && Becomes(s, id, x') && PairPackets(s, id, out)
    requires pop ==> Consumes(s, id, x')
    ensures Half(Acted(s, id, x', out, pop)) && Half(Acted(s, id, x', out, pop).Flip())
  {
    ActedTable(s, id, x', out, pop);
    ActedTableOther(s, id, x', out, pop);
    ActedSound(s, id, x', out, pop);
    ActedPending(s, id, x', out, pop);
    ActedPackets(s, id, x', out, pop);
    ActedPacketsOther(s, id, x', out, pop);
    OneOpenStays(s.ab, out);
    OneOpenStays(s.ba, []);
  }

  lemma ActedView(s: Sys, id: nat, x': Sock, out: seq<Packet>, pop: bool)
    requires Table(s) && Table(s.Flip()) && Becomes(s, id, x') && PairPackets(s, id, out) && id in s.mA
    requires pop ==> Consumes(s, id, x')
    ensures var v := ViewOf(s, id);
      ViewOf(Acted(s, id, x', out, pop), id)
      == View(x', v.y, v.xy + Proj(out, id, s.mA[id]), if pop then v.yx[1..] else v.yx)
    ensures pop ==> ViewOf(s, id).yx != [] && ViewOf(s, id).yx[0] == Unlabel(s.ba[0])
  {
    ProjAppend(s.ab, out, id, s.mA[id]);
  }

  lemma ActedOtherView(s: Sys, id: nat, x': Sock, out: seq<Packet>, pop: bool, x: nat)
    requires Table(s) && Table(s.Flip()) && Becomes(s, id, x') && PairPackets(s, id, out)
    requires pop ==> Consumes(s, id, x')
    requires x in s.mA && x != id
    ensures ViewOf(Acted(s, id, x', out, pop), x) == ViewOf(s, x)
  {
    ProjAppend(s.ab, out, x, s.mA[x]);
    ProjNone(out, x, s.mA[x]);
    if pop { assert !IsFor(s.ba[0], s.mA[x], x); }
  }

  lemma ActedKeeps(s: Sys, id: nat, x': Sock, out: seq<Packet>, pop: bool)
    requires Inv(s) && Table(s) && Table(s.Flip()) && Becomes(s, id, x') && PairPackets(s, id, out)
    requires pop ==> Consumes(s, id, x')
    requires id in s.mA ==> var v := ViewOf(s, id);
      StreamInv(View(x', v.y, v.xy + Proj(out, id, s.mA[id]), if pop && v.yx != [] then v.yx[1..] else v.yx))
    ensures Inv(Acted(s, id, x', out, pop))
  {
    Facets(s);
    ActedHalf(s, id, x', out, pop);
    var s' := Acted(s, id, x', out, pop);
    forall x | x in s'.mA ensures StreamInv(ViewOf(s', x)) {
      if x == id { ActedView(s, id, x', out, pop); } else { ActedOtherView(s, id, x', out, pop, x); }
    }
  }

  /** Labelled messages are this pair's packets, and projecting them gives the messages back. */
  lemma LabelledOut(s: Sys, id: nat, x: Sock, out: seq<Msg>)
    requires x.peer != 0 ==> id in s.mA && s.mA[id] == x.peer
    requires x.peer == 0 ==> out == []
    ensures PairPackets(s, id, LabelAll(out, id, x.peer))
    ensures id in s.mA ==> Proj(LabelAll(out, id, x.peer), id, s.mA[id]) == out
  {
    if x.peer != 0 { ProjLabel(out, id, x.peer); }
  }

  /** A socket acting on its own. */
  lemma ActAloneKeeps(s: Sys, id: nat, x': Sock, out: seq<Msg>)
    requires Inv(s) && id in s.a.socks && SockInv(x')
    requires Paid(s.a.socks[id], x', out)
    requires Unused(s.a.socks[id]) && s.a.socks[id].peer == 0 ==> Unused(x')
    ensures Inv(Acted(s, id, x', LabelAll(out, id, s.a.socks[id].peer), false))
  {
    Facets(s);
    var x := s.a.socks[id];
    var ps := LabelAll(out, id, x.peer);
    LabelledOut(s, id, x, out);
    assert Becomes(s, id, x');
    if id in s.mA {
      SendKeeps(ViewOf(s, id), x', out);
    }
    ActedKeeps(s, id, x', ps, false);
  }

  lemma {:induction false} LabelAppend(p: seq<Msg>, q: seq<Msg>, a: nat, b: nat)
    ensures LabelAll(p + q, a, b) == LabelAll(p, a, b) + LabelAll(q, a, b)
  {}

  /** The id tables agree about p, so handle_packet can only reach the socket p is meant for. */
  ghost predicate Addressed(h: Host, p: Packet) {
    && h.online && p.cmd != OPEN && p.arg0 != 0 && p.arg1 != 0 && p.arg1 in h.socks
    && (h.socks[p.arg1].peer == 0 || h.socks[p.arg1].peer == p.arg0)
  }

  ghost function Replied(h: Host, p: Packet, w: WriteOutcome): Reply
    requires Addressed(h, p) && HandleOk(h, p, w)
  {
    var e := OnMsg(h.socks[p.arg1], Unlabel(p), p.arg0, w);
    Reply(h.(socks := h.socks[p.arg1 := e.sock]), LabelAll(e.out, p.arg1, p.arg0))
  }

  lemma HandleOkayPacket(h: Host, p: Packet, svc: bool, w: WriteOutcome)
    requires Addressed(h, p) && HandleOk(h, p, w) && p.cmd == OKAY
    ensures HandlePacket(h, p, svc, w) == Replied(h, p, w)
  {
    var x := h.socks[p.arg1];
    assert h.socks[p.arg1 := x] == h.socks;
    assert LabelAll([Clse], p.arg1, p.arg0) == [Packet(CLSE, p.arg1, p.arg0, [])];
  }

  lemma HandleClsePacket(h: Host, p: Packet, svc: bool, w: WriteOutcome)
    requires Addressed(h, p) && HandleOk(h, p, w) && p.cmd == CLSE
    ensures HandlePacket(h, p, svc, w) == Replied(h, p, w)
  {
    var x := h.socks[p.arg1];
    assert h.socks[p.arg1 := x] == h.socks;
  }

  lemma HandleWrtePacket(h: Host, p: Packet, svc: bool, w: WriteOutcome)
    requires Addressed(h, p) && HandleOk(h, p, w) && p.cmd == WRTE
    ensures HandlePacket(h, p, svc, w) == Replied(h, p, w)
  {
    var x := h.socks[p.arg1];
    if Found(h, p.arg1, p.arg0) {
      var e := Enqueue(x, p.data, w);
      var ok := if e.ready then [Okay] else [];
      LabelAppend(e.eff.out, ok, p.arg1, p.arg0);
      assert OnMsg(x, Unlabel(p), p.arg0, w) == Effect(e.eff.sock, e.eff.out + ok);
    } else {
      assert h.socks[p.arg1 := x] == h.socks;
    }
  }

  /** A packet of an established pair does at A what OnMsg says. */
  lemma HandleIsOnMsg(h: Host, p: Packet, svc: bool, w: WriteOutcome)
    requires Addressed(h, p) && HandleOk(h, p, w)
    ensures HandlePacket(h, p, svc, w) == Replied(h, p, w)
  {
    match p.cmd {
      case OKAY => HandleOkayPacket(h, p, svc, w);
      case CLSE => HandleClsePacket(h, p, svc, w);
      case WRTE => HandleWrtePacket(h, p, svc, w);
    }
  }

  lemma PairAddressed(s: Sys)
    requires Table(s) && Table(s.Flip()) && Packets(s.Flip()) && s.ba != []
    requires s.ba[0].cmd != OPEN && s.ba[0].arg0 != 0
    ensures Addressed(s.a, s.ba[0])
    ensures var p := s.ba[0]; p.arg1 in s.mA && s.mA[p.arg1] == p.arg0 && IsFor(p, p.arg0, p.arg1)
    ensures var p := s.ba[0]; ViewOf(s, p.arg1).yx != [] && ViewOf(s, p.arg1).yx[0] == Unlabel(p)
  {
    assert PacketOk(s.Flip(), s.ba[0]);
  }

  lemma DeliverPairStream(s: Sys, w: WriteOutcome)
    requires Inv(s) && Table(s) && Table(s.Flip()) && s.ba != [] && HandleOk(s.a, s.ba[0], w) && Addressed(s.a, s.ba[0])
    requires var p := s.ba[0]; p.arg1 in s.mA && s.mA[p.arg1] == p.arg0
    requires var p := s.ba[0]; ViewOf(s, p.arg1).yx != [] && ViewOf(s, p.arg1).yx[0] == Unlabel(p)
    ensures var p := s.ba[0];
      var v := ViewOf(s, p.arg1);
      var e := OnMsg(v.x, Unlabel(p), p.arg0, w);
      StreamInv(View(e.sock, v.y, v.xy + e.out, v.yx[1..])) && (e.sock.peer == 0 || e.sock.peer == p.arg0)
  {
    Facets(s);
    ReceiveKeeps(ViewOf(s, s.ba[0].arg1), s.ba[0].arg0, w);
  }

  lemma DeliverStep(s: Sys, svc: bool, w: WriteOutcome, max: nat, id: nat, x': Sock, out: seq<Packet>)
    requires s.ba != [] && HandleOk(s.a, s.ba[0], w)
    requires HandlePacket(s.a, s.ba[0], svc, w) == Reply(s.a.(socks := s.a.socks[id := x']), out)
    ensures Enabled(s, Deliver(svc, w), max)
    ensures StepA(s, Deliver(svc, w), max) == Acted(s, id, x', out, true)
  {}

  lemma DeliverPairKeeps(s: Sys, svc: bool, w: WriteOutcome, max: nat)
    requires Inv(s) && s.ba != [] && HandleOk(s.a, s.ba[0], w)
    requires s.ba[0].cmd != OPEN && s.ba[0].arg0 != 0
    ensures Enabled(s, Deliver(svc, w), max) && Inv(StepA(s, Deliver(svc, w), max))
  {
    Facets(s);
    PairAddressed(s);
    DeliverPairStream(s, w);
    var p := s.ba[0];
    var e := OnMsg(s.a.socks[p.arg1], Unlabel(p), p.arg0, w);
    DeliverPairActed(s, p.arg1, e);
    HandleIsOnMsg(s.a, p, svc, w);
    DeliverStep(s, svc, w, max, p.arg1, e.sock, LabelAll(e.out, p.arg1, p.arg0));
  }

  lemma PairBecomes(s: Sys, id: nat, x': Sock, out: seq<Msg>)
    requires Table(s) && id in s.mA && SockInv(x')
    requires x'.peer == 0 || x'.peer == s.mA[id]
    ensures Becomes(s, id, x') && PairPackets(s, id, LabelAll(out, id, s.mA[id]))
    ensures Proj(LabelAll(out, id, s.mA[id]), id, s.mA[id]) == out
  {
    ProjLabel(out, id, s.mA[id]);
  }

  lemma DeliverPairActed(s: Sys, id: nat, e: Effect)
    requires Inv(s) && Table(s) && Table(s.Flip()) && s.ba != [] && id in s.mA && IsFor(s.ba[0], s.mA[id], id)
    requires var v := ViewOf(s, id); v.yx != [] && StreamInv(View(e.sock, v.y, v.xy + e.out, v.yx[1..]))
    requires e.sock.peer == 0 || e.sock.peer == s.mA[id]
    ensures Inv(Acted(s, id, e.sock, LabelAll(e.out, id, s.mA[id]), true))
  {
    Facets(s);
    PairBecomes(s, id, e.sock, e.out);
    ActedKeeps(s, id, e.sock, LabelAll(e.out, id, s.mA[id]), true);
  }

  lemma DeliverRefusalKeeps(s: Sys, svc: bool, w: WriteOutcome, max: nat)
    requires Inv(s) && s.ba != [] && HandleOk(s.a, s.ba[0], w)
    requires s.ba[0].cmd == CLSE && s.ba[0].arg0 == 0
    ensures Enabled(s, Deliver(svc, w), max) && Inv(StepA(s, Deliver(svc, w), max))
  {
    Facets(s);
    var p := s.ba[0];
    assert PacketOk(s.Flip(), p);
    var id := p.arg1;
    var x := s.a.socks[id];
    assert IsRefusal(p, id);
    CloseUnused(x);
    var x' := if x.place == Active then Close(x).sock else x;
    ActedKeeps(s, id, x', [], true);
    assert s.a.socks[id := x] == s.a.socks;
    DeliverStep(s, svc, w, max, id, x', []);
  }

  lemma CloseUnused(x: Sock)
    requires SockInv(x) && Unused(x) && x.peer == 0
    ensures x.place == Active ==> SockInv(Close(x).sock) && Unused(Close(x).sock) && Close(x) == Effect(Close(x).sock, [])
    ensures Close(x).sock.place == Freed && Close(x).sock.peer == 0
  {}

  /** A refuses the OPEN it just received. */
  ghost function Refused(s: Sys): Sys
    requires s.ba != []
  {
    s.(ab := s.ab + [Packet(CLSE, 0, s.ba[0].arg0, [])], ba := s.ba[1..])
  }

  /** A accepts the OPEN it just received: a new local socket, paired with the opener, OKAY in flight. */
  ghost function AcceptedOpen(s: Sys): Sys
    requires s.ba != []
  {
    var y, n := s.ba[0].arg0, s.a.next;
    Sys(s.a.(next := n + 1, socks := s.a.socks[n := Ready(NEW_SOCK.(peer := y))]), s.b,
        s.ab + [Packet(OKAY, n, y, [])], s.ba[1..], s.mA[n := y], s.mB[y := n])
  }

  lemma OpenFacts(s: Sys)
    requires Half(s) && Half(s.Flip()) && s.ba != [] && s.ba[0].cmd == OPEN
    ensures var y := s.ba[0].arg0;
      && y in s.b.socks && y !in s.mB && y != 0 && s.ba[0].arg1 == 0
      && !HasOpen(s.ba[1..], y) && !HasRefusal(s.ab, y)
    ensures s.a.next !in s.a.socks && s.a.next !in s.mA && s.a.next > 0
  {
    var y := s.ba[0].arg0;
    assert PacketOk(s.Flip(), s.ba[0]);
    assert IsOpen(s.ba[0], y);
    forall i | 0 <= i < |s.ab| ensures !IsRefusal(s.ab[i], y) {
      assert PacketOk(s, s.ab[i]);
    }
  }

  lemma RefusePending(s: Sys)
    requires Half(s) && Half(s.Flip()) && s.ba != [] && s.ba[0].cmd == OPEN
    ensures Pending(Refused(s)) && Pending(Refused(s).Flip())
  {
    var y := s.ba[0].arg0;
    var out := [Packet(CLSE, 0, y, [])];
    var s' := Refused(s);
    assert IsRefusal(s'.ab[|s.ab|], y);
    forall x | HasOpen(s.ab, x) ensures HasOpen(s'.ab, x) { OpenStays(s.ab, out, x); }
    forall x | HasRefusal(s.ab, x) ensures HasRefusal(s'.ab, x) { OpenStays(s.ab, out, x); }
    forall x | HasRefusal(s.ba, x) ensures HasRefusal(s'.ba, x) { OpenPopped(s.ba, x); }
    forall x | x != y && HasOpen(s.ba, x) ensures HasOpen(s'.ba, x) { OpenPopped(s.ba, x); }
  }

  lemma RefusePackets(s: Sys)
    requires Half(s) && Half(s.Flip()) && s.ba != [] && s.ba[0].cmd == OPEN
    ensures Packets(Refused(s)) && Packets(Refused(s).Flip())
  {
    OpenFacts(s);
    var out := [Packet(CLSE, 0, s.ba[0].arg0, [])];
    var s' := Refused(s);
    forall x | HasOpen(s'.ab, x) ensures HasOpen(s.ab, x) { OpenStays(s.ab, out, x); }
    forall x | HasOpen(s'.ba, x) ensures HasOpen(s.ba, x) { OpenPopped(s.ba, x); }
    forall i | 0 <= i < |s'.ab| ensures PacketOk(s', s'.ab[i]) {
      if i < |s.ab| { assert PacketOk(s, s.ab[i]); }
    }
    forall i | 0 <= i < |s'.ba| ensures PacketOk(s'.Flip(), s'.ba[i]) {
      assert PacketOk(s.Flip(), s.ba[i + 1]);
    }
  }

  /** Changing packets that are not this stream's does not change the stream. */
  lemma SameView(s: Sys, s': Sys, x: nat, out: seq<Packet>)
    requires Table(s) && Table(s.Flip()) && x in s.mA && x in s'.mA && s'.mA[x] == s.mA[x]
    requires x in s'.a.socks && s'.a.socks[x] == s.a.socks[x]
    requires s.mA[x] in s'.b.socks && s'.b.socks[s.mA[x]] == s.b.socks[s.mA[x]]
    requires s'.ab == s.ab + out && forall i :: 0 <= i < |out| ==> !IsFor(out[i], x, s.mA[x])
    requires s'.ba == s.ba || (s.ba != [] && s'.ba == s.ba[1..] && !IsFor(s.ba[0], s.mA[x], x))
    ensures ViewOf(s', x) == ViewOf(s, x)
  {
    ProjAppend(s.ab, out, x, s.mA[x]);
    ProjNone(out, x, s.mA[x]);
  }

  /** Packets outside every stream change no stream. */
  lemma SameStreams(s: Sys, s': Sys, out: seq<Packet>)
    requires Table(s) && Table(s.Flip()) && Streams(s)
    requires s'.mA == s.mA && s'.b == s.b
    requires forall x :: x in s.mA ==> x in s'.a.socks && s'.a.socks[x] == s.a.socks[x]
    requires s'.ab == s.ab + out && forall i, x, y :: 0 <= i < |out| && x in s.mA ==> !IsFor(out[i], x, y)
    requires s'.ba == s.ba || (s.ba != [] && s'.ba == s.ba[1..] && s.ba[0].cmd == OPEN)
    ensures Streams(s')
  {
    forall x | x in s'.mA ensures StreamInv(ViewOf(s', x)) {
      SameView(s, s', x, out);
    }
  }

  lemma RefuseHalf(s: Sys)
    requires Half(s) && Half(s.Flip()) && s.ba != [] && s.ba[0].cmd == OPEN
    ensures Half(Refused(s)) && Half(Refused(s).Flip())
  {
    RefusePending(s);
    RefusePackets(s);
    OneOpenStays(s.ab, [Packet(CLSE, 0, s.ba[0].arg0, [])]);
    OneOpenStays(s.ba, []);
  }

  lemma RefuseKeeps(s: Sys)
    requires Inv(s) && s.ba != [] && s.ba[0].cmd == OPEN
    ensures Inv(Refused(s))
  {
    Facets(s);
    RefuseHalf(s);
    SameStreams(s, Refused(s), [Packet(CLSE, 0, s.ba[0].arg0, [])]);
  }

  lemma AcceptTable(s: Sys)
    requires Table(s) && Table(s.Flip()) && s.ba != []
    requires s.ba[0].arg0 in s.b.socks && s.ba[0].arg0 !in s.mB && s.ba[0].arg0 != 0
    ensures Table(AcceptedOpen(s)) && Table(AcceptedOpen(s).Flip())
  {}

  lemma AcceptSound(s: Sys)
    requires Sound(s) && Sound(s.Flip()) && s.ba != [] && s.ba[0].arg0 != 0
    ensures Sound(AcceptedOpen(s)) && Sound(AcceptedOpen(s).Flip())
  {}

  lemma AcceptPending(s: Sys)
    requires Half(s) && Half(s.Flip()) && s.ba != [] && s.ba[0].cmd == OPEN
    ensures Pending(AcceptedOpen(s)) && Pending(AcceptedOpen(s).Flip())
  {
    OpenFacts(s);
    var y := s.ba[0].arg0;
    var out := [Packet(OKAY, s.a.next, y, [])];
    var s' := AcceptedOpen(s);
    forall x | HasOpen(s.ab, x) ensures HasOpen(s'.ab, x) { OpenStays(s.ab, out, x); }
    forall x | HasRefusal(s.ab, x) ensures HasRefusal(s'.ab, x) { OpenStays(s.ab, out, x); }
    forall x | HasRefusal(s.ba, x) ensures HasRefusal(s'.ba, x) { OpenPopped(s.ba, x); }
    forall x | x != y && HasOpen(s.ba, x) ensures HasOpen(s'.ba, x) { OpenPopped(s.ba, x); }
  }

  lemma AcceptPackets(s: Sys)
    requires Half(s) && Half(s.Flip()) && s.ba != [] && s.ba[0].cmd == OPEN
    ensures Packets(AcceptedOpen(s))
  {
    OpenFacts(s);
    var y := s.ba[0].arg0;
    var s' := AcceptedOpen(s);
    forall x | HasOpen(s'.ba, x) ensures HasOpen(s.ba, x) { OpenPopped(s.ba, x); }
    forall i | 0 <= i < |s'.ab| ensures PacketOk(s', s'.ab[i]) {
      if i < |s.ab| {
        assert PacketOk(s, s.ab[i]);
        assert !IsRefusal(s.ab[i], y);
      }
    }
  }

  lemma AcceptPacketsOther(s: Sys)
    requires Half(s) && Half(s.Flip()) && s.ba != [] && s.ba[0].cmd == OPEN
    ensures Packets(AcceptedOpen(s).Flip())
  {
    OpenFacts(s);
    var y := s.ba[0].arg0;
    var out := [Packet(OKAY, s.a.next, y, [])];
    var s' := AcceptedOpen(s);
    forall x | HasOpen(s'.ab, x) ensures HasOpen(s.ab, x) { OpenStays(s.ab, out, x); }
    forall i | 0 <= i < |s'.ba| ensures PacketOk(s'.Flip(), s'.ba[i]) {
      assert PacketOk(s.Flip(), s.ba[i + 1]);
      assert !IsOpen(s.ba[1..][i], y);
    }
  }

  /** The new stream starts with one OKAY in flight and nothing else. */
  lemma AcceptNewView(s: Sys)
    requires Half(s) && Half(s.Flip()) && s.ba != [] && s.ba[0].cmd == OPEN
    requires Table(AcceptedOpen(s)) && Table(AcceptedOpen(s).Flip())
    ensures var y := s.ba[0].arg0;
      ViewOf(AcceptedOpen(s), s.a.next) == View(Ready(NEW_SOCK.(peer := y)), s.b.socks[y], [Okay], [])
  {
    OpenFacts(s);
    var y, n := s.ba[0].arg0, s.a.next;
    var out := [Packet(OKAY, n, y, [])];
    forall i | 0 <= i < |s.ab| ensures !IsFor(s.ab[i], n, y) { assert PacketOk(s, s.ab[i]); }
    forall i | 0 <= i < |s.ba[1..]| ensures !IsFor(s.ba[1..][i], y, n) { assert PacketOk(s.Flip(), s.ba[i + 1]); }
    ProjNone(s.ab, n, y);
    ProjNone(s.ba[1..], y, n);
    ProjAppend(s.ab, out, n, y);
    assert Proj(out, n, y) == [Okay] + Proj(out[1..], n, y);
  }

  lemma NewStreamInv(y: Sock, p: nat)
    requires SockInv(y) && Unused(y) && y.peer == 0 && p != 0
    ensures StreamInv(View(Ready(NEW_SOCK.(peer := p)), y, [Okay], []))
  {
    assert [Okay][1..] == [];
    SmallMsgs(Okay);
  }

  lemma AcceptHalf(s: Sys)
    requires Half(s) && Half(s.Flip()) && s.ba != [] && s.ba[0].cmd == OPEN
    ensures Half(AcceptedOpen(s)) && Half(AcceptedOpen(s).Flip())
  {
    OpenFacts(s);
    AcceptTable(s);
    AcceptSound(s);
    AcceptPending(s);
    AcceptPackets(s);
    AcceptPacketsOther(s);
    OneOpenStays(s.ab, [Packet(OKAY, s.a.next, s.ba[0].arg0, [])]);
    OneOpenStays(s.ba, []);
  }

  lemma AcceptOldView(s: Sys, x: nat)
    requires Table(s) && Table(s.Flip()) && s.ba != [] && s.ba[0].cmd == OPEN && x in s.mA
    requires s.a.next !in s.mA && s.ba[0].arg0 !in s.mB && s.ba[0].arg0 in s.b.socks
    ensures x != s.a.next
    ensures var s' := AcceptedOpen(s);
      && x in s'.mA && x in s'.a.socks && s'.mA[x] in s'.b.socks && ViewOf(s', x) == ViewOf(s, x)
  {
    SameView(s, AcceptedOpen(s), x, [Packet(OKAY, s.a.next, s.ba[0].arg0, [])]);
  }

  lemma AcceptKeeps(s: Sys)
    requires Inv(s) && s.ba != [] && s.ba[0].cmd == OPEN
    ensures Inv(AcceptedOpen(s))
  {
    Facets(s);
    AcceptHalf(s);
    OpenFacts(s);
    var s' := AcceptedOpen(s);
    forall x | x in s'.mA ensures StreamInv(ViewOf(s', x)) {
      if x == s.a.next {
        AcceptNewView(s);
        NewStreamInv(s.b.socks[s.ba[0].arg0], s.ba[0].arg0);
      } else {
        AcceptOldView(s, x);
      }
    }
  }

  ghost function Connected(s: Sys, dest: Data): Sys {
    s.(a := s.a.(next := s.a.next + 1, socks := s.a.socks[s.a.next := NEW_SOCK]),
       ab := s.ab + [Packet(OPEN, s.a.next, 0, dest)])
  }

  lemma ConnectTable(s: Sys, dest: Data)
    requires Table(s) && Table(s.Flip()) && Sound(s)
    ensures Table(Connected(s, dest)) && Table(Connected(s, dest).Flip()) && Sound(Connected(s, dest))
  {}

  lemma ConnectPending(s: Sys, dest: Data)
    requires Pending(s) && Pending(s.Flip())
    ensures Pending(Connected(s, dest)) && Pending(Connected(s, dest).Flip())
  {
    var out := [Packet(OPEN, s.a.next, 0, dest)];
    var s' := Connected(s, dest);
    assert IsOpen(s'.ab[|s.ab|], s.a.next);
    forall x | HasOpen(s.ab, x) ensures HasOpen(s'.ab, x) { OpenStays(s.ab, out, x); }
    forall x | HasRefusal(s.ab, x) ensures HasRefusal(s'.ab, x) { OpenStays(s.ab, out, x); }
  }

  lemma ConnectPackets(s: Sys, dest: Data)
    requires Table(s) && Packets(s) && Packets(s.Flip()) && OneOpen(s.ab)
    ensures Packets(Connected(s, dest)) && Packets(Connected(s, dest).Flip()) && OneOpen(Connected(s, dest).ab)
  {
    var n := s.a.next;
    var s' := Connected(s, dest);
    forall i | 0 <= i < |s'.ab| ensures PacketOk(s', s'.ab[i]) && (i < |s.ab| ==> !IsOpen(s'.ab[i], n)) {
      if i < |s.ab| { assert PacketOk(s, s.ab[i]); }
    }
    forall i | 0 <= i < |s'.ba| ensures PacketOk(s'.Flip(), s'.ba[i]) {
      assert PacketOk(s.Flip(), s.ba[i]);
      forall k | 0 <= k < |s'.ab| && IsOpen(s'.ab[k], s.ba[i].arg1) && s.ba[i].arg1 in s.a.socks
        ensures IsOpen(s.ab[k], s.ba[i].arg1)
      {}
    }
  }

  lemma ConnectHalf(s: Sys, dest: Data)
    requires Half(s) && Half(s.Flip())
    ensures Half(Connected(s, dest)) && Half(Connected(s, dest).Flip())
  {
    ConnectTable(s, dest);
    ConnectPending(s, dest);
    ConnectPackets(s, dest);
  }

  lemma ConnectStreams(s: Sys, dest: Data)
    requires Table(s) && Table(s.Flip()) && Streams(s)
    ensures var s' := Connected(s, dest); (forall x :: x in s'.mA ==> x in s'.a.socks && s'.mA[x] in s'.b.socks) && Streams(s')
  {
    SameStreams(s, Connected(s, dest), [Packet(OPEN, s.a.next, 0, dest)]);
  }

  lemma ConnectKeeps(s: Sys, dest: Data)
    requires Inv(s)
    ensures Inv(Connected(s, dest))
  {
    Facets(s);
    ConnectHalf(s, dest);
    ConnectStreams(s, dest);
  }

  // ---------------------------------------------------------------- runs

  lemma DeliverOpenKeeps(s: Sys, svc: bool, w: WriteOutcome, max: nat)
    requires Inv(s) && Enabled(s, Deliver(svc, w), max) && s.ba[0].cmd == OPEN
    ensures Inv(StepA(s, Deliver(svc, w), max))
    ensures StepA(s, Deliver(svc, w), max) == if svc then AcceptedOpen(s) else Refused(s)
  {
    Facets(s);
    OpenFacts(s);
    if svc { AcceptKeeps(s); } else { RefuseKeeps(s); }
  }

  lemma DeliverKeeps(s: Sys, svc: bool, w: WriteOutcome, max: nat)
    requires Inv(s) && Enabled(s, Deliver(svc, w), max)
    ensures Inv(StepA(s, Deliver(svc, w), max))
  {
    Facets(s);
    if s.ba[0].cmd == OPEN {
      DeliverOpenKeeps(s, svc, w, max);
    } else if s.ba[0].arg0 != 0 {
      DeliverPairKeeps(s, svc, w, max);
    } else {
      RefusalHead(s);
      DeliverRefusalKeeps(s, svc, w, max);
    }
  }

  lemma RefusalHead(s: Sys)
    requires Table(s.Flip()) && Packets(s.Flip()) && s.ba != [] && s.ba[0].cmd != OPEN && s.ba[0].arg0 == 0
    ensures s.ba[0].cmd == CLSE
  {
    assert PacketOk(s.Flip(), s.ba[0]);
  }

  lemma PollKeeps(s: Sys, id: nat, rd: bool, wr: bool, hup: bool, max: nat)
    requires Inv(s) && Enabled(s, PollFd(id, rd, wr, hup), max)
    ensures Inv(StepA(s, PollFd(id, rd, wr, hup), max))
  {
    Facets(s);
    var x' := Poll(s.a.socks[id], rd, wr, hup);
    PollPaid(s.a.socks[id], rd, wr, hup);
    ActAloneKeeps(s, id, x', []);
    assert s.ab + LabelAll([], id, s.a.socks[id].peer) == s.ab;
  }

  lemma DispatchKeeps(s: Sys, id: nat, w: WriteOutcome, r: ReadOutcome, max: nat)
    requires Inv(s) && Enabled(s, DispatchFd(id, w, r), max)
    ensures Inv(StepA(s, DispatchFd(id, w, r), max))
  {
    Facets(s);
    var x := s.a.socks[id];
    var f := Dispatch(x, w, r);
    DispatchInv(x, w, r);
    DispatchPaid(x, w, r);
    if Unused(x) && x.peer == 0 { UnusedStays(x, w, r); }
    ActAloneKeeps(s, id, f.sock, f.out);
  }

  lemma StepAKeeps(s: Sys, e: Event, max: nat)
    requires Inv(s) && Enabled(s, e, max)
    ensures Inv(StepA(s, e, max))
  {
    match e {
      case Connect(dest) => ConnectKeeps(s, dest);
      case Deliver(svc, w) => DeliverKeeps(s, svc, w, max);
      case PollFd(id, rd, wr, hup) => PollKeeps(s, id, rd, wr, hup, max);
      case DispatchFd(id, w, r) => DispatchKeeps(s, id, w, r, max);
    }
  }

  lemma StepKeeps(s: Sys, m: Move, max: nat)
    requires Inv(s)
    ensures Inv(Step(s, m, max))
  {
    if m.atA {
      if Enabled(s, m.e, max) { StepAKeeps(s, m.e, max); }
    } else if Enabled(s.Flip(), m.e, max) {
      FlipInv(s);
      StepAKeeps(s.Flip(), m.e, max);
      FlipInv(StepA(s.Flip(), m.e, max));
    }
  }

  /** The invariant holds in every reachable state of the two-endpoint system. */
  lemma {:induction false} RunKeeps(s: Sys, ms: seq<Move>, max: nat)
    requires Inv(s)
    ensures Inv(Run(s, ms, max))
    decreases |ms|
  {
    if ms != [] {
      StepKeeps(s, ms[0], max);
      RunKeeps(Step(s, ms[0], max), ms[1..], max);
    }
  }
}
