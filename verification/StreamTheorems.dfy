/**
 What the multiplexing protocol promises, over every run of the two-endpoint system of module Mux:
 in-order delivery, flow control, orderly close, and no half-open streams once the packets are handled.
 All statements are about A's end of a stream; Mirror turns them round.
 */
module StreamTheorems {
  import opened Bytes
  import opened Stream
  import opened Mux

  ghost function After(ms: seq<Move>, max: nat): Sys {
    Run(START, ms, max)
  }

  lemma Reachable(ms: seq<Move>, max: nat)
    ensures Inv(After(ms, max))
  {
    StartInv();
    RunKeeps(START, ms, max);
  }

  function Turn(ms: seq<Move>): seq<Move> {
    seq(|ms|, i requires 0 <= i < |ms| => Move(!ms[i].atA, ms[i].e))
  }

  /** The system is symmetric: swapping the endpoints of every move swaps the endpoints of the result. */
  lemma {:induction false} Mirror(s: Sys, ms: seq<Move>, max: nat)
    ensures Run(s.Flip(), Turn(ms), max) == Run(s, ms, max).Flip()
    decreases |ms|
  {
    if ms != [] {
      var m := ms[0];
      assert s.Flip().Flip() == s;
      assert Turn(ms)[0] == Move(!m.atA, m.e) && Turn(ms)[1..] == Turn(ms[1..]);
      assert Step(s.Flip(), Turn(ms)[0], max) == Step(s, m, max).Flip();
      Mirror(Step(s, m, max), ms[1..], max);
    }
  }

  /** a is A's end of a stream. */
  ghost predicate HasStream(s: Sys, a: nat) {
    a in s.mA && a in s.a.socks && s.mA[a] in s.b.socks
  }

  lemma StreamOf(s: Sys, a: nat)
    requires Inv(s) && a in s.mA
    ensures HasStream(s, a) && StreamInv(ViewOf(s, a))
  {
    Facets(s);
    assert StreamInv(ViewOf(s, a));
  }

  lemma ReachableStream(ms: seq<Move>, max: nat, a: nat)
    requires a in After(ms, max).mA
    ensures HasStream(After(ms, max), a) && StreamInv(ViewOf(After(ms, max), a))
  {
    Reachable(ms, max);
    StreamOf(After(ms, max), a);
  }

  // ---------------------------------------------------------------- delivery

  lemma DeliveryInView(v: View)
    requires StreamInv(v)
    ensures Prefix(v.y.wrote, v.x.taken)
    ensures v.y.place == Active ==> v.x.taken == v.y.wrote + Flat(v.y.queue) + Payload(v.xy)
  {
    if v.y.place != Freed {
      PrefixOfConcat(v.y.wrote, Flat(v.y.queue));
    }
    if v.y.place == Active {
      PrefixOfConcat(v.y.got, Payload(v.xy));
    }
    PrefixTrans(v.y.wrote, v.y.got, v.x.taken);
  }

  /**
   In-order delivery on every run, for all partial reads and writes and all hang-ups. What the
   receiver's descriptor got is a prefix of what the sender handed over; while the receiving end is
   open, what was handed over is what was written, then the receiver's queue, then the packets in flight.
   */
  lemma InOrderDelivery(ms: seq<Move>, max: nat, a: nat)
    requires a in After(ms, max).mA
    ensures HasStream(After(ms, max), a)
    ensures var v := ViewOf(After(ms, max), a);
      && Prefix(v.y.wrote, v.x.taken)
      && (v.y.place == Active ==> v.x.taken == v.y.wrote + Flat(v.y.queue) + Payload(v.xy))
  {
    ReachableStream(ms, max, a);
    DeliveryInView(ViewOf(After(ms, max), a));
  }

  /**
   The bytes read from the sender's descriptor and the bytes delivered: delivery starts after the
   bytes read while the socket had no peer yet, and there are none of those unless poll reported a
   hang-up on that descriptor.
   */
  lemma DeliveredAreReadBytes(ms: seq<Move>, max: nat, a: nat)
    requires a in After(ms, max).mA
    ensures HasStream(After(ms, max), a)
    ensures var v := ViewOf(After(ms, max), a);
      && |v.x.early| + |v.y.wrote| <= |v.x.Read()|
      && v.y.wrote == v.x.Read()[|v.x.early|..|v.x.early| + |v.y.wrote|]
      && (v.x.early == [] ==> Prefix(v.y.wrote, v.x.Read()))
      && (!v.x.hup ==> v.x.early == [] && v.x.Read() == v.x.taken)
  {
    ReachableStream(ms, max, a);
    ReadInView(ViewOf(After(ms, max), a));
  }

  /**
   The branch of local_socket_event_func that loses bytes: FDE_READ is dispatched, the descriptor yields
   some, and the socket has no peer to pass them to.
   */
  ghost predicate Drops(s: Sys, m: Move, max: nat, a: nat) {
    && m.atA && m.e.DispatchFd? && m.e.id == a && Enabled(s, m.e, max)
    && var x := s.a.socks[a];
      x.peer == 0 && x.evR && !x.evW && m.e.rout.data != []
  }

  ghost predicate DropsIn(s: Sys, ms: seq<Move>, max: nat, a: nat)
    decreases |ms|
  {
    ms != [] && (Drops(s, ms[0], max, a) || DropsIn(Step(s, ms[0], max), ms[1..], max, a))
  }

  /** A has passed on every byte it read at socket a. */
  ghost predicate NothingLost(h: Host, a: nat) {
    a in h.socks ==> h.socks[a].early == [] && h.socks[a].late == []
  }

  lemma DispatchLoses(x: Sock, w: WriteOutcome, r: ReadOutcome)
    requires SockInv(x) && DispatchOk(x, w, r)
    ensures var x' := Dispatch(x, w, r).sock;
      x'.early == [] && x'.late == [] <==> x.early == [] && x.late == [] && !(x.peer == 0 && x.evR && !x.evW && r.data != [])
  {
    if x.evW { DropFlat(x.queue, w.n); }
  }

  lemma HandleLosesNone(h: Host, p: Packet, svc: bool, w: WriteOutcome, a: nat)
    requires HandleOk(h, p, w) && HandlePacket(h, p, svc, w).Reply? && h.next !in h.socks
    ensures NothingLost(HandlePacket(h, p, svc, w).host, a) <==> NothingLost(h, a)
  {}

  lemma DispatchFdLoses(s: Sys, e: Event, max: nat, a: nat)
    requires e.DispatchFd? && Enabled(s, e, max) && SockInv(s.a.socks[e.id])
    ensures NothingLost(StepA(s, e, max).a, a) <==> NothingLost(s.a, a) && !Drops(s, Move(true, e), max, a)
  {
    DispatchLoses(s.a.socks[e.id], e.wout, e.rout);
  }

  lemma StepALoses(s: Sys, e: Event, max: nat, a: nat)
    requires Table(s) && Sound(s) && Enabled(s, e, max)
    ensures NothingLost(StepA(s, e, max).a, a) <==> NothingLost(s.a, a) && !Drops(s, Move(true, e), max, a)
  {
    assert s.a.next !in s.a.socks;
    match e {
      case Connect(_) =>
      case Deliver(svc, w) => HandleLosesNone(s.a, s.ba[0], svc, w, a);
      case PollFd(_, _, _, _) =>
      case DispatchFd(_, _, _) => DispatchFdLoses(s, e, max, a);
    }
  }

  lemma StepLoses(s: Sys, m: Move, max: nat, a: nat)
    requires Table(s) && Sound(s)
    ensures NothingLost(Step(s, m, max).a, a) <==> NothingLost(s.a, a) && !Drops(s, m, max, a)
  {
    if m.atA {
      if Enabled(s, m.e, max) {
        StepALoses(s, m.e, max, a);
        assert m == Move(true, m.e);
      }
    } else if Enabled(s.Flip(), m.e, max) {
      assert StepA(s.Flip(), m.e, max).b == s.a;
    }
  }

  lemma {:induction false} RunLoses(s: Sys, ms: seq<Move>, max: nat, a: nat)
    requires Inv(s)
    ensures NothingLost(Run(s, ms, max).a, a) <==> NothingLost(s.a, a) && !DropsIn(s, ms, max, a)
    decreases |ms|
  {
    if ms != [] {
      Facets(s);
      StepLoses(s, ms[0], max, a);
      StepKeeps(s, ms[0], max);
      RunLoses(Step(s, ms[0], max), ms[1..], max, a);
    }
  }

  // The descriptors' own account of a run: what they were asked for, and gave.

  /** The bytes that the reads of move m on socket a's descriptor yield. */
  ghost function YieldOf(s: Sys, m: Move, max: nat, a: nat): Data {
    if m.atA && m.e.DispatchFd? && m.e.id == a && Enabled(s, m.e, max) then Yielded(s.a.socks[a], m.e.wout, m.e.rout) else []
  }

  /** The bytes that the writes of move m on socket a's descriptor take. */
  ghost function TakenBy(s: Sys, m: Move, max: nat, a: nat): Data {
    if !m.atA || !Enabled(s, m.e, max) then []
    else match m.e
      case DispatchFd(id, w, _) => if id == a then Taken(s.a.socks[a], w) else []
      case Deliver(_, w) => if Accepts(s, a) then s.ba[0].data[..w.n] else []
      case _ => []
  }

  /** The packet to be handled is data for a, which has no backlog. */
  ghost predicate Accepts(s: Sys, a: nat)
    requires s.ba != []
  {
    var p := s.ba[0];
    p.cmd == WRTE && p.arg1 == a && p.arg0 != 0 && a != 0 && s.a.online && Found(s.a, a, p.arg0) && s.a.socks[a].queue == []
  }

  /** All bytes read from a's descriptor in a run, and all bytes written to it. */
  ghost function ReadIn(s: Sys, ms: seq<Move>, max: nat, a: nat): Data
    decreases |ms|
  {
    if ms == [] then [] else YieldOf(s, ms[0], max, a) + ReadIn(Step(s, ms[0], max), ms[1..], max, a)
  }

  ghost function WrittenIn(s: Sys, ms: seq<Move>, max: nat, a: nat): Data
    decreases |ms|
  {
    if ms == [] then [] else TakenBy(s, ms[0], max, a) + WrittenIn(Step(s, ms[0], max), ms[1..], max, a)
  }

  function ReadAt(h: Host, a: nat): Data { if a in h.socks then h.socks[a].Read() else [] }
  function WroteAt(h: Host, a: nat): Data { if a in h.socks then h.socks[a].wrote else [] }

  /** What is on record for socket a grows by these bytes. */
  predicate Grows(h: Host, h': Host, a: nat, rd: Data, wr: Data) {
    ReadAt(h', a) == ReadAt(h, a) + rd && WroteAt(h', a) == WroteAt(h, a) + wr
  }

  lemma GrownFromNothing(h: Host, h': Host, a: nat, rd: Data, wr: Data)
    requires a !in h.socks && Grows(h, h', a, rd, wr)
    ensures ReadAt(h', a) == rd && WroteAt(h', a) == wr
  {
    assert [] + rd == rd && [] + wr == wr;
  }

  lemma NothingMoved(h: Host, h': Host, a: nat)
    requires ReadAt(h', a) == ReadAt(h, a) && WroteAt(h', a) == WroteAt(h, a)
    ensures Grows(h, h', a, [], [])
  {
    assert ReadAt(h, a) + [] == ReadAt(h, a) && WroteAt(h, a) + [] == WroteAt(h, a);
  }

  /** One socket moves; for the others nothing does. */
  lemma SocketMoved(h: Host, id: nat, x: Sock, a: nat, rd: Data, wr: Data)
    requires id in h.socks && Recorded(h.socks[id], x, rd, wr)
    ensures Grows(h, h.(socks := h.socks[id := x]), a, if a == id then rd else [], if a == id then wr else [])
  {
    if a != id { NothingMoved(h, h.(socks := h.socks[id := x]), a); }
  }

  lemma OkayRecords(x: Sock, p: nat)
    ensures Recorded(x, OnOkay(x, p), [], [])
  {
    assert x.Read() + [] == x.Read() && x.wrote + [] == x.wrote;
  }

  lemma OpenRecords(h: Host, p: Packet, svc: bool, a: nat)
    requires p.cmd == OPEN && HandlePacket(h, p, svc, Accepted(0)).Reply? && h.next !in h.socks
    ensures Grows(h, HandlePacket(h, p, svc, Accepted(0)).host, a, [], [])
  {
    var h' := HandlePacket(h, p, svc, Accepted(0)).host;
    assert Ready(NEW_SOCK.(peer := p.arg0)).Read() == [];
    NothingMoved(h, h', a);
  }

  lemma HandleRecords(s: Sys, svc: bool, w: WriteOutcome, max: nat, a: nat)
    requires s.a.next !in s.a.socks && Sound(s) && Enabled(s, Deliver(svc, w), max)
    ensures Grows(s.a, HandlePacket(s.a, s.ba[0], svc, w).host, a, [], TakenBy(s, Move(true, Deliver(svc, w)), max, a))
  {
    var h, p := s.a, s.ba[0];
    if p.cmd == OPEN {
      OpenRecords(h, p, svc, a);
    } else if p.cmd == WRTE && h.online && p.arg0 != 0 && p.arg1 != 0 && Found(h, p.arg1, p.arg0) {
      WrteRecords(h, p, w, a);
    } else if p.cmd == WRTE {
      NothingMoved(h, h, a);
    } else {
      HandleRecordsNone(h, p, svc, w, a);
    }
  }

  lemma HandleRecordsNone(h: Host, p: Packet, svc: bool, w: WriteOutcome, a: nat)
    requires p.cmd == OKAY || p.cmd == CLSE
    ensures Grows(h, HandlePacket(h, p, svc, w).host, a, [], [])
  {
    NothingMoved(h, h, a);
    if p.cmd == OKAY && h.online && p.arg0 != 0 && p.arg1 != 0 && Found(h, p.arg1, 0) {
      OkayRecords(h.socks[p.arg1], p.arg0);
      SocketMoved(h, p.arg1, OnOkay(h.socks[p.arg1], p.arg0), a, [], []);
    } else if p.cmd == CLSE && h.online && p.arg1 != 0 && Found(h, p.arg1, p.arg0) {
      CloseEnds(h.socks[p.arg1]);
      SocketMoved(h, p.arg1, Close(h.socks[p.arg1]).sock, a, [], []);
    }
  }

  lemma WrteRecords(h: Host, p: Packet, w: WriteOutcome, a: nat)
    requires p.cmd == WRTE && HandleOk(h, p, w) && h.online && p.arg0 != 0 && p.arg1 != 0 && Found(h, p.arg1, p.arg0)
    requires SockInv(h.socks[p.arg1])
    ensures Grows(h, HandlePacket(h, p, true, w).host, a, [], if a == p.arg1 && h.socks[a].queue == [] then p.data[..w.n] else [])
    ensures forall svc :: HandlePacket(h, p, svc, w) == HandlePacket(h, p, true, w)
  {
    var x := h.socks[p.arg1];
    EnqueueEnds(x, p.data, w);
    SocketMoved(h, p.arg1, Enqueue(x, p.data, w).eff.sock, a, [], if x.queue == [] then p.data[..w.n] else []);
  }

  lemma DispatchFdRecords(s: Sys, e: Event, max: nat, a: nat)
    requires e.DispatchFd? && Enabled(s, e, max) && SockInv(s.a.socks[e.id])
    requires s.a.socks[e.id].evW && s.a.socks[e.id].place == Active ==> s.a.socks[e.id].peer != 0
    ensures Grows(s.a, StepA(s, e, max).a, a, YieldOf(s, Move(true, e), max, a), TakenBy(s, Move(true, e), max, a))
  {
    var x := s.a.socks[e.id];
    DispatchRecords(x, e.wout, e.rout);
    SocketMoved(s.a, e.id, Dispatch(x, e.wout, e.rout).sock, a, Yielded(x, e.wout, e.rout), Taken(x, e.wout));
  }

  lemma PollRecords(h: Host, id: nat, r: bool, w: bool, hup: bool, a: nat)
    requires id in h.socks
    ensures Grows(h, h.(socks := h.socks[id := Poll(h.socks[id], r, w, hup)]), a, [], [])
  {
    var x := h.socks[id];
    assert x.Read() + [] == x.Read() && x.wrote + [] == x.wrote;
    SocketMoved(h, id, Poll(x, r, w, hup), a, [], []);
  }

  lemma ConnectRecords(h: Host, a: nat)
    requires h.next !in h.socks
    ensures Grows(h, h.(next := h.next + 1, socks := h.socks[h.next := NEW_SOCK]), a, [], [])
  {
    assert NEW_SOCK.Read() == [];
    NothingMoved(h, h.(next := h.next + 1, socks := h.socks[h.next := NEW_SOCK]), a);
  }

  lemma StepARecords(s: Sys, e: Event, max: nat, a: nat)
    requires Table(s) && Sound(s) && Enabled(s, e, max)
    ensures Grows(s.a, StepA(s, e, max).a, a, YieldOf(s, Move(true, e), max, a), TakenBy(s, Move(true, e), max, a))
  {
    assert s.a.next !in s.a.socks;
    match e {
      case Connect(_) => ConnectRecords(s.a, a);
      case Deliver(svc, w) => HandleRecords(s, svc, w, max, a);
      case PollFd(id, r, w, hup) => PollRecords(s.a, id, r, w, hup, a);
      case DispatchFd(_, _, _) => DispatchFdRecords(s, e, max, a);
    }
  }

  lemma StepRecords(s: Sys, m: Move, max: nat, a: nat)
    requires Inv(s)
    ensures Grows(s.a, Step(s, m, max).a, a, YieldOf(s, m, max, a), TakenBy(s, m, max, a))
  {
    if m.atA && Enabled(s, m.e, max) {
      Facets(s);
      StepARecords(s, m.e, max, a);
      assert m == Move(true, m.e);
    } else {
      assert Step(s, m, max).a == s.a;
      assert ReadAt(s.a, a) + [] == ReadAt(s.a, a) && WroteAt(s.a, a) + [] == WroteAt(s.a, a);
    }
  }

  lemma {:induction false} RunRecords(s: Sys, ms: seq<Move>, max: nat, a: nat)
    requires Inv(s)
    ensures Grows(s.a, Run(s, ms, max).a, a, ReadIn(s, ms, max, a), WrittenIn(s, ms, max, a))
    decreases |ms|
  {
    if ms == [] {
      assert ReadAt(s.a, a) + [] == ReadAt(s.a, a) && WroteAt(s.a, a) + [] == WroteAt(s.a, a);
    } else {
      var m := ms[0];
      var s1 := Step(s, m, max);
      StepRecords(s, m, max, a);
      StepKeeps(s, m, max);
      RunRecords(s1, ms[1..], max, a);
      ConcatAssoc(ReadAt(s.a, a), YieldOf(s, m, max, a), ReadIn(s1, ms[1..], max, a));
      ConcatAssoc(WroteAt(s.a, a), TakenBy(s, m, max, a), WrittenIn(s1, ms[1..], max, a));
    }
  }

  /**
   What the sockets have on record is what happened: on every run the bytes recorded as read at a are those its
   descriptor yielded, one read after the other, and the bytes recorded as written are those it took.
   */
  lemma RecordIsTrue(ms: seq<Move>, max: nat, a: nat)
    ensures ReadAt(After(ms, max).a, a) == ReadIn(START, ms, max, a)
    ensures WroteAt(After(ms, max).a, a) == WrittenIn(START, ms, max, a)
  {
    StartInv();
    RunRecords(START, ms, max, a);
    GrownFromNothing(START.a, After(ms, max).a, a, ReadIn(START, ms, max, a), WrittenIn(START, ms, max, a));
  }

  /** The bytes the sending and the receiving descriptor saw of A's stream a. */
  lemma BothEnds(ms: seq<Move>, max: nat, a: nat)
    requires HasStream(After(ms, max), a)
    ensures var s := After(ms, max); var v := ViewOf(s, a);
      v.x.Read() == ReadIn(START, ms, max, a) && v.y.wrote == WrittenIn(START, Turn(ms), max, s.mA[a])
  {
    RecordIsTrue(ms, max, a);
    RecordIsTrue(Turn(ms), max, After(ms, max).mA[a]);
    assert START.Flip() == START;
    Mirror(START, ms, max);
  }

  /**
   When read bytes equal delivered ones: while the receiving end is open, the bytes the sender's descriptor
   yielded are those the receiver's took, then the receiver's queue, then the packets in flight, if and only if
   the sender never read while its socket had no peer.
   */
  lemma DeliveryExactly(ms: seq<Move>, max: nat, a: nat)
    requires HasStream(After(ms, max), a) && ViewOf(After(ms, max), a).y.place == Active
    ensures var s := After(ms, max); var v := ViewOf(s, a);
      ReadIn(START, ms, max, a) == WrittenIn(START, Turn(ms), max, s.mA[a]) + Flat(v.y.queue) + Payload(v.xy)
      <==> !DropsIn(START, ms, max, a)
  {
    ReachableStream(ms, max, a);
    DeliveryInView(ViewOf(After(ms, max), a));
    BothEnds(ms, max, a);
    StartInv();
    RunLoses(START, ms, max, a);
    ReadIsTaken(ViewOf(After(ms, max), a).x);
  }

  /** In particular nothing is skipped: wherever the receiver is, its descriptor took a prefix of what the sender's yielded. */
  lemma DeliveredIsPrefix(ms: seq<Move>, max: nat, a: nat)
    requires HasStream(After(ms, max), a) && !DropsIn(START, ms, max, a)
    ensures Prefix(WrittenIn(START, Turn(ms), max, After(ms, max).mA[a]), ReadIn(START, ms, max, a))
  {
    StartInv();
    RunLoses(START, ms, max, a);
    DeliveredAreReadBytes(ms, max, a);
    BothEnds(ms, max, a);
  }

  lemma ReadIsTaken(x: Sock)
    ensures x.Read() == x.taken <==> x.early == [] && x.late == []
  {
    assert |x.Read()| == |x.early| + |x.taken| + |x.late|;
  }

  lemma ReadInView(v: View)
    requires StreamInv(v)
    ensures |v.x.early| + |v.y.wrote| <= |v.x.Read()|
    ensures v.y.wrote == v.x.Read()[|v.x.early|..|v.x.early| + |v.y.wrote|]
    ensures v.x.early == [] ==> Prefix(v.y.wrote, v.x.Read())
    ensures !v.x.hup ==> v.x.early == [] && v.x.Read() == v.x.taken
  {
    DeliveryInView(v);
    MiddlePart(v.x.early, v.y.wrote, v.x.taken, v.x.late);
  }

  /** A prefix of the middle of three parts. */
  lemma MiddlePart(a: Data, w: Data, t: Data, b: Data)
    requires Prefix(w, t)
    ensures var all := a + t + b;
      |a| + |w| <= |all| && w == all[|a|..|a| + |w|] && (a == [] ==> Prefix(w, all)) && (a == b == [] ==> all == t)
  {
    assert a + t + b == a + (w + (t[|w|..] + b));
  }

  // A client that hangs up before its stream is open loses what it sent first: the states of a run.

  const Y0: Sock := NEW_SOCK.(peer := 1, rd := true)

  /** A opened stream 1 and B accepted it; A's socket is x, and the OKAY is still in flight. */
  function Accepting(x: Sock): Sys {
    Sys(Host(true, 2, map[1 := x]), Host(true, 2, map[1 := Y0]), [], [Packet(OKAY, 1, 1, [])], map[1 := 1], map[1 := 1])
  }

  /** The OKAY has arrived; `ab` is in flight to B's socket y. */
  function Opened(x: Sock, ab: seq<Packet>, y: Sock): Sys {
    Sys(Host(true, 2, map[1 := x]), Host(true, 2, map[1 := y]), ab, [], map[1 := 1], map[1 := 1])
  }

  function Lossy(zeros: Data): Sock { NEW_SOCK.(hup := true, early := zeros) }

  lemma LossyAccept(max: nat)
    ensures Step(Step(START, Move(true, Connect([])), max), Move(false, Deliver(true, Accepted(0))), max) == Accepting(NEW_SOCK)
  {
    var s1 := Step(START, Move(true, Connect([])), max);
    assert s1 == Sys(Host(true, 2, map[1 := NEW_SOCK]), START.b, [Packet(OPEN, 1, 0, [])], [], map[], map[]);
  }

  lemma LossyHangUp(zeros: Data)
    ensures var s := Step(Accepting(NEW_SOCK), Move(true, PollFd(1, false, false, true)), |zeros|);
      Step(s, Move(true, DispatchFd(1, Accepted(0), ReadOutcome(zeros, false))), |zeros|) == Accepting(Lossy(zeros))
  {
    var x := NEW_SOCK.(evR := true, hup := true);
    assert Step(Accepting(NEW_SOCK), Move(true, PollFd(1, false, false, true)), |zeros|) == Accepting(x);
    assert Dispatch(x, Accepted(0), ReadOutcome(zeros, false)) == Effect(Lossy(zeros), []) by {
      assert [] + zeros == zeros;
    }
  }

  lemma LossyOkay(zeros: Data)
    ensures Step(Accepting(Lossy(zeros)), Move(true, Deliver(true, Accepted(0))), |zeros|)
         == Opened(Lossy(zeros).(peer := 1, rd := true), [], Y0)
  {}

  lemma LossySend(zeros: Data)
    requires zeros != []
    ensures var x := Lossy(zeros).(peer := 1, rd := true);
      var s := Step(Opened(x, [], Y0), Move(true, PollFd(1, true, false, false)), |zeros|);
      Step(s, Move(true, DispatchFd(1, Accepted(0), ReadOutcome([1], false))), |zeros|)
      == Opened(x.(rd := false, taken := [1]), [Packet(WRTE, 1, 1, [1])], Y0)
  {
    var x := Lossy(zeros).(peer := 1, rd := true);
    var x1 := x.(evR := true);
    assert Step(Opened(x, [], Y0), Move(true, PollFd(1, true, false, false)), |zeros|) == Opened(x1, [], Y0);
    var f := Dispatch(x1, Accepted(0), ReadOutcome([1], false));
    assert f == Effect(x.(rd := false, taken := [1]), [Wrte([1])]);
    assert LabelAll([Wrte([1])], 1, 1) == [Packet(WRTE, 1, 1, [1])];
    assert [] + LabelAll([Wrte([1])], 1, 1) == [Packet(WRTE, 1, 1, [1])];
  }

  lemma LossyDeliver(x: Sock, max: nat)
    ensures var s := Step(Opened(x, [Packet(WRTE, 1, 1, [1])], Y0), Move(false, Deliver(true, Accepted(1))), max);
      s.a == Host(true, 2, map[1 := x]) && s.mA == map[1 := 1] && 1 in s.b.socks && s.b.socks[1].wrote == [1]
  {
    assert [] + [1][..1] == [1];
  }

  lemma RunCons(s: Sys, m: Move, ms: seq<Move>, max: nat)
    ensures Run(s, [m] + ms, max) == Run(Step(s, m, max), ms, max)
  {
    assert ([m] + ms)[1..] == ms;
  }

  lemma RunTwo(s: Sys, m: Move, n: Move, ms: seq<Move>, max: nat)
    ensures Run(s, [m, n] + ms, max) == Run(Step(Step(s, m, max), n, max), ms, max)
  {
    assert [m, n] + ms == [m] + ([n] + ms);
    RunCons(s, m, [n] + ms, max);
    RunCons(Step(s, m, max), n, ms, max);
  }

  lemma {:induction false} RunAppend(s: Sys, p: seq<Move>, q: seq<Move>, max: nat)
    ensures Run(s, p + q, max) == Run(Run(s, p, max), q, max)
    decreases |p|
  {
    if p == [] {
      assert p + q == q;
    } else {
      assert p + q == [p[0]] + (p[1..] + q);
      RunCons(s, p[0], p[1..] + q, max);
      RunAppend(Step(s, p[0], max), p[1..], q, max);
    }
  }

  /** OPEN, accept, hang-up, the lost read, OKAY. */
  lemma LossyFirstHalf(zeros: Data) returns (ms: seq<Move>)
    ensures After(ms, |zeros|) == Opened(Lossy(zeros).(peer := 1, rd := true), [], Y0)
  {
    var max := |zeros|;
    var m5 := [Move(true, Deliver(true, Accepted(0)))];
    var m3 := [Move(true, PollFd(1, false, false, true)), Move(true, DispatchFd(1, Accepted(0), ReadOutcome(zeros, false)))] + m5;
    ms := [Move(true, Connect([])), Move(false, Deliver(true, Accepted(0)))] + m3;
    RunTwo(START, ms[0], ms[1], m3, max);
    LossyAccept(max);
    RunTwo(Accepting(NEW_SOCK), m3[0], m3[1], m5, max);
    LossyHangUp(zeros);
    RunCons(Accepting(Lossy(zeros)), m5[0], [], max);
    assert m5 == [m5[0]] + [];
    LossyOkay(zeros);
  }

  /** One more byte is read, sent and delivered. */
  lemma LossySecondHalf(zeros: Data) returns (ms: seq<Move>)
    requires zeros != []
    ensures var s := Run(Opened(Lossy(zeros).(peer := 1, rd := true), [], Y0), ms, |zeros|);
      && s.mA == map[1 := 1] && s.a == Host(true, 2, map[1 := Lossy(zeros).(peer := 1, taken := [1])])
      && 1 in s.b.socks && s.b.socks[1].wrote == [1]
  {
    var max := |zeros|;
    var x := Lossy(zeros).(peer := 1, rd := true);
    var m8 := [Move(false, Deliver(true, Accepted(1)))];
    ms := [Move(true, PollFd(1, true, false, false)), Move(true, DispatchFd(1, Accepted(0), ReadOutcome([1], false)))] + m8;
    RunTwo(Opened(x, [], Y0), ms[0], ms[1], m8, max);
    LossySend(zeros);
    LossyDeliver(x.(rd := false, taken := [1]), max);
    RunCons(Opened(x.(rd := false, taken := [1]), [Packet(WRTE, 1, 1, [1])], Y0), m8[0], [], max);
    assert m8 == [m8[0]] + [];
  }

  /**
   Delivered bytes need not be a prefix of the bytes read: a hang-up polled before the OKAY makes
   local_socket_event_func read, and drop, a packet's worth of data, and the stream opens afterwards.
   DeliveryExactly says on which runs this happens.
   */
  lemma EarlyBytesAreLost(zeros: Data) returns (ms: seq<Move>)
    requires zeros != [] && forall i :: 0 <= i < |zeros| ==> zeros[i] == 0
    ensures var s := After(ms, |zeros|);
      && s.mA == map[1 := 1] && 1 in s.a.socks && 1 in s.b.socks
      && s.b.socks[1].wrote == [1] && s.a.socks[1].Read() == zeros + [1]
      && !Prefix(s.b.socks[1].wrote, s.a.socks[1].Read())
  {
    var first := LossyFirstHalf(zeros);
    var second := LossySecondHalf(zeros);
    ms := first + second;
    RunAppend(START, first, second, |zeros|);
    assert (zeros + [1])[0] == 0;
  }

  // ---------------------------------------------------------------- flow control

  /**
   Credit conservation: while both ends of a stream live and no hang-up was polled on the sender's
   descriptor, exactly one of these exists: the sender listens for data, a WRTE is in flight, the
   receiver has a backlog, an OKAY is in flight.
   */
  lemma CreditIsOne(ms: seq<Move>, max: nat, a: nat)
    requires a in After(ms, max).mA
    ensures HasStream(After(ms, max), a)
    ensures var v := ViewOf(After(ms, max), a);
      v.x.place == Active && v.y.place == Active && !v.x.hup
      ==> One(v.x.rd) + Wrtes(v.xy) + One(v.y.queue != []) + Okays(v.yx) == 1
  {
    ReachableStream(ms, max, a);
  }

  // ---------------------------------------------------------------- closing

  function Age(p: Place): nat {
    match p
    case Active => 0
    case Closing => 1
    case Freed => 2
  }

  /** A socket only ever moves from the active list to the closing list to freed, where nothing changes it. */
  ghost predicate Older(h: Host, h': Host) {
    && h.next <= h'.next
    && (forall id :: id in h.socks ==> id in h'.socks && Age(h.socks[id].place) <= Age(h'.socks[id].place))
    && (forall id :: id in h.socks && h.socks[id].place == Freed ==> h'.socks[id] == h.socks[id])
  }

  lemma HandleOlder(h: Host, p: Packet, svc: bool, w: WriteOutcome)
    requires HandleOk(h, p, w) && HandlePacket(h, p, svc, w).Reply? && h.next !in h.socks
    ensures Older(h, HandlePacket(h, p, svc, w).host)
  {}

  lemma StepAOlder(s: Sys, e: Event, max: nat)
    requires Table(s) && Enabled(s, e, max)
    ensures Older(s.a, StepA(s, e, max).a) && StepA(s, e, max).b == s.b
  {
    assert s.a.next !in s.a.socks by { assert Table(s); }
    match e {
      case Connect(_) =>
      case Deliver(svc, w) => HandleOlder(s.a, s.ba[0], svc, w);
      case PollFd(_, _, _, _) =>
      case DispatchFd(id, w, r) => DispatchPlace(s.a.socks[id], w, r);
    }
  }

  lemma DispatchPlace(x: Sock, w: WriteOutcome, r: ReadOutcome)
    requires DispatchOk(x, w, r)
    ensures Age(x.place) <= Age(Dispatch(x, w, r).sock.place)
  {}

  lemma OlderTrans(h: Host, h1: Host, h2: Host)
    requires Older(h, h1) && Older(h1, h2)
    ensures Older(h, h2)
  {}

  /**
   A socket that has left the active list is never found by id again, and a freed socket is never
   touched again: it is destroyed once. (No event reaches a freed socket, since fdevent_remove takes its
   fdevent off the pending list; here that is the guard of PollFd and DispatchFd, and module EventLoop
   proves it of the loop.)
   */
  lemma {:induction false} GoneForGood(s: Sys, ms: seq<Move>, max: nat, id: nat, peerId: nat)
    requires Inv(s) && id in s.a.socks
    ensures Inv(Run(s, ms, max)) && Older(s.a, Run(s, ms, max).a)
    ensures s.a.socks[id].place != Active ==> !Found(Run(s, ms, max).a, id, peerId)
    ensures s.a.socks[id].place == Freed ==> Run(s, ms, max).a.socks[id] == s.a.socks[id]
    decreases |ms|
  {
    if ms != [] {
      var m := ms[0];
      var s1 := Step(s, m, max);
      StepKeeps(s, m, max);
      Facets(s);
      if m.atA {
        if Enabled(s, m.e, max) { StepAOlder(s, m.e, max); }
      } else if Enabled(s.Flip(), m.e, max) {
        FlipInv(s);
        StepAOlder(s.Flip(), m.e, max);
      }
      GoneForGood(s1, ms[1..], max, id, peerId);
      OlderTrans(s.a, s1.a, Run(s, ms, max).a);
    }
  }

  /**
   A socket closed with a backlog writes the whole backlog, in order, before it is freed, unless its
   descriptor failed a write or hung up: every byte it accepted from its peer was written.
   */
  lemma BacklogIsWritten(ms: seq<Move>, max: nat, id: nat)
    requires id in After(ms, max).a.socks
    ensures var x := After(ms, max).a.socks[id];
      && (x.place == Closing ==> x.queue != [] && x.wr && x.got == x.wrote + Flat(x.queue))
      && (x.place == Freed && !x.werr && !x.hup ==> x.wrote == x.got)
  {
    Reachable(ms, max);
    Facets(After(ms, max));
  }

  // ---------------------------------------------------------------- quiescence

  function Weight(p: Packet): nat {
    match p.cmd
    case OPEN => 4
    case WRTE => 3
    case OKAY => 2
    case CLSE => 1
  }

  function Load(ch: seq<Packet>): nat {
    if ch == [] then 0 else Weight(ch[0]) + Load(ch[1..])
  }

  function Live(h: Host): set<nat> {
    set id | id in h.socks && h.socks[id].place == Active
  }

  ghost function Work(s: Sys): nat {
    Load(s.ab) + Load(s.ba) + |Live(s.a)| + |Live(s.b)|
  }

  lemma {:induction false} LoadAppend(p: seq<Packet>, q: seq<Packet>)
    ensures Load(p + q) == Load(p) + Load(q)
  {
    if p == [] {
      assert p + q == q;
    } else {
      LoadAppend(p[1..], q);
      assert (p + q)[0] == p[0] && (p + q)[1..] == p[1..] + q;
    }
  }

  lemma LoadOne(p: Packet)
    ensures Load([p]) == Weight(p)
  {
    assert [p][1..] == [];
  }

  lemma LiveUpdate(h: Host, id: nat, x: Sock, next: nat)
    ensures var h' := Host(h.online, next, h.socks[id := x]);
      && |Live(h')| <= |Live(h)| + 1
      && (x.place != Active ==> |Live(h')| <= |Live(h)|)
      && (id in h.socks && h.socks[id].place == Active ==> |Live(h')| == |Live(h)| - (if x.place == Active then 0 else 1))
  {
    var h' := Host(h.online, next, h.socks[id := x]);
    assert Live(h') == if x.place == Active then Live(h) + {id} else Live(h) - {id};
  }

  lemma HandleWork(h: Host, p: Packet, svc: bool, w: WriteOutcome)
    requires HandleOk(h, p, w) && HandlePacket(h, p, svc, w).Reply?
    ensures var q := HandlePacket(h, p, svc, w);
      Load(q.out) + |Live(q.host)| < Weight(p) + |Live(h)|
  {
    var q := HandlePacket(h, p, svc, w);
    match p.cmd {
      case OPEN =>
        LoadOne(Packet(CLSE, 0, p.arg0, []));
        LoadOne(Packet(OKAY, h.next, p.arg0, []));
        LiveUpdate(h, h.next, Ready(NEW_SOCK.(peer := p.arg0)), h.next + 1);
      case OKAY =>
        LoadOne(Packet(CLSE, p.arg1, p.arg0, []));
        if Found(h, p.arg1, 0) { LiveUpdate(h, p.arg1, OnOkay(h.socks[p.arg1], p.arg0), h.next); }
      case CLSE =>
        if Found(h, p.arg1, p.arg0) {
          var x := h.socks[p.arg1];
          LiveUpdate(h, p.arg1, Close(x).sock, h.next);
          LoadOne(Label(Clse, p.arg1, x.peer));
          assert LabelAll([Clse], p.arg1, x.peer) == [Label(Clse, p.arg1, x.peer)];
        }
      case WRTE =>
        if Found(h, p.arg1, p.arg0) {
          EnqueueWork(h, p, w);
        }
    }
  }

  lemma EnqueueWork(h: Host, p: Packet, w: WriteOutcome)
    requires p.cmd == WRTE && HandleOk(h, p, w) && Found(h, p.arg1, p.arg0)
    ensures var q := HandlePacket(h, p, true, w);
      Load(q.out) + |Live(q.host)| < Weight(p) + |Live(h)|
  {
    var e := Enqueue(h.socks[p.arg1], p.data, w);
    LiveUpdate(h, p.arg1, e.eff.sock, h.next);
    var ok := Packet(OKAY, p.arg1, p.arg0, []);
    LoadOne(ok);
    LoadOne(Label(Clse, p.arg1, p.arg0));
    assert LabelAll([Clse], p.arg1, p.arg0) == [Label(Clse, p.arg1, p.arg0)];
    LoadAppend(LabelAll(e.eff.out, p.arg1, p.arg0), if e.ready then [ok] else []);
  }

  /** Handling a packet always leaves less to do. */
  lemma DeliverLessWork(s: Sys, svc: bool, w: WriteOutcome, max: nat)
    requires Enabled(s, Deliver(svc, w), max)
    ensures Work(StepA(s, Deliver(svc, w), max)) < Work(s)
  {
    HandleWork(s.a, s.ba[0], svc, w);
    LoadAppend(s.ab, HandlePacket(s.a, s.ba[0], svc, w).out);
  }

  /** ms only handles packets, and every one of its moves is enabled. */
  ghost predicate OnlyPackets(s: Sys, ms: seq<Move>, max: nat)
    decreases |ms|
  {
    ms != [] ==>
      && ms[0].e.Deliver?
      && Enabled(if ms[0].atA then s else s.Flip(), ms[0].e, max)
      && OnlyPackets(Step(s, ms[0], max), ms[1..], max)
  }

  /** With no new descriptor events, packet handling stops: its length is bounded by the work at hand. */
  lemma {:induction false} Quiesces(s: Sys, ms: seq<Move>, max: nat)
    requires OnlyPackets(s, ms, max)
    ensures |ms| + Work(Run(s, ms, max)) <= Work(s)
    decreases |ms|
  {
    if ms != [] {
      var m := ms[0];
      if m.atA {
        DeliverLessWork(s, m.e.svc, m.e.wout, max);
      } else {
        DeliverLessWork(s.Flip(), m.e.svc, m.e.wout, max);
      }
      Quiesces(Step(s, m, max), ms[1..], max);
    }
  }

  /** Handling packets can always go on until none is left. */
  lemma {:induction false} CanQuiesce(s: Sys, max: nat) returns (ms: seq<Move>)
    ensures OnlyPackets(s, ms, max)
    ensures Run(s, ms, max).ab == [] && Run(s, ms, max).ba == []
    decreases Work(s)
  {
    if s.ab == [] && s.ba == [] {
      return [];
    }
    var atA := s.ba != [];
    var t := if atA then s else s.Flip();
    var e := Deliver(false, Accepted(|t.ba[0].data|));
    var m := Move(atA, e);
    DeliverLessWork(t, e.svc, e.wout, max);
    var rest := CanQuiesce(Step(s, m, max), max);
    ms := [m] + rest;
    assert ms[0] == m && ms[1..] == rest;
  }

  // ---------------------------------------------------------------- no half-open stream

  /** Every active socket of A is paired with an active socket of B that is paired with it. */
  ghost predicate Matched(s: Sys) {
    forall a :: a in s.a.socks && s.a.socks[a].place == Active ==>
      var b := s.a.socks[a].peer;
      && b != 0 && b in s.b.socks && s.b.socks[b].place == Active && s.b.socks[b].peer == a
  }

  /** With nothing on its way, a stream open at one end is open and connected at both. */
  lemma OpenAtBoth(v: View)
    requires StreamInv(v) && v.xy == [] && v.yx == [] && v.x.place == Active
    ensures v.y.place == Active && v.x.peer != 0 && v.y.peer != 0
  {
    assert Direction(v.Swap());
  }

  lemma MatchedOne(s: Sys, a: nat)
    requires Inv(s) && s.ab == [] && s.ba == [] && a in s.a.socks && s.a.socks[a].place == Active
    ensures var b := s.a.socks[a].peer;
      b != 0 && b in s.b.socks && s.b.socks[b].place == Active && s.b.socks[b].peer == a
  {
    Facets(s);
    assert a in s.mA;
    OpenAtBoth(ViewOf(s, a));
  }

  lemma MatchedHalf(s: Sys)
    requires Inv(s) && s.ab == [] && s.ba == []
    ensures Matched(s)
  {
    forall a | a in s.a.socks && s.a.socks[a].place == Active
      ensures var b := s.a.socks[a].peer;
        b != 0 && b in s.b.socks && s.b.socks[b].place == Active && s.b.socks[b].peer == a
    {
      MatchedOne(s, a);
    }
  }

  /**
   Whenever both channels are empty, the live sockets of the two sides match one to one with crossed
   ids: there is no half-open stream, even if an opener closed before its OKAY arrived.
   */
  lemma NoHalfOpen(ms: seq<Move>, max: nat)
    requires After(ms, max).ab == [] && After(ms, max).ba == []
    ensures Matched(After(ms, max)) && Matched(After(ms, max).Flip())
  {
    Reachable(ms, max);
    MatchedHalf(After(ms, max));
    FlipInv(After(ms, max));
    MatchedHalf(After(ms, max).Flip());
  }
}
