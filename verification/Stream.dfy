/**
 One stream of the multiplexing protocol: the operations on a single local socket
 (src/sockets.cpp) and the invariant that ties its two ends and the packets in
 flight between them. No ids and no tables here; module Mux adds those.
 */
module Stream {
  import opened Bytes

  type Data = seq<byte>

  /** Where a local socket lives: on local_socket_list, on local_socket_closing_list, or freed. */
  datatype Place = Active | Closing | Freed

  /**
   The fields of an asocket the protocol depends on, and a history of its descriptor.
   `peer` is the id of the remote asocket it is paired with, 0 for none; `rd`/`wr` are FDE_READ
   and FDE_WRITE in fde.state; `evR`/`evW` are the same bits in fde.events; `queue` holds the
   unwritten rest of each packet from pkt_first to pkt_last.
   History: `early`, `taken` and `late` are the bytes read from the descriptor before the socket
   had a peer, while it had one, and after it was put on the closing list; `got` the bytes handed
   to enqueue; `wrote` the bytes the descriptor took; `hup` whether
   FDE_READ was ever forced, by a hang-up or by the exit of a subprocess.
   */
  datatype Sock = Sock(
    place: Place, peer: nat, rd: bool, wr: bool, evR: bool, evW: bool,
    queue: seq<Data>, werr: bool,
    early: Data, taken: Data, late: Data, got: Data, wrote: Data, hup: bool)
  {
    /** Every byte read from the descriptor, in order. */
    function Read(): Data { early + taken + late }
  }

  const NEW_SOCK: Sock :=
    Sock(Active, 0, false, false, false, false, [], false, [], [], [], [], [], false)

  /** What one end says to the other about this stream. */
  datatype Msg = Okay | Wrte(data: Data) | Clse

  /** The descriptor took n bytes and then either would block (or had no more to take) or failed. */
  datatype WriteOutcome = Accepted(n: nat) | Broken(n: nat)

  /** What the read loop collected, and whether it stopped at end of file or an error. */
  datatype ReadOutcome = ReadOutcome(data: Data, eof: bool)

  datatype Effect = Effect(sock: Sock, out: seq<Msg>)
  datatype Enqueued = Enqueued(eff: Effect, ready: bool)

  // ---------------------------------------------------------------- operations

  /** fdevent_set: a changed mask also removes pending events that are no longer wanted. */
  function SetInterest(s: Sock, rd: bool, wr: bool): Sock {
    if s.rd == rd && s.wr == wr then s
    else s.(rd := rd, wr := wr, evR := s.evR && rd, evW := s.evW && wr)
  }

  /** The queue after its first n bytes were written: finished packets leave it. */
  function Drop(q: seq<Data>, n: nat): seq<Data> {
    if q == [] then []
    else if |q[0]| <= n then Drop(q[1..], n - |q[0]|)
    else [q[0][n..]] + q[1..]
  }

  /** local_socket_close together with the shutdown and close of the remote peer. */
  function Close(s: Sock): Effect {
    var out := if s.peer != 0 then [Clse] else [];
    if s.place != Active || s.werr || s.queue == [] then
      Effect(s.(place := Freed, peer := 0, rd := false, wr := false, evR := false, evW := false, queue := []), out)
    else
      Effect(SetInterest(s.(peer := 0), false, s.wr).(place := Closing), out)
  }

  ghost predicate WriteFits(w: WriteOutcome, total: nat) {
    match w
    case Accepted(n) => n <= total
    case Broken(n) => n < total
  }

  /** local_socket_enqueue; `ready` is its return value 0. */
  function Enqueue(s: Sock, data: Data, w: WriteOutcome): Enqueued
    requires s.queue == [] ==> w.n <= |data|
  {
    if s.queue != [] then
      Enqueued(Effect(SetInterest(s.(queue := s.queue + [data], got := s.got + data), s.rd, true), []), false)
    else
      var s1 := s.(got := s.got + data, wrote := s.wrote + data[..w.n]);
      if w.Broken? then Enqueued(Close(s1.(werr := true)), false)
      else if w.n == |data| then Enqueued(Effect(s1, []), true)
      else Enqueued(Effect(SetInterest(s1.(queue := [data[w.n..]]), s1.rd, true), []), false)
  }

  /** local_socket_ready */
  function Ready(s: Sock): Sock {
    SetInterest(s, true, s.wr)
  }

  /** A_OKAY from remote socket p: the first one creates the connection, others must match. */
  function OnOkay(s: Sock, p: nat): Sock {
    if s.peer == 0 then Ready(s.(peer := p))
    else if s.peer == p then Ready(s)
    else s
  }

  /** What becomes of the bytes the read loop collected: a packet for the peer, or nothing. */
  function Take(s: Sock, data: Data): Effect {
    if data == [] then Effect(s, [])
    else if s.peer != 0 then Effect(SetInterest(s.(taken := s.taken + data), false, s.wr), [Wrte(data)])
    else if s.place == Active then Effect(s.(early := s.early + data), [])
    else Effect(s.(late := s.late + data), [])
  }

  /** The FDE_READ half of local_socket_event_func. */
  function ReadPart(s: Sock, r: ReadOutcome): Effect {
    var e := Take(s, r.data);
    if r.eof then
      var c := Close(e.sock);
      Effect(c.sock, e.out + c.out)
    else e
  }

  /** The FDE_WRITE half's write loops: the first n queued bytes reach the descriptor. */
  function Flush(s: Sock, n: nat): Sock
    requires n <= |Flat(s.queue)|
  {
    s.(queue := Drop(s.queue, n), wrote := s.wrote + Flat(s.queue)[..n])
  }

  /** fdevent_call_fdfunc on a local socket: clear the pending events, then local_socket_event_func. */
  function Dispatch(s: Sock, w: WriteOutcome, r: ReadOutcome): Effect
    requires s.evW ==> w.n <= |Flat(s.queue)|
  {
    var s0 := s.(evR := false, evW := false);
    if s.evW then
      var s1 := Flush(s0, w.n);
      if w.Broken? then Close(s1.(werr := true))
      else if s1.queue != [] then Effect(s1, [])
      else if s1.place == Closing then Close(s1)
      else
        var s2 := SetInterest(s1, s1.rd, false);
        if s.evR then
          var e := ReadPart(s2, r);
          Effect(e.sock, [Okay] + e.out)
        else Effect(s2, [Okay])
    else if s.evR then ReadPart(s0, r)
    else Effect(s0, [])
  }

  /**
   fdevent_process found events for the descriptor; a hang-up fakes FDE_READ, whatever the mask. So does
   fdevent_subproc_event_func when the subprocess has exited and left nothing to read: hup covers both.
   */
  function Poll(s: Sock, r: bool, w: bool, hup: bool): Sock {
    s.(evR := s.evR || r || hup, evW := s.evW || w, hup := s.hup || hup)
  }

  ghost predicate PollOk(s: Sock, r: bool, w: bool) {
    s.place != Freed && (r ==> s.rd) && (w ==> s.wr)
  }

  ghost predicate DispatchOk(s: Sock, w: WriteOutcome, r: ReadOutcome) {
    && s.place != Freed
    && (s.evW ==> WriteFits(w, |Flat(s.queue)|))
  }

  // ---------------------------------------------------------------- one socket

  /** What every local socket satisfies between callbacks. */
  ghost predicate SockInv(s: Sock) {
    && (s.place != Freed ==> (s.wr <==> s.queue != []))
    && (s.evW ==> s.wr)
    && (s.evR && !s.hup ==> s.rd)
    && (s.place == Active && s.peer == 0 ==> !s.rd && s.queue == [] && s.taken == [])
    && (s.place == Active ==> s.late == [] && !s.werr)
    && (s.place == Closing ==> s.peer == 0 && !s.rd && s.queue != [])
    && (s.place == Freed ==> s.peer == 0 && !s.rd && !s.wr && s.queue == [])
    && (!s.hup ==> s.early == [] && s.late == [])
    && (s.place != Freed ==> s.got == s.wrote + Flat(s.queue))
    && (s.place == Freed ==> Prefix(s.wrote, s.got))
    && (s.place == Freed && !s.werr && !s.hup ==> s.wrote == s.got)
  }

  lemma {:induction false} DropFlat(q: seq<Data>, n: nat)
    requires n <= |Flat(q)|
    ensures Flat(Drop(q, n)) == Flat(q)[n..]
    ensures n < |Flat(q)| ==> Drop(q, n) != []
    ensures n == |Flat(q)| ==> Drop(q, n) == []
  {
    if q != [] {
      if |q[0]| <= n {
        DropFlat(q[1..], n - |q[0]|);
        assert Flat(q)[n..] == Flat(q[1..])[n - |q[0]|..];
      } else {
        assert Drop(q, n)[1..] == q[1..];
        assert Flat(q)[n..] == q[0][n..] + Flat(q[1..]);
      }
    }
  }

  lemma CloseInv(s: Sock)
    requires s.place != Freed
    requires s.wr <==> s.queue != []
    requires s.evW ==> s.wr
    requires s.evR && !s.hup ==> s.rd
    requires s.place == Active ==> s.late == []
    requires !s.hup ==> s.early == [] && s.late == []
    requires s.got == s.wrote + Flat(s.queue)
    requires s.place == Closing ==> s.peer == 0 && (s.hup || s.werr || s.queue == [])
    ensures SockInv(Close(s).sock)
  {}

  lemma EnqueueInv(s: Sock, data: Data, w: WriteOutcome)
    requires SockInv(s) && s.place == Active && s.peer != 0
    requires s.queue == [] ==> WriteFits(w, |data|)
    ensures SockInv(Enqueue(s, data, w).eff.sock)
  {
    if s.queue != [] {
      FlatAppend(s.queue, [data]);
      FlatOne(data);
      assert s.got + data == s.wrote + (Flat(s.queue) + data);
    } else {
      EnqueueEmptyInv(s, data, w);
    }
  }

  lemma EnqueueEmptyInv(s: Sock, data: Data, w: WriteOutcome)
    requires SockInv(s) && s.place == Active && s.peer != 0 && s.queue == []
    requires WriteFits(w, |data|)
    ensures SockInv(Enqueue(s, data, w).eff.sock)
  {
    var took, rest := data[..w.n], data[w.n..];
    var s1 := s.(got := s.got + data, wrote := s.wrote + took);
    assert s.got == s.wrote;
    assert s1.got == s1.wrote + rest by { assert data == took + rest; }
    FlatOne(rest);
    if w.Broken? {
      PrefixOfConcat(s1.wrote, rest);
    }
  }

  lemma TakeInv(s: Sock, data: Data)
    requires SockInv(s) && s.place != Freed && (!s.hup ==> s.rd)
    ensures SockInv(Take(s, data).sock) && Take(s, data).sock.place == s.place
    ensures Take(s, data).sock.hup == s.hup
  {}

  lemma ReadPartInv(s: Sock, r: ReadOutcome)
    requires SockInv(s) && s.place != Freed && (!s.hup ==> s.rd)
    ensures SockInv(ReadPart(s, r).sock)
  {
    TakeInv(s, r.data);
    if r.eof { CloseInv(Take(s, r.data).sock); }
  }

  lemma DispatchInv(s: Sock, w: WriteOutcome, r: ReadOutcome)
    requires SockInv(s) && DispatchOk(s, w, r)
    requires s.evW && s.place == Active ==> s.peer != 0
    ensures SockInv(Dispatch(s, w, r).sock)
  {
    var s0 := s.(evR := false, evW := false);
    if s.evW {
      DropFlat(s.queue, w.n);
      var s1 := Flush(s0, w.n);
      var q := Flat(s.queue);
      assert q == q[..w.n] + q[w.n..];
      assert s1.got == s1.wrote + Flat(s1.queue);
      if w.Broken? {
        assert SockInv(Close(s1.(werr := true)).sock);
      } else if s1.queue == [] && s1.place != Closing {
        var s2 := SetInterest(s1, s1.rd, false);
        assert SockInv(s2);
        if s.evR { ReadPartInv(s2, r); }
      }
    } else if s.evR {
      ReadPartInv(s0, r);
    }
  }

  // ---------------------------------------------------------------- what becomes of the bytes

  /** An event is pending afterwards if it was before and is wanted, or nothing about the mask changed. */
  lemma InterestMasks(s: Sock, rd: bool, wr: bool)
    ensures var t := SetInterest(s, rd, wr);
      && t.rd == rd && t.wr == wr && (t.evR ==> s.evR) && (t.evW ==> s.evW)
      && (s.evR && rd ==> t.evR) && (s.evW && wr ==> t.evW)
      && (t.evR && !rd ==> !s.rd && s.wr == wr) && (t.evW && !wr ==> !s.wr && s.rd == rd)
      && t.(rd := s.rd, wr := s.wr, evR := s.evR, evW := s.evW) == s
  {}

  /** Poll reports what is there, and a hang-up as something to read. */
  lemma PollReports(s: Sock, r: bool, w: bool, hup: bool)
    ensures var t := Poll(s, r, w, hup);
      && (t.evR <==> s.evR || r || hup) && (t.evW <==> s.evW || w) && (t.hup <==> s.hup || hup)
      && t.(evR := s.evR, evW := s.evW, hup := s.hup) == s
  {}

  /** Nothing that passed through x's descriptor is forgotten or made up: it read rd and took wr. */
  predicate Recorded(x: Sock, x': Sock, rd: Data, wr: Data) {
    x'.Read() == x.Read() + rd && x'.wrote == x.wrote + wr
  }

  lemma TakeReads(s: Sock, data: Data)
    requires SockInv(s) && s.place != Freed
    ensures Recorded(s, Take(s, data).sock, data, []) && Take(s, data).sock.got == s.got
  {
    var t := Take(s, data).sock;
    assert s.Read() + [] == s.Read();
    if s.peer != 0 {
      ConcatAssoc(s.early, s.taken, data);
    } else if s.place == Active {
      assert s.Read() == s.early && t.Read() == t.early;
    } else {
      ConcatAssoc(s.early + s.taken, s.late, data);
    }
  }

  /** Closing a socket keeps it, with its backlog, as long as there is one that can be written. */
  lemma CloseEnds(s: Sock)
    ensures var c := Close(s);
      && Recorded(s, c.sock, [], []) && c.sock.got == s.got && c.sock.peer == 0 && !c.sock.rd
      && (c.sock.place == Closing <==> s.place == Active && !s.werr && s.queue != [])
      && (c.sock.place == Closing ==> c.sock.queue == s.queue && c.sock.wr == s.wr)
      && (c.sock.place != Closing ==> c.sock.place == Freed)
      && c.out == if s.peer != 0 then [Clse] else []
  {
    assert s.Read() + [] == s.Read();
  }

  /** The FDE_READ half takes in what was read, and closes at end of file only. */
  lemma ReadPartReads(s: Sock, r: ReadOutcome)
    requires SockInv(s) && s.place != Freed
    ensures var e := ReadPart(s, r);
      && Recorded(s, e.sock, r.data, []) && e.sock.got == s.got
      && (e.sock.place == s.place <==> !r.eof)
      && e.out == (if r.data != [] && s.peer != 0 then [Wrte(r.data)] else []) + (if r.eof && s.peer != 0 then [Clse] else [])
  {
    TakeReads(s, r.data);
    CloseEnds(Take(s, r.data).sock);
  }

  /** The FDE_READ half is reached: it is due, and no backlog keeps it waiting. */
  predicate ReadReached(s: Sock, w: WriteOutcome) {
    s.evR && (s.evW ==> s.place == Active && w == Accepted(|Flat(s.queue)|))
  }

  /** What the descriptor takes and yields during one call of the event function. */
  function Taken(s: Sock, w: WriteOutcome): Data
    requires s.evW ==> w.n <= |Flat(s.queue)|
  {
    if s.evW then Flat(s.queue)[..w.n] else []
  }

  function Yielded(s: Sock, w: WriteOutcome, r: ReadOutcome): Data {
    if ReadReached(s, w) then r.data else []
  }

  /** All that is read is on record, and all that is written. */
  lemma DispatchRecords(s: Sock, w: WriteOutcome, r: ReadOutcome)
    requires SockInv(s) && DispatchOk(s, w, r)
    requires s.evW && s.place == Active ==> s.peer != 0
    ensures Recorded(s, Dispatch(s, w, r).sock, Yielded(s, w, r), Taken(s, w))
  {
    var s0 := s.(evR := false, evW := false);
    assert s.Read() + [] == s.Read() && s.wrote + [] == s.wrote;
    if s.evW {
      DropFlat(s.queue, w.n);
      var s1 := Flush(s0, w.n);
      CloseEnds(s1);
      CloseEnds(s1.(werr := true));
      if w == Accepted(|Flat(s.queue)|) && s.place == Active {
        DrainedPaid(s, w.n);
        ReadPartReads(SetInterest(s1, s1.rd, false), r);
        assert s1.wrote + [] == s1.wrote;
      }
    } else {
      ReadPartReads(s0, r);
    }
  }

  /** A write failed, a closing socket has written its backlog, or the read half met the end. */
  predicate Ends(s: Sock, w: WriteOutcome, r: ReadOutcome) {
    || (s.evW && (w.Broken? || (s.place == Closing && w.n == |Flat(s.queue)|)))
    || (ReadReached(s, w) && r.eof)
  }

  /** The backlog of an active socket is written: the peer is told, and what is read comes after that. */
  lemma DrainedEnds(s: Sock, r: ReadOutcome)
    requires SockInv(s) && s.evW && s.place == Active && s.peer != 0
    ensures var e := Dispatch(s, Accepted(|Flat(s.queue)|), r);
      && (e.sock.place == Active <==> !(s.evR && r.eof)) && !e.sock.evR && !e.sock.evW && !e.sock.werr
      && e.out == [Okay] + (if s.evR && r.data != [] then [Wrte(r.data)] else []) + (if s.evR && r.eof then [Clse] else [])
  {
    var n := |Flat(s.queue)|;
    DropFlat(s.queue, n);
    DrainedPaid(s, n);
    var s1 := Flush(s.(evR := false, evW := false), n);
    var s2 := SetInterest(s1, s1.rd, false);
    ReadPartReads(s2, r);
    ConcatAssoc([Okay], if s.evR && r.data != [] then [Wrte(r.data)] else [], if s.evR && r.eof then [Clse] else []);
  }

  /** When the event function closes a socket, and what it tells the peer, message by message. */
  lemma DispatchEnds(s: Sock, w: WriteOutcome, r: ReadOutcome)
    requires SockInv(s) && DispatchOk(s, w, r)
    requires s.evW && s.place == Active ==> s.peer != 0
    ensures var e := Dispatch(s, w, r);
      && (e.sock.place == s.place <==> !Ends(s, w, r)) && !e.sock.evR && !e.sock.evW
      && (e.sock.werr <==> s.werr || (s.evW && w.Broken?))
      && e.out == (if s.evW && s.place == Active && w == Accepted(|Flat(s.queue)|) then [Okay] else [])
         + (if Yielded(s, w, r) != [] && s.peer != 0 then [Wrte(Yielded(s, w, r))] else [])
         + (if Ends(s, w, r) && s.peer != 0 then [Clse] else [])
  {
    if !s.evW {
      QuietEnds(s, r);
    } else if w == Accepted(|Flat(s.queue)|) && s.place == Active {
      DrainedEnds(s, r);
    } else {
      StoppedEnds(s, w);
    }
  }

  /** No write is due. */
  lemma QuietEnds(s: Sock, r: ReadOutcome)
    requires SockInv(s) && s.place != Freed && !s.evW
    ensures forall w :: var e := Dispatch(s, w, r);
      && (e.sock.place == s.place <==> !(s.evR && r.eof)) && !e.sock.evR && !e.sock.evW && e.sock.werr == s.werr
      && e.out == (if s.evR && r.data != [] && s.peer != 0 then [Wrte(r.data)] else [])
         + (if s.evR && r.eof && s.peer != 0 then [Clse] else [])
  {
    ReadPartReads(s.(evR := false, evW := false), r);
  }

  /** A backlog that is not written, or was the last thing a closing socket had to do. */
  lemma StoppedEnds(s: Sock, w: WriteOutcome)
    requires SockInv(s) && s.place != Freed && s.evW && WriteFits(w, |Flat(s.queue)|) && (s.place == Active ==> s.peer != 0)
    requires s.place == Active ==> w != Accepted(|Flat(s.queue)|)
    ensures var e := Dispatch(s, w, ReadOutcome([], false)); var ends := w.Broken? || w.n == |Flat(s.queue)|;
      && (e.sock.place == s.place <==> !ends) && !e.sock.evR && !e.sock.evW && (e.sock.werr <==> s.werr || w.Broken?)
      && e.out == if ends && s.peer != 0 then [Clse] else []
    ensures forall r :: Dispatch(s, w, r) == Dispatch(s, w, ReadOutcome([], false))
  {
    DropFlat(s.queue, w.n);
    var s1 := Flush(s.(evR := false, evW := false), w.n);
    CloseEnds(s1);
    CloseEnds(s1.(werr := true));
  }

  /** What becomes of a packet offered to an active socket: written, kept behind the backlog, or the end of the socket. */
  lemma EnqueueEnds(s: Sock, data: Data, w: WriteOutcome)
    requires s.place == Active && s.peer != 0 && (s.queue == [] ==> WriteFits(w, |data|))
    ensures var e := Enqueue(s, data, w); var x := e.eff.sock;
      && Recorded(s, x, [], if s.queue == [] then data[..w.n] else []) && x.got == s.got + data
      && (s.queue == [] && w.Broken? ==> x.place == Freed && x.werr && e.eff.out == [Clse] && !e.ready)
      && (!(s.queue == [] && w.Broken?) ==> x.place == Active && x.peer == s.peer && x.rd == s.rd && e.eff.out == [])
      && (!(s.queue == [] && w.Broken?) ==> (e.ready <==> x.queue == []))
      && (!(s.queue == [] && w.Broken?) ==>
           x.queue == if s.queue != [] then s.queue + [data] else if w.n == |data| then [] else [data[w.n..]])
  {
    assert s.Read() + [] == s.Read() && s.wrote + [] == s.wrote;
  }

  // ---------------------------------------------------------------- two ends

  /** What handle_packet does with a message of an established stream, at the end x that receives it. */
  function OnMsg(x: Sock, m: Msg, p: nat, w: WriteOutcome): Effect
    requires m.Wrte? && x.place == Active && x.peer == p && x.queue == [] ==> w.n <= |m.data|
  {
    match m
    case Okay =>
      if x.place == Active then Effect(OnOkay(x, p), []) else Effect(x, [Clse])
    case Wrte(data) =>
      if x.place == Active && x.peer == p then
        var e := Enqueue(x, data, w);
        Effect(e.eff.sock, e.eff.out + if e.ready then [Okay] else [])
      else Effect(x, [])
    case Clse =>
      if x.place == Active && x.peer == p then Close(x) else Effect(x, [])
  }

  /** The two ends of a stream and the messages each has in flight to the other. */
  datatype View = View(x: Sock, y: Sock, xy: seq<Msg>, yx: seq<Msg>) {
    function Swap(): View { View(y, x, yx, xy) }
  }

  function Payload(ms: seq<Msg>): Data {
    if ms == [] then [] else (if ms[0].Wrte? then ms[0].data else []) + Payload(ms[1..])
  }

  function Okays(ms: seq<Msg>): nat {
    if ms == [] then 0 else (if ms[0].Okay? then 1 else 0) + Okays(ms[1..])
  }

  function Wrtes(ms: seq<Msg>): nat {
    if ms == [] then 0 else (if ms[0].Wrte? then 1 else 0) + Wrtes(ms[1..])
  }

  function One(b: bool): nat { if b then 1 else 0 }

  /** All the right to send one more packet that exists in the direction x to y. */
  function Credit(v: View): nat {
    One(v.x.rd) + Wrtes(v.xy) + One(v.y.queue != []) + Okays(v.yx)
  }

  /** The invariant of one direction. */
  ghost predicate Direction(v: View) {
    // Delivery: nothing is lost, duplicated or reordered.
    && (v.y.place == Active ==> v.x.taken == v.y.got + Payload(v.xy))
    && (v.y.place != Active ==> Prefix(v.y.got, v.x.taken))
    // An end still waiting for its first OKAY will see that OKAY first, and has said nothing.
    && (v.y.place == Active && v.y.peer == 0 ==> v.xy != [] && v.xy[0] == Okay && v.yx == [])
    // A stream that is gone at x but not at y is being closed.
    && (v.y.place == Active && v.x.place != Active ==> Clse in v.xy || Okay in v.yx)
    // Flow control.
    && (v.x.place == Active && v.y.place == Active && !v.x.hup ==> Credit(v) == 1)
  }

  ghost predicate StreamInv(v: View) {
    SockInv(v.x) && SockInv(v.y) && Direction(v) && Direction(v.Swap())
  }

  lemma {:induction false} PayloadAppend(p: seq<Msg>, q: seq<Msg>)
    ensures Payload(p + q) == Payload(p) + Payload(q)
  {
    if p == [] {
      assert p + q == q;
    } else {
      PayloadAppend(p[1..], q);
      ConcatAssoc(if p[0].Wrte? then p[0].data else [], Payload(p[1..]), Payload(q));
      assert (p + q)[0] == p[0] && (p + q)[1..] == p[1..] + q;
    }
  }

  lemma {:induction false} CountsAppend(p: seq<Msg>, q: seq<Msg>)
    ensures Okays(p + q) == Okays(p) + Okays(q) && Wrtes(p + q) == Wrtes(p) + Wrtes(q)
  {
    if p == [] {
      assert p + q == q;
    } else {
      CountsAppend(p[1..], q);
      assert (p + q)[0] == p[0] && (p + q)[1..] == p[1..] + q;
    }
  }

  lemma MsgsAppend(p: seq<Msg>, q: seq<Msg>)
    ensures Payload(p + q) == Payload(p) + Payload(q)
    ensures Okays(p + q) == Okays(p) + Okays(q)
    ensures Wrtes(p + q) == Wrtes(p) + Wrtes(q)
  {
    PayloadAppend(p, q);
    CountsAppend(p, q);
  }

  /** What an end may do on its own: every message it sends is paid for by its own change. */
  ghost predicate Paid(x: Sock, x': Sock, out: seq<Msg>) {
    && x'.taken == x.taken + Payload(out)
    && x'.got == x.got
    && (x'.place == Active ==> x.place == Active && x'.peer == x.peer)
    && (x.peer == 0 ==> out == [])
    && (x.place == Active && x'.place != Active && x.peer != 0 ==> Clse in out)
    && (x.hup ==> x'.hup)
    && (x'.place == Active && !x'.hup ==> One(x'.rd) + Wrtes(out) == One(x.rd))
    && (x'.place == Active ==> One(x'.queue != []) + Okays(out) == One(x.queue != []))
  }

  lemma SmallMsgs(m: Msg)
    ensures Payload([m]) == (if m.Wrte? then m.data else [])
    ensures Okays([m]) == One(m.Okay?) && Wrtes([m]) == One(m.Wrte?)
  {
    assert [m][1..] == [];
  }

  lemma TakePaid(s: Sock, data: Data)
    requires SockInv(s) && s.place != Freed && (!s.hup ==> s.rd)
    ensures Paid(s, Take(s, data).sock, Take(s, data).out)
  {
    SmallMsgs(Wrte(data));
  }

  lemma ClosePaid(s: Sock)
    requires s.place != Freed
    ensures Paid(s, Close(s).sock, Close(s).out)
  {
    SmallMsgs(Clse);
  }

  lemma PaidTrans(s: Sock, s1: Sock, s2: Sock, out1: seq<Msg>, out2: seq<Msg>)
    requires Paid(s, s1, out1) && Paid(s1, s2, out2)
    requires s1.place != Active ==> s.place != Active || s.peer == 0 || Clse in out1
    requires s.peer == 0 ==> s1.peer == 0
    ensures Paid(s, s2, out1 + out2)
  {
    MsgsAppend(out1, out2);
  }

  lemma ReadPartPaid(s: Sock, r: ReadOutcome)
    requires SockInv(s) && s.place != Freed && (!s.hup ==> s.rd)
    ensures Paid(s, ReadPart(s, r).sock, ReadPart(s, r).out)
  {
    TakePaid(s, r.data);
    if r.eof {
      var e := Take(s, r.data);
      TakeInv(s, r.data);
      ClosePaid(e.sock);
      PaidTrans(s, e.sock, Close(e.sock).sock, e.out, Close(e.sock).out);
    }
  }

  lemma PollPaid(s: Sock, r: bool, w: bool, hup: bool)
    requires SockInv(s) && PollOk(s, r, w)
    ensures SockInv(Poll(s, r, w, hup)) && Paid(s, Poll(s, r, w, hup), [])
  {}

  /** A drained queue: the peer is told to resume. */
  lemma DrainedPaid(s: Sock, n: nat)
    requires SockInv(s) && s.place == Active && s.peer != 0 && s.queue != [] && n == |Flat(s.queue)|
    ensures var s2 := SetInterest(Flush(s.(evR := false, evW := false), n), s.rd, false);
      SockInv(s2) && Paid(s, s2, [Okay]) && s2.place == Active && (!s.hup ==> s2.rd == s.rd)
  {
    DropFlat(s.queue, n);
    SmallMsgs(Okay);
    assert Flat(s.queue)[..n] == Flat(s.queue);
  }

  lemma FlushPaid(s: Sock, n: nat)
    requires SockInv(s) && s.place != Freed && s.queue != [] && n <= |Flat(s.queue)|
    requires Drop(s.queue, n) != []
    ensures Paid(s, Flush(s.(evR := false, evW := false), n), [])
  {}

  lemma BrokenPaid(s: Sock, n: nat, b: bool)
    requires SockInv(s) && s.place != Freed && s.queue != [] && n <= |Flat(s.queue)|
    requires b || s.place == Closing
    ensures var e := Close(Flush(s.(evR := false, evW := false), n).(werr := b)); Paid(s, e.sock, e.out)
  {
    SmallMsgs(Clse);
  }

  lemma DispatchPaid(s: Sock, w: WriteOutcome, r: ReadOutcome)
    requires SockInv(s) && DispatchOk(s, w, r)
    requires s.evW && s.place == Active ==> s.peer != 0
    ensures Paid(s, Dispatch(s, w, r).sock, Dispatch(s, w, r).out)
  {
    var s0 := s.(evR := false, evW := false);
    if s.evW {
      DropFlat(s.queue, w.n);
      var s1 := Flush(s0, w.n);
      if w.Broken? {
        BrokenPaid(s, w.n, true);
      } else if s1.queue != [] {
        FlushPaid(s, w.n);
      } else if s1.place == Closing {
        BrokenPaid(s, w.n, s.werr);
      } else {
        DrainedPaid(s, w.n);
        var s2 := SetInterest(s1, s1.rd, false);
        if s.evR {
          var e := ReadPart(s2, r);
          ReadPartPaid(s2, r);
          PaidTrans(s, s2, e.sock, [Okay], e.out);
        }
      }
    } else if s.evR {
      ReadPartPaid(s0, r);
    }
  }

  /** A local socket that was never paired has carried nothing. */
  predicate Unused(x: Sock) {
    !x.rd && x.queue == [] && x.taken == [] && x.got == [] && x.wrote == []
  }

  lemma UnusedStays(x: Sock, w: WriteOutcome, r: ReadOutcome)
    requires SockInv(x) && Unused(x) && x.peer == 0 && DispatchOk(x, w, r)
    ensures Unused(Dispatch(x, w, r).sock)
  {}

  /** An end acting on its own keeps the stream invariant. */
  lemma SendKeeps(v: View, x': Sock, out: seq<Msg>)
    requires StreamInv(v) && Paid(v.x, x', out) && SockInv(x')
    ensures StreamInv(View(x', v.y, v.xy + out, v.yx))
  {
    MsgsAppend(v.xy, out);
    var v' := View(x', v.y, v.xy + out, v.yx);
    assert Direction(v') by {
      if v.y.place == Active {
        assert v.y.got + (Payload(v.xy) + Payload(out)) == v.x.taken + Payload(out);
      } else {
        PrefixOfConcat(v.x.taken, Payload(out));
        PrefixTrans(v.y.got, v.x.taken, x'.taken);
      }
    }
    assert Direction(v'.Swap());
  }

  lemma HeadFacts(ms: seq<Msg>)
    requires ms != []
    ensures Payload(ms) == (if ms[0].Wrte? then ms[0].data else []) + Payload(ms[1..])
    ensures Okays(ms) == One(ms[0].Okay?) + Okays(ms[1..]) && Wrtes(ms) == One(ms[0].Wrte?) + Wrtes(ms[1..])
    ensures forall m :: m in ms && m != ms[0] ==> m in ms[1..]
  {}

  /** What receiving m may do to an end: what it sends is paid for by its own change and by m. */
  ghost predicate PaidWith(x: Sock, x': Sock, m: Msg, out: seq<Msg>) {
    && x'.taken == x.taken
    && x'.got == x.got + (if m.Wrte? then m.data else [])
    && (x'.place == Active ==> x'.peer != 0 && (x.peer != 0 ==> x'.peer == x.peer) && Payload(out) == [])
    && Payload(out) == []
    && (m == Clse ==> x'.place != Active)
    && (x'.place != Active ==> Clse in out)
    && x'.hup == x.hup
    && (x'.place == Active && (m.Okay? ==> !x.rd) ==> One(x'.rd) + Wrtes(out) == One(x.rd) + One(m.Okay?))
    && (x'.place == Active && (m.Wrte? ==> x.queue == []) ==>
          One(x'.queue != []) + Okays(out) == One(x.queue != []) + One(m.Wrte?))
  }

  /** Flow control in the direction towards an end that receives a message. */
  lemma ReceiveCreditIn(v: View, x': Sock, out: seq<Msg>)
    requires StreamInv(v) && v.yx != [] && v.x.place == Active
    requires PaidWith(v.x, x', v.yx[0], out)
    requires x'.place == Active && v.y.place == Active && !v.y.hup
    ensures Credit(View(x', v.y, v.xy + out, v.yx[1..]).Swap()) == 1
  {
    HeadFacts(v.yx);
    MsgsAppend(v.xy, out);
    assert Credit(v.Swap()) == 1;
  }

  /** The direction towards an end that receives a message. */
  lemma ReceiveKeepsIn(v: View, x': Sock, out: seq<Msg>)
    requires StreamInv(v) && v.yx != [] && v.x.place == Active
    requires PaidWith(v.x, x', v.yx[0], out)
    ensures Direction(View(x', v.y, v.xy + out, v.yx[1..]).Swap())
  {
    HeadFacts(v.yx);
    var v' := View(x', v.y, v.xy + out, v.yx[1..]).Swap();
    assert v.y.taken == x'.got + Payload(v'.xy) by {
      assert v.y.taken == v.x.got + Payload(v.yx);
    }
    PrefixOfConcat(x'.got, Payload(v'.xy));
    if x'.place == Active && v.y.place == Active && !v.y.hup {
      ReceiveCreditIn(v, x', out);
    }
    assert v.y.place != Active && x'.place == Active ==> Clse in v'.xy || Okay in v'.yx;
  }

  /** The direction away from an end that receives a message. */
  lemma ReceiveKeepsOut(v: View, x': Sock, out: seq<Msg>)
    requires StreamInv(v) && v.yx != [] && v.x.place == Active
    requires PaidWith(v.x, x', v.yx[0], out)
    ensures Direction(View(x', v.y, v.xy + out, v.yx[1..]))
  {
    HeadFacts(v.yx);
    MsgsAppend(v.xy, out);
    assert v.y.place == Active ==> v.y.got + Payload(v.xy) == v.x.taken;
  }

  lemma OkayPaid(x: Sock, p: nat)
    requires SockInv(x) && x.place == Active && p != 0 && (x.peer == 0 || x.peer == p)
    ensures SockInv(OnOkay(x, p)) && PaidWith(x, OnOkay(x, p), Okay, [])
  {}

  lemma ClsePaid(x: Sock)
    requires SockInv(x) && x.place == Active && x.peer != 0
    ensures SockInv(Close(x).sock) && PaidWith(x, Close(x).sock, Clse, Close(x).out)
  {
    CloseInv(x);
    SmallMsgs(Clse);
  }

  lemma WrtePaid(x: Sock, data: Data, w: WriteOutcome)
    requires SockInv(x) && x.place == Active && x.peer != 0
    requires x.queue == [] ==> WriteFits(w, |data|)
    ensures var e := OnMsg(x, Wrte(data), x.peer, w); SockInv(e.sock) && PaidWith(x, e.sock, Wrte(data), e.out)
  {
    EnqueueInv(x, data, w);
    SmallMsgs(Okay);
    SmallMsgs(Clse);
  }

  /** An end that is gone answers OKAY with CLSE and ignores everything else. */
  lemma GoneKeeps(v: View, p: nat, w: WriteOutcome)
    requires StreamInv(v) && v.yx != [] && v.x.place != Active
    ensures var e := OnMsg(v.x, v.yx[0], p, w);
      e.sock == v.x && StreamInv(View(v.x, v.y, v.xy + e.out, v.yx[1..]))
  {
    HeadFacts(v.yx);
    var e := OnMsg(v.x, v.yx[0], p, w);
    MsgsAppend(v.xy, e.out);
    SmallMsgs(Clse);
    assert Payload(e.out) == [];
  }

  /** Receiving the next message keeps the stream invariant. */
  lemma ReceiveKeeps(v: View, p: nat, w: WriteOutcome)
    requires StreamInv(v) && v.yx != [] && p != 0
    requires v.x.place == Active ==> v.x.peer == 0 || v.x.peer == p
    requires v.yx[0].Wrte? && v.x.place == Active && v.x.peer == p && v.x.queue == [] ==> WriteFits(w, |v.yx[0].data|)
    ensures var e := OnMsg(v.x, v.yx[0], p, w);
      StreamInv(View(e.sock, v.y, v.xy + e.out, v.yx[1..])) && (e.sock.peer == 0 || e.sock.peer == p)
  {
    var e := OnMsg(v.x, v.yx[0], p, w);
    if v.x.place != Active {
      GoneKeeps(v, p, w);
    } else {
      match v.yx[0] {
        case Okay => OkayPaid(v.x, p);
        case Clse => ClsePaid(v.x);
        case Wrte(data) => WrtePaid(v.x, data, w);
      }
      ReceiveKeepsIn(v, e.sock, e.out);
      ReceiveKeepsOut(v, e.sock, e.out);
    }
  }
}
