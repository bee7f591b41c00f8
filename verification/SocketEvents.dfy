/**
 Local sockets at work (src/sockets.cpp): the write and read loops of local_socket_enqueue and
 local_socket_event_func on the heap, proved to do what Stream.Enqueue and Stream.Dispatch say.
 */
module SocketEvents {
  import opened Bytes
  import opened Lists
  import opened Stream
  import opened Mux
  import opened SocketList
  import opened SocketHeap

  /** The answer of one adb_write or adb_read: a positive count, 0 or a hard error, or EAGAIN. */
  datatype Io = Moved(n: nat) | Failed | WouldBlock

  function Further(k: nat, w: WriteOutcome): WriteOutcome {
    match w
    case Accepted(n) => Accepted(n + k)
    case Broken(n) => Broken(n + k)
  }

  /** How far len bytes get when the descriptor answers each write with the next entry of io. */
  function Writes(len: nat, io: seq<Io>): (w: WriteOutcome)
    ensures WriteFits(w, len)
  {
    if len == 0 || io == [] then Accepted(0)
    else match io[0]
      case Moved(n) => if n == 0 then Broken(0) else Further(Min(n, len), Writes(len - Min(n, len), io[1..]))
      case Failed => Broken(0)
      case WouldBlock => Accepted(0)
  }

  /** What is left of io after those writes. */
  function WritesRest(len: nat, io: seq<Io>): seq<Io> {
    if len == 0 || io == [] then io
    else if io[0].Moved? && io[0].n > 0 then WritesRest(len - Min(io[0].n, len), io[1..])
    else io[1..]
  }

  /** The same for a whole queue of packets, each written in its own loop. */
  function QueueWrites(q: seq<Data>, io: seq<Io>): (w: WriteOutcome)
    ensures WriteFits(w, |Flat(q)|)
  {
    if q == [] then Accepted(0)
    else
      var w := Writes(|q[0]|, io);
      if w == Accepted(|q[0]|) then Further(|q[0]|, QueueWrites(q[1..], WritesRest(|q[0]|, io))) else w
  }

  /** An answer that ends a write loop with an error: 0, or a failure that is not EAGAIN. */
  predicate Fails(a: Io) { a == Failed || a == Moved(0) }

  /** How many answers come before the first that moves nothing. */
  function Moves(io: seq<Io>): (k: nat)
    ensures k <= |io|
  {
    if io == [] || !io[0].Moved? || io[0].n == 0 then 0 else 1 + Moves(io[1..])
  }

  function Total(io: seq<Io>): nat {
    if io == [] then 0 else (if io[0].Moved? then io[0].n else 0) + Total(io[1..])
  }

  /**
   A write loop over len bytes, by the descriptor's answers alone: it gets as far as they add up before the first
   that moves nothing, and it has failed if and only if it is not done then and that answer is no EAGAIN.
   */
  lemma {:induction false} WritesAre(len: nat, io: seq<Io>)
    ensures var k, w := Moves(io), Writes(len, io); var sum := Total(io[..k]);
      && w.n == (if sum < len then sum else len)
      && (w.Broken? <==> sum < len && k < |io| && Fails(io[k]))
  {
    if io != [] && io[0].Moved? && io[0].n > 0 {
      var k := Moves(io);
      assert io[..k][1..] == io[1..][..k - 1] && io[k..] == io[1..][k - 1..];
      assert k < |io| ==> io[k] == io[1..][k - 1];
      var m := Min(io[0].n, len);
      WritesAre(len - m, io[1..]);
    }
  }

  /** How many of len bytes go through before the descriptor has had enough, and whether the loop then fails. */
  function Through(len: nat, io: seq<Io>): nat {
    var sum := Total(io[..Moves(io)]);
    if sum < len then sum else len
  }

  predicate WriteFails(len: nat, io: seq<Io>) {
    var k := Moves(io);
    Total(io[..k]) < len && k < |io| && Fails(io[k])
  }

  /** A descriptor that moves something or says EAGAIN at every write. */
  predicate Steady(io: seq<Io>) {
    forall k :: 0 <= k < |io| ==> !Fails(io[k])
  }

  lemma {:induction false} SteadyRest(len: nat, io: seq<Io>)
    requires Steady(io)
    ensures Steady(WritesRest(len, io)) && Writes(len, io).Accepted?
    decreases |io|
  {
    if len > 0 && io != [] && io[0].Moved? && io[0].n > 0 {
      SteadyRest(len - Min(io[0].n, len), io[1..]);
    }
  }

  /** The packets of a queue are written one after the other, each write offering the rest of the first one. */
  lemma QueueWritesOne(p: Data, tail: seq<Data>, a: Io, io: seq<Io>)
    requires p != []
    ensures var w := QueueWrites([p] + tail, [a] + io);
      && (Fails(a) ==> w == Broken(0)) && (a == WouldBlock ==> w == Accepted(0))
      && (!Fails(a) && a != WouldBlock ==>
           var m := if a.n < |p| then a.n else |p|;
           w == Further(m, QueueWrites([p[m..]] + tail, io)))
  {
    var q, all := [p] + tail, [a] + io;
    assert q[0] == p && q[1..] == tail && all[0] == a && all[1..] == io;
    if a.Moved? && a.n > 0 {
      var m := Min(a.n, |p|);
      var q1 := [p[m..]] + tail;
      assert q1[0] == p[m..] && q1[1..] == tail;
      assert Writes(|p|, all) == Further(m, Writes(|p| - m, io)) && WritesRest(|p|, all) == WritesRest(|p| - m, io);
    }
  }

  lemma QueueWritesNone(tail: seq<Data>, io: seq<Io>)
    ensures QueueWrites([[]] + tail, io) == QueueWrites(tail, io)
    ensures (forall p :: p in tail ==> p != []) ==> QueueWrites(tail, []) == Accepted(0)
  {
    var q := [[]] + tail;
    assert q[0] == [] && q[1..] == tail;
    assert Further(0, QueueWrites(tail, io)) == QueueWrites(tail, io);
    assert tail != [] ==> tail[0] in tail;
  }

  /** On such a descriptor no write of a queue fails. */
  lemma {:induction false} SteadyQueue(q: seq<Data>, io: seq<Io>)
    requires Steady(io)
    ensures QueueWrites(q, io).Accepted?
  {
    if q != [] {
      SteadyRest(|q[0]|, io);
      SteadyQueue(q[1..], WritesRest(|q[0]|, io));
    }
  }

  /** The loop around adb_write shared by enqueue and the event function; `wrote` follows the descriptor. */
  method WritePacket(s: Asocket, data: Data, io: seq<Io>) returns (left: Data, rest: seq<Io>, failed: bool)
    modifies s`past
    ensures var w := Writes(|data|, io);
      left == data[w.n..] && failed == w.Broken? && rest == WritesRest(|data|, io)
      && s.past == old(s.past).(wrote := old(s.past.wrote) + data[..w.n])
  {
    left, rest, failed := data, io, false;
    ghost var k := 0;
    assert data[..0] == [];
    while |left| > 0
      invariant k <= |data| && left == data[k..] && !failed
      invariant s.past == old(s.past).(wrote := old(s.past.wrote) + data[..k])
      invariant Writes(|data|, io) == Further(k, Writes(|left|, rest))
      invariant WritesRest(|data|, io) == WritesRest(|left|, rest)
      decreases |left|
    {
      if rest == [] {
        return;
      }
      var r := rest[0];
      if r.Moved? && r.n > 0 {
        var n := Min(r.n, |left|);
        s.past := s.past.(wrote := s.past.wrote + left[..n]);
        assert data[..k] + left[..n] == data[..k + n];
        left, rest, k := left[n..], rest[1..], k + n;
        continue;
      }
      rest := rest[1..];
      failed := !r.WouldBlock?;
      return;
    }
  }

  /** While no link and no peer pointer is written, both lists and all pairings stand. */
  twostate lemma LinksStay(t: SocketTable)
    requires old(t.Chained() && t.Peers())
    requires unchanged(t`live) && unchanged(t`dying) && unchanged(t`remotes) && unchanged(t.active`next) && unchanged(t.active`prev) && unchanged(t.closing`next) && unchanged(t.closing`prev)
    requires forall x: Asocket :: x in t.live || x in t.dying ==> unchanged(x`next, x`prev, x`peer)
    requires forall r: Asocket :: r in t.remotes ==> unchanged(r`id, r`peer)
    ensures t.Chained() && t.Peers()
  {
    forall w: Which ensures t.ListOk(w) {
      assert old(t.ListOk(w));
      RingStays(t.HeadOf(w), t.Spine(w));
    }
    assert old(t.PeersOf(Local)) && old(t.PeersOf(Remote));
    forall s | s in t.live && s.peer != null ensures s.peer.peer == s {
      assert s.peer in t.live || s.peer in t.remotes;
    }
    assert t.PeersOf(Local) && t.PeersOf(Remote);
  }

  /** Changing the queue, interest and history of one socket keeps the heap in order. */
  twostate lemma OneChanged(t: SocketTable, new s: Asocket, new was: bool, new busy: bool)
    requires old(allocated(s))
    requires old(t.Chained() && t.Members(if was then {s} else {}) && t.Peers()) && unchanged(t`nextId)
    requires (s in t.live ==> LiveSock(s, t.nextId, busy)) && (s in t.dying ==> DyingSock(s, busy))
    requires unchanged(t`live) && unchanged(t`dying) && unchanged(t`remotes) && unchanged(t.active`next) && unchanged(t.active`prev) && unchanged(t.closing`next) && unchanged(t.closing`prev)
    requires forall x: Asocket :: x in t.live || x in t.dying ==> unchanged(x`next, x`prev, x`peer, x`id)
    requires forall x: Asocket :: (x in t.live || x in t.dying) && x != s ==>
      unchanged(x`name, x`freed, x`closing, x`writeError, x`fde, x`queue)
    requires forall r: Asocket :: r in t.remotes ==> unchanged(r`id, r`peer)
    ensures t.Chained() && t.Members(if busy then {s} else {}) && t.Peers()
  {
    LinksStay(t);
    var a, b := if was then {s} else {}, if busy then {s} else {};
    assert old(t.MembersOn(OnActive, a)) && old(t.MembersOn(OnClosing, a)) && t.ListOk(OnActive);
    assert t.MembersOn(OnActive, b) && t.MembersOn(OnClosing, b);
  }

  /** An active socket with a remote peer: what a stream of the protocol looks like on the heap. */
  ghost predicate Streaming(t: SocketTable, s: Asocket)
    reads t`live, t`remotes, s`peer
  {
    s in t.live && s.peer != null && s.peer in t.remotes
  }

  /** A socket whose peer, if it has one, is remote. */
  ghost predicate OnStream(t: SocketTable, s: Asocket)
    reads t`live, t`dying, t`remotes, s`peer
  {
    (s in t.live || s in t.dying) && (s.peer == null || s.peer in t.remotes)
  }

  /** The end of local_socket_enqueue: link the packet in at the tail, and ask for FDE_WRITE. */
  method AppendPacket(t: SocketTable, s: Asocket, p: Data)
    requires t.Valid() && s in t.live && s.peer != null
    modifies s`queue, s`fde
    ensures t.Valid() && s.queue == old(s.queue) + [p] && s.fde == SetFde(old(s.fde), old(s.fde.rd), true)
  {
    t.OnOneList();
    assert t.MembersOn(OnActive, {});
    s.queue := s.queue + [p];
    t.FdeventSet(s, s.fde.rd, true);
    OneChanged(t, s, false, false);
  }

  /** Closing looks at the peer only to tell it. */
  lemma CloseIgnoresPeer(x: Sock, p: nat)
    ensures Close(x.(peer := p)).sock == Close(x).sock
  {}

  lemma NoticeIsClse(s: Asocket)
    requires s.peer != null ==> s.peer.kind == Remote && s.peer.id != 0
    ensures CloseNotice(s) == LabelAll(Close(s.Abs()).out, s.id, s.Abs().peer)
    ensures Going(s) == {s} && PeerLingerSeq(s) == []
  {}

  /** local_socket_close on a stream: as values, Stream.Close, and the CLSE it says goes out. */
  method CloseStream(t: SocketTable, s: Asocket)
    requires t.Chained() && t.Members({s}) && t.Peers() && OnStream(t, s)
    modifies t`live, t`dying, t`remotes, t`out
    modifies s`id, s`fde, s`queue, s`freed, s`closing, s`peer, Obj(s.peer)`peer
    modifies t.Nodes()`next, t.Nodes()`prev
    ensures t.Valid() && t.live == Minus(old(t.live), {s}) && t.dying == Minus(old(t.dying), {s}) + old(LingerSeq(s))
    ensures s.Abs() == Close(old(s.Abs())).sock
    ensures t.out == old(t.out) + LabelAll(Close(old(s.Abs())).out, old(s.id), old(s.Abs().peer))
    ensures s.Abs().place != old(s.Abs().place) && s.peer == null
    ensures forall x: Asocket :: x in old(t.live) && x != s ==> t.Kept(x)
    ensures forall x: Asocket :: x in old(t.dying) && x != s ==> t.Kept(x)
  {
    t.OnOneList();
    t.ReadyToClose(s);
    assert t.PeersOf(Remote) && t.MembersOn(OnClosing, {s});
    CloseIgnoresPeer(s.Own(), s.Abs().peer);
    NoticeIsClse(s);
    assert Minus(t.dying, {s}) + [] == Minus(t.dying, {s});
    t.LocalSocketClose(s);
    ClosedIsClose(s);
  }

  /** s has failed a write: close it. */
  method FailWrite(t: SocketTable, s: Asocket)
    requires t.Valid() && OnStream(t, s)
    modifies t`live, t`dying, t`remotes, t`out
    modifies s`writeError, s`id, s`fde, s`queue, s`freed, s`closing, s`peer, Obj(s.peer)`peer
    modifies t.Nodes()`next, t.Nodes()`prev
    ensures t.Valid() && t.live == Minus(old(t.live), {s}) && t.dying == Minus(old(t.dying), {s})
    ensures s.Abs() == Close(old(s.Abs()).(werr := true)).sock
    ensures t.out == old(t.out) + LabelAll(Close(old(s.Abs())).out, old(s.id), old(s.Abs().peer))
    ensures s.Abs().place != old(s.Abs().place) && s.peer == null
    ensures forall x: Asocket :: x in old(t.live) && x != s ==> t.Kept(x)
    ensures forall x: Asocket :: x in old(t.dying) && x != s ==> t.Kept(x)
  {
    t.OnOneList();
    t.MayClose(s);
    s.writeError := true;
    WriteErrorKeeps(t, s);
    CloseStream(t, s);
    assert t.dying == Minus(old(t.dying), {s}) + [];
  }

  twostate lemma WriteErrorKeeps(t: SocketTable, new s: Asocket)
    requires old(allocated(s))
    requires old(t.Valid()) && old(OnStream(t, s)) && s.writeError && unchanged(t`nextId)
    requires unchanged(t`live) && unchanged(t`dying) && unchanged(t`remotes) && unchanged(t.active`next) && unchanged(t.active`prev) && unchanged(t.closing`next) && unchanged(t.closing`prev)
    requires forall x: Asocket :: x in t.live || x in t.dying ==>
      unchanged(x`next, x`prev, x`id, x`name, x`freed, x`closing, x`fde, x`queue, x`peer, x`past)
    requires forall x: Asocket :: (x in t.live || x in t.dying) && x != s ==> unchanged(x`writeError)
    requires forall r: Asocket :: r in t.remotes ==> unchanged(r`id, r`peer)
    ensures t.Chained() && t.Members({s}) && t.Peers() && OnStream(t, s)
    ensures s.Abs() == old(s.Abs()).(werr := true)
  {
    LinksStay(t);
    assert old(t.MembersOn(OnActive, {})) && old(t.MembersOn(OnClosing, {})) && t.ListOk(OnActive);
    assert t.MembersOn(OnActive, {s}) && t.MembersOn(OnClosing, {s});
  }

  /** What local_socket_enqueue does about the part that could not be written. */
  function Settled(x: Sock, left: Data, failed: bool): Enqueued {
    if failed then Enqueued(Close(x.(werr := true)), false)
    else if left == [] then Enqueued(Effect(x, []), true)
    else Enqueued(Effect(SetInterest(x.(queue := x.queue + [left]), x.rd, true), []), false)
  }

  /** An empty queue takes a packet: what the descriptor accepts is gone, the rest is queued. */
  function Attempt(x: Sock, data: Data, w: WriteOutcome): Enqueued
    requires w.n <= |data|
  {
    Settled(x.(wrote := x.wrote + data[..w.n]), data[w.n..], w.Broken?)
  }

  lemma AttemptIsEnqueue(x: Sock, data: Data, w: WriteOutcome)
    requires x.queue == [] && w.n <= |data|
    ensures Attempt(x.(got := x.got + data), data, w) == Enqueue(x, data, w)
  {}

  /** Offer a packet to the descriptor. */
  method WriteNow(t: SocketTable, s: Asocket, data: Data, io: seq<Io>) returns (left: Data, failed: bool)
    requires t.Valid() && s in t.live
    modifies s`past
    ensures t.Valid()
    ensures var w := Writes(|data|, io);
      left == data[w.n..] && failed == w.Broken? && s.Abs() == old(s.Abs()).(wrote := old(s.past.wrote) + data[..w.n])
  {
    t.OnOneList();
    assert t.MembersOn(OnActive, {});
    var rest;
    left, rest, failed := WritePacket(s, data, io);
    OneChanged(t, s, false, false);
  }

  method Settle(t: SocketTable, s: Asocket, left: Data, failed: bool) returns (r: nat)
    requires t.Valid() && Streaming(t, s)
    modifies t`live, t`dying, t`remotes, t`out
    modifies s`writeError, s`id, s`fde, s`queue, s`freed, s`closing, s`peer, Obj(s.peer)`peer
    modifies t.Nodes()`next, t.Nodes()`prev
    ensures t.Valid()
    ensures var e := Settled(old(s.Abs()), left, failed);
      s.Abs() == e.eff.sock && (r == 0 <==> e.ready)
      && t.out == old(t.out) + LabelAll(e.eff.out, old(s.id), old(s.Abs().peer))
    ensures t.live == if s.Abs().place == old(s.Abs().place) then old(t.live) else Minus(old(t.live), {s})
    ensures s.peer == null || s.peer == old(s.peer)
    ensures forall x: Asocket :: x in old(t.live) && x != s ==> t.Kept(x)
    ensures forall x: Asocket :: x in old(t.dying) ==> t.Kept(x)
  {
    t.OnOneList();
    if failed {
      FailWrite(t, s);
      return 1;
    }
    if left == [] {
      return 0;
    }
    AppendPacket(t, s, left);
    return 1;
  }

  /** local_socket_enqueue on an empty queue: write what can be written, keep the rest. */
  method WriteThrough(t: SocketTable, s: Asocket, data: Data, io: seq<Io>) returns (r: nat)
    requires t.Valid() && Streaming(t, s)
    modifies t`live, t`dying, t`remotes, t`out, s`past
    modifies s`writeError, s`id, s`fde, s`queue, s`freed, s`closing, s`peer, Obj(s.peer)`peer
    modifies t.Nodes()`next, t.Nodes()`prev
    ensures t.Valid()
    ensures var e := Attempt(old(s.Abs()), data, Writes(|data|, io));
      s.Abs() == e.eff.sock && (r == 0 <==> e.ready)
      && t.out == old(t.out) + LabelAll(e.eff.out, old(s.id), old(s.Abs().peer))
    ensures t.live == if s.Abs().place == old(s.Abs().place) then old(t.live) else Minus(old(t.live), {s})
    ensures s.peer == null || s.peer == old(s.peer)
    ensures forall x: Asocket :: x in old(t.live) && x != s ==> t.Kept(x)
    ensures forall x: Asocket :: x in old(t.dying) ==> t.Kept(x)
  {
    t.OnOneList();
    var left, failed := WriteNow(t, s, data, io);
    r := Settle(t, s, left, failed);
  }

  /** `got` follows what is handed to enqueue. */
  method Receive(t: SocketTable, s: Asocket, data: Data)
    requires t.Valid() && s in t.live
    modifies s`past
    ensures t.Valid() && s.Abs() == old(s.Abs()).(got := old(s.past.got) + data)
  {
    t.OnOneList();
    assert t.MembersOn(OnActive, {});
    s.past := s.past.(got := s.past.got + data);
    OneChanged(t, s, false, false);
  }

  /** local_socket_enqueue behind a backlog. */
  method EnqueueBehind(t: SocketTable, s: Asocket, data: Data)
    requires t.Valid() && s in t.live && s.peer != null && s.queue != []
    modifies s`past, s`fde, s`queue
    ensures t.Valid() && s.Abs() == Enqueue(old(s.Abs()), data, Accepted(0)).eff.sock
  {
    Receive(t, s, data);
    AppendPacket(t, s, data);
  }

  /** local_socket_enqueue with nothing queued. */
  method EnqueueFirst(t: SocketTable, s: Asocket, data: Data, io: seq<Io>) returns (r: nat)
    requires t.Valid() && Streaming(t, s) && s.queue == []
    modifies t`live, t`dying, t`remotes, t`out, s`past
    modifies s`writeError, s`id, s`fde, s`queue, s`freed, s`closing, s`peer, Obj(s.peer)`peer
    modifies t.Nodes()`next, t.Nodes()`prev
    ensures t.Valid()
    ensures var e := Enqueue(old(s.Abs()), data, Writes(|data|, io));
      s.Abs() == e.eff.sock && (r == 0 <==> e.ready)
      && t.out == old(t.out) + LabelAll(e.eff.out, old(s.id), old(s.Abs().peer))
    ensures t.live == if s.Abs().place == old(s.Abs().place) then old(t.live) else Minus(old(t.live), {s})
    ensures s.peer == null || s.peer == old(s.peer)
    ensures forall x: Asocket :: x in old(t.live) && x != s ==> t.Kept(x)
    ensures forall x: Asocket :: x in old(t.dying) ==> t.Kept(x)
  {
    AttemptIsEnqueue(s.Abs(), data, Writes(|data|, io));
    Receive(t, s, data);
    r := WriteThrough(t, s, data, io);
  }

  /** What is offered to an active socket, by the descriptor's answers. */
  lemma OfferedTo(x: Sock, data: Data, io: seq<Io>)
    requires x.place == Active && x.peer != 0
    ensures var e := Enqueue(x, data, Writes(|data|, io)); var y, n := e.eff.sock, Through(|data|, io);
      && (x.queue != [] ==> y.place == Active && y.queue == x.queue + [data] && y.wrote == x.wrote && !e.ready && e.eff.out == [])
      && (x.queue == [] && !WriteFails(|data|, io) ==>
           && y.place == Active && y.queue == (if n == |data| then [] else [data[n..]]) && y.wrote == x.wrote + data[..n]
           && (e.ready <==> n == |data|) && e.eff.out == [])
      && (x.queue == [] && WriteFails(|data|, io) ==> y.place == Freed && !e.ready && e.eff.out == [Clse])
  {
    WritesAre(|data|, io);
    EnqueueEnds(x, data, Writes(|data|, io));
    assert x.wrote + [] == x.wrote;
  }

  /** local_socket_enqueue from a remote peer: as values, Stream.Enqueue. */
  method EnqueueAny(t: SocketTable, s: Asocket, data: Data, io: seq<Io>) returns (r: nat)
    requires t.Valid() && Streaming(t, s)
    modifies t`live, t`dying, t`remotes, t`out, s`past
    modifies s`writeError, s`id, s`fde, s`queue, s`freed, s`closing, s`peer, Obj(s.peer)`peer
    modifies t.Nodes()`next, t.Nodes()`prev
    ensures t.Valid()
    ensures var e := Enqueue(old(s.Abs()), data, Writes(|data|, io));
      s.Abs() == e.eff.sock && (r == 0 <==> e.ready)
      && t.out == old(t.out) + LabelAll(e.eff.out, old(s.id), old(s.Abs().peer))
    ensures t.live == if s.Abs().place == old(s.Abs().place) then old(t.live) else Minus(old(t.live), {s})
    ensures s.peer == null || s.peer == old(s.peer)
    ensures forall x: Asocket :: x in old(t.live) && x != s ==> t.Kept(x)
    ensures forall x: Asocket :: x in old(t.dying) ==> t.Kept(x)
  {
    if s.queue != [] {
      t.OnOneList();
      EnqueueBehind(t, s, data);
      r := 1;
    } else {
      r := EnqueueFirst(t, s, data, io);
    }
  }

  /**
   The same by what the descriptor answers; 0 asks for more data. Behind a backlog the packet waits. Otherwise
   as much as the descriptor takes is written and the rest waits; a failing write frees the socket, with a CLSE.
   */
  method LocalSocketEnqueue(t: SocketTable, s: Asocket, data: Data, io: seq<Io>) returns (r: nat)
    requires t.Valid() && Streaming(t, s)
    modifies t`live, t`dying, t`remotes, t`out, s`past
    modifies s`writeError, s`id, s`fde, s`queue, s`freed, s`closing, s`peer, Obj(s.peer)`peer
    modifies t.Nodes()`next, t.Nodes()`prev
    ensures t.Valid()
    ensures var e := Enqueue(old(s.Abs()), data, Writes(|data|, io));
      s.Abs() == e.eff.sock && (r == 0 <==> e.ready)
      && t.out == old(t.out) + LabelAll(e.eff.out, old(s.id), old(s.Abs().peer))
    ensures t.live == if s.Abs().place == old(s.Abs().place) then old(t.live) else Minus(old(t.live), {s})
    ensures s.peer == null || s.peer == old(s.peer)
    ensures forall x: Asocket :: x in old(t.live) && x != s ==> t.Kept(x)
    ensures forall x: Asocket :: x in old(t.dying) ==> t.Kept(x)
    ensures old(s.queue) != [] ==>
      s in t.live && s.queue == old(s.queue) + [data] && s.past.wrote == old(s.past.wrote) && r != 0 && t.out == old(t.out)
    ensures old(s.queue) == [] && !WriteFails(|data|, io) ==>
      var n := Through(|data|, io);
      && s in t.live && s.queue == (if n == |data| then [] else [data[n..]]) && s.past.wrote == old(s.past.wrote) + data[..n]
      && (r == 0 <==> n == |data|) && t.out == old(t.out)
    ensures old(s.queue) == [] && WriteFails(|data|, io) ==>
      s.freed && s !in t.live && r != 0 && t.out == old(t.out) + [Packet(CLSE, old(s.id), old(s.peer.id), [])]
  {
    assert t.MembersOn(OnActive, {}) && t.PeersOf(Remote);
    OfferedTo(s.Abs(), data, io);
    MinusMembers(t.live, {s});
    r := EnqueueAny(t, s, data, io);
  }

  // ---------------------------------------------------------------- the event function

  /** Packets that are written completely leave the queue, and nothing else changes for the rest. */
  lemma {:induction false} DropDone(done: seq<Data>, q: seq<Data>, n: nat)
    requires n <= |Flat(q)|
    ensures Flat(done + q) == Flat(done) + Flat(q)
    ensures Drop(done + q, |Flat(done)| + n) == Drop(q, n)
  {
    FlatAppend(done, q);
    if done == [] {
      assert done + q == q;
    } else {
      DropDone(done[1..], q, n);
      assert (done + q)[1..] == done[1..] + q;
    }
  }

  lemma QueueWritesCons(p: Data, tail: seq<Data>, io: seq<Io>)
    ensures var w := Writes(|p|, io);
      QueueWrites([p] + tail, io) == if w.n < |p| then w else Further(|p|, QueueWrites(tail, WritesRest(|p|, io)))
  {
    assert ([p] + tail)[0] == p && ([p] + tail)[1..] == tail;
  }

  lemma PacketDone(done: seq<Data>, p: Data, tail: seq<Data>)
    ensures done + ([p] + tail) == done + [p] + tail && Flat(done + [p]) == Flat(done) + p
  {
    FlatAppend(done, [p]);
    FlatOne(p);
  }

  lemma FurtherTwice(k: nat, n: nat, w: WriteOutcome)
    ensures Further(k, Further(n, w)) == Further(k + n, w)
  {}

  /** One packet of the queue: it stops the loop... */
  lemma StopsAt(q: seq<Data>, done: seq<Data>, p: Data, tail: seq<Data>, io: seq<Io>, rest: seq<Io>)
    requires q == done + ([p] + tail) && Writes(|p|, rest).n < |p|
    requires QueueWrites(q, io) == Further(|Flat(done)|, QueueWrites([p] + tail, rest))
    ensures var w, all := Writes(|p|, rest), QueueWrites(q, io);
      all == Further(|Flat(done)|, w) && Drop(q, all.n) == [p[w.n..]] + tail && Flat(q)[..all.n] == Flat(done) + p[..w.n]
  {
    QueueWritesCons(p, tail, rest);
    PartOfQueue(done, p, tail, Writes(|p|, rest).n);
  }

  /** ...or joins the ones that are done. */
  lemma GoesOn(q: seq<Data>, done: seq<Data>, p: Data, tail: seq<Data>, io: seq<Io>, rest: seq<Io>)
    requires q == done + ([p] + tail) && Writes(|p|, rest).n == |p|
    requires QueueWrites(q, io) == Further(|Flat(done)|, QueueWrites([p] + tail, rest))
    ensures q == done + [p] + tail && Flat(done + [p]) == Flat(done) + p
    ensures QueueWrites(q, io) == Further(|Flat(done + [p])|, QueueWrites(tail, WritesRest(|p|, rest)))
  {
    QueueWritesCons(p, tail, rest);
    PacketDone(done, p, tail);
    FurtherTwice(|Flat(done)|, |p|, QueueWrites(tail, WritesRest(|p|, rest)));
  }

  /** Stopping inside packet p. */
  lemma PartOfQueue(done: seq<Data>, p: Data, tail: seq<Data>, n: nat)
    requires n < |p|
    ensures Drop(done + ([p] + tail), |Flat(done)| + n) == [p[n..]] + tail
    ensures |Flat(done)| + n <= |Flat(done + ([p] + tail))|
    ensures Flat(done + ([p] + tail))[..|Flat(done)| + n] == Flat(done) + p[..n]
  {
    var q := [p] + tail;
    assert q[0] == p && q[1..] == tail && Flat(q) == p + Flat(tail);
    DropDone(done, q, n);
  }

  lemma AllDrained(q: seq<Data>)
    ensures Drop(q, |Flat(q)|) == []
  {
    DropDone(q, [], 0);
    assert q + [] == q;
  }

  /** The FDE_WRITE loops of local_socket_event_func: empty the queue as far as the descriptor lets us. */
  method DrainQueue(s: Asocket, io: seq<Io>) returns (failed: bool)
    modifies s`past, s`queue
    ensures var q := old(s.queue); var w := QueueWrites(q, io);
      s.queue == Drop(q, w.n) && failed == w.Broken?
      && s.past == old(s.past).(wrote := old(s.past.wrote) + Flat(q)[..w.n])
  {
    ghost var q: seq<Data>, done: seq<Data> := s.queue, [];
    var rest := io;
    while s.queue != []
      invariant q == done + s.queue
      invariant QueueWrites(q, io) == Further(|Flat(done)|, QueueWrites(s.queue, rest))
      invariant s.past == old(s.past).(wrote := old(s.past.wrote) + Flat(done))
      decreases |s.queue|
    {
      ghost var p, tail := s.queue[0], s.queue[1..];
      ghost var w := Writes(|p|, rest);
      assert s.queue == [p] + tail && p[..|p|] == p;
      if w.n < |p| { StopsAt(q, done, p, tail, io, rest); } else { GoesOn(q, done, p, tail, io, rest); }
      var left, rest', failed' := WritePacket(s, s.queue[0], rest);
      ConcatAssoc(old(s.past.wrote), Flat(done), p[..w.n]);
      if left != [] {
        s.queue := [left] + s.queue[1..];
        return failed';
      }
      done := done + [p];
      s.queue := s.queue[1..];
      rest := rest';
    }
    assert q == done;
    AllDrained(q);
    assert Flat(q)[..|Flat(q)|] == Flat(q) && QueueWrites(q, io) == Accepted(|Flat(q)|);
    failed := false;
  }

  /** The FDE_WRITE half of local_socket_event_func; `go` says whether the FDE_READ half is still to be tried. */
  datatype Half = Half(eff: Effect, go: bool)

  function AfterFlush(x: Sock, failed: bool): Half {
    if failed then Half(Close(x.(werr := true)), false)
    else if x.queue != [] then Half(Effect(x, []), false)
    else if x.place == Closing then Half(Close(x), false)
    else Half(Effect(SetInterest(x, x.rd, false), [Okay]), true)
  }

  function WriteIf(x: Sock, w: WriteOutcome, wr: bool): Half
    requires wr ==> w.n <= |Flat(x.queue)|
  {
    if wr then AfterFlush(Flush(x, w.n), w.Broken?) else Half(Effect(x, []), true)
  }

  function ReadIf(x: Sock, r: ReadOutcome, rd: bool): Effect {
    if rd then ReadPart(x, r) else Effect(x, [])
  }

  /** The event function, given which events it is called for. */
  function Handled(x: Sock, wr: bool, rd: bool, w: WriteOutcome, r: ReadOutcome): Effect
    requires wr ==> w.n <= |Flat(x.queue)|
  {
    var h := WriteIf(x, w, wr);
    var e := ReadIf(h.eff.sock, r, rd && h.go);
    Effect(e.sock, h.eff.out + e.out)
  }

  lemma HandledIsDispatch(x: Sock, w: WriteOutcome, r: ReadOutcome)
    requires x.evW ==> w.n <= |Flat(x.queue)|
    ensures Handled(x.(evR := false, evW := false), x.evW, x.evR, w, r) == Dispatch(x, w, r)
  {
    var h := WriteIf(x.(evR := false, evW := false), w, x.evW);
    assert h.eff.out + [] == h.eff.out;
  }

  /** No more packets queued: ignore writable events again, and tell the peer to resume (remote_socket_ready). */
  method Resume(t: SocketTable, s: Asocket)
    requires t.Chained() && t.Members({s}) && t.Peers() && Streaming(t, s)
    requires s.queue == [] && !s.writeError && !s.fde.evW
    modifies s`fde, t`out
    ensures t.Valid() && s.Abs() == SetInterest(old(s.Abs()), old(s.fde.rd), false)
    ensures t.out == old(t.out) + [Packet(OKAY, s.id, s.Abs().peer, [])]
  {
    t.OnOneList();
    assert t.PeersOf(Local) && t.MembersOn(OnActive, {s});
    t.FdeventSet(s, s.fde.rd, false);
    t.out := t.out + [Packet(OKAY, s.peer.peer.id, s.peer.id, [])];
    OneChanged(t, s, true, false);
  }

  /** The queue is written as far as it goes; if it is empty now, s is due to resume or to be freed. */
  method FlushQueue(t: SocketTable, s: Asocket, io: seq<Io>) returns (failed: bool)
    requires t.Valid() && (s in t.live || s in t.dying) && s.queue != []
    modifies s`past, s`queue
    ensures t.Chained() && t.Members({s}) && t.Peers()
    ensures failed ==> s.queue != []
    ensures s.queue != [] ==> t.Members({})
    ensures var w := QueueWrites(old(s.queue), io); s.Abs() == Flush(old(s.Abs()), w.n) && failed == w.Broken?
  {
    t.OnOneList();
    assert t.MembersOn(OnActive, {}) && t.MembersOn(OnClosing, {});
    DropFlat(s.queue, QueueWrites(s.queue, io).n);
    failed := DrainQueue(s, io);
    OneChanged(t, s, false, true);
    if s.queue != [] {
      OneChanged(t, s, false, false);
    }
  }

  /** What follows the FDE_WRITE loops: close on a failure, wait on a backlog, free or resume when all is written. */
  method Flushed(t: SocketTable, s: Asocket, failed: bool) returns (go: bool)
    requires t.Chained() && t.Members({s}) && t.Peers() && OnStream(t, s) && (s in t.live ==> s.peer != null)
    requires failed ==> s.queue != []
    requires s.queue != [] ==> t.Members({})
    requires !s.writeError && !s.fde.evW
    modifies t`live, t`dying, t`remotes, t`out
    modifies s`writeError, s`id, s`fde, s`queue, s`freed, s`closing, s`peer, Obj(s.peer)`peer
    modifies t.Nodes()`next, t.Nodes()`prev
    ensures t.Valid() && (go ==> OnStream(t, s) && s.id == old(s.id) && s.peer == old(s.peer))
    ensures go ==> t.live == old(t.live) && t.dying == old(t.dying) && t.remotes == old(t.remotes)
    ensures var h := AfterFlush(old(s.Abs()), failed);
      s.Abs() == h.eff.sock && go == h.go && t.out == old(t.out) + LabelAll(h.eff.out, old(s.id), old(s.Abs().peer))
    ensures t.live == if s.Abs().place == old(s.Abs().place) then old(t.live) else Minus(old(t.live), {s})
    ensures s.peer == null || s.peer == old(s.peer)
    ensures forall x: Asocket :: x in old(t.live) && x != s ==> t.Kept(x)
    ensures forall x: Asocket :: x in old(t.dying) && x != s ==> t.Kept(x)
  {
    t.OnOneList();
    assert t.MembersOn(OnActive, {s}) && t.MembersOn(OnClosing, {s});
    if failed {
      FailWrite(t, s);
      return false;
    }
    if s.queue != [] {
      return false;
    }
    if s.closing {
      CloseStream(t, s);
      return false;
    }
    Resume(t, s);
    return true;
  }

  // ---------------------------------------------------------------- reading

  /** The answer of one adb_read: bytes, end of file or a hard error, or EAGAIN. */
  datatype In = Got(data: Data) | End | Nothing

  /** What the read loop collects before it fills its packet, would block, or reaches the end. */
  function Collect(avail: nat, io: seq<In>): (r: ReadOutcome)
    ensures |r.data| <= avail && (r.eof ==> |r.data| < avail)
  {
    if avail == 0 || io == [] || io[0].Nothing? then ReadOutcome([], false)
    else if io[0].End? || io[0].data == [] then ReadOutcome([], true)
    else
      var d := io[0].data[..Min(|io[0].data|, avail)];
      var r := Collect(avail - |d|, io[1..]);
      ReadOutcome(d + r.data, r.eof)
  }

  /** How many answers come before the first that has no bytes, and the bytes they have. */
  function Gots(io: seq<In>): (k: nat)
    ensures k <= |io|
  {
    if io == [] || !io[0].Got? || io[0].data == [] then 0 else 1 + Gots(io[1..])
  }

  function Arrived(io: seq<In>): Data {
    if io == [] then [] else (if io[0].Got? then io[0].data else []) + Arrived(io[1..])
  }

  /**
   The read loop, by the descriptor's answers alone: it collects what they bring before the first that has no
   bytes, as far as there is room, and it has met the end if and only if there is room then and that answer is no EAGAIN.
   */
  lemma {:induction false} CollectsAre(avail: nat, io: seq<In>)
    ensures var k, r := Gots(io), Collect(avail, io); var all := Arrived(io[..k]);
      && r.data == UpTo(all, avail)
      && (r.eof <==> |all| < avail && k < |io| && (io[k] == End || io[k] == Got([])))
    decreases |io|
  {
    if avail > 0 && io != [] && io[0].Got? && io[0].data != [] {
      var tail, d, m := io[1..], io[0].data, Min(|io[0].data|, avail);
      GotsMore(io);
      CollectsAre(avail - m, tail);
      FillUp(avail, d, Arrived(tail[..Gots(tail)]));
      CollectFirst(avail, io);
    }
  }

  /** As much of d as there is room for. */
  function UpTo(d: Data, room: nat): (r: Data)
    ensures |r| <= |d| && |r| <= room && (|r| == |d| || |r| == room) && r == d[..|r|]
  {
    if |d| < room then d else d[..room]
  }

  lemma CollectFirst(avail: nat, io: seq<In>)
    requires avail > 0 && io != [] && io[0].Got? && io[0].data != []
    ensures var d, m := io[0].data, Min(|io[0].data|, avail); var r := Collect(avail - m, io[1..]);
      Collect(avail, io) == ReadOutcome(d[..m] + r.data, r.eof)
  {}

  /** One answer with bytes before the others. */
  lemma GotsMore(io: seq<In>)
    requires io != [] && io[0].Got? && io[0].data != []
    ensures var tail := io[1..]; var k := Gots(tail);
      && Gots(io) == k + 1 && Arrived(io[..k + 1]) == io[0].data + Arrived(tail[..k]) && (k < |tail| ==> io[k + 1] == tail[k])
  {
    var k, head := Gots(io[1..]), io[..Gots(io[1..]) + 1];
    assert head[0] == io[0];
    assert head[1..] == io[1..][..k];
    assert Arrived(head) == io[0].data + Arrived(head[1..]);
  }

  /** Filling up with d first and with more after it. */
  lemma FillUp(room: nat, d: Data, more: Data)
    ensures var m := Min(|d|, room);
      && UpTo(d + more, room) == d[..m] + UpTo(more, room - m) && (|more| < room - m <==> |d + more| < room)
  {
    if |d| <= room {
      assert d[..|d|] == d;
    } else {
      assert more[..0] == [];
    }
  }

  /** The loop around adb_read in local_socket_event_func. */
  method ReadPacket(max: nat, io: seq<In>) returns (p: Data, eof: bool)
    ensures ReadOutcome(p, eof) == Collect(max, io)
  {
    p, eof := [], false;
    var rest, avail: nat := io, max;
    while avail > 0
      invariant Collect(max, io) == (var r := Collect(avail, rest); ReadOutcome(p + r.data, r.eof)) && !eof
    {
      if rest == [] || rest[0].Nothing? {
        break;
      }
      if rest[0].Got? && rest[0].data != [] {
        var d := rest[0].data[..Min(|rest[0].data|, avail)];
        ConcatAssoc(p, d, Collect(avail - |d|, rest[1..]).data);
        p, avail, rest := p + d, avail - |d|, rest[1..];
        continue;
      }
      eof := true;
      break;
    }
  }

  /** A descriptor that has not come to its end. */
  predicate Lively(io: seq<In>) {
    forall k :: 0 <= k < |io| ==> io[k] != End && io[k] != Got([])
  }

  /**
   An active socket whose descriptor takes or delays writes, and has not come to its end, stays active. Due to be
   read with nothing to write, it sends its peer what has arrived, in one packet, as far as that has room.
   */
  lemma StaysActive(x: Sock, max: nat, wio: seq<Io>, rio: seq<In>)
    requires SockInv(x) && x.place == Active && x.peer != 0 && Steady(wio) && Lively(rio)
    ensures var e := Dispatch(x, QueueWrites(x.queue, wio), Collect(max, rio)); var all := Arrived(rio[..Gots(rio)]);
      var d := UpTo(all, max);
      && e.sock.place == Active
      && (!x.evW && x.evR ==> e.out == (if d != [] then [Wrte(d)] else []) && e.sock.Read() == x.Read() + d && e.sock.wrote == x.wrote)
  {
    SteadyQueue(x.queue, wio);
    CollectsAre(max, rio);
    DispatchEnds(x, QueueWrites(x.queue, wio), Collect(max, rio));
    DispatchRecords(x, QueueWrites(x.queue, wio), Collect(max, rio));
    assert x.wrote + [] == x.wrote;
  }

  /** What becomes of the packet: it goes to the remote peer, which never asks for more, or is dropped. */
  method HandOver(t: SocketTable, s: Asocket, p: Data)
    requires t.Valid() && OnStream(t, s)
    modifies s`past, s`fde, t`out
    ensures t.Valid() && s.Abs() == Take(old(s.Abs()), p).sock
    ensures t.out == old(t.out) + LabelAll(Take(old(s.Abs()), p).out, s.id, s.Abs().peer)
  {
    t.OnOneList();
    assert t.MembersOn(OnActive, {}) && t.MembersOn(OnClosing, {}) && t.PeersOf(Local) && t.PeersOf(Remote);
    if p != [] {
      if s.peer == null {
        s.past := if s.closing then s.past.(late := s.past.late + p) else s.past.(early := s.past.early + p);
      } else {
        s.past := s.past.(taken := s.past.taken + p);
        t.out := t.out + [Packet(WRTE, s.peer.peer.id, s.peer.id, p)];
        t.FdeventSet(s, false, s.fde.wr);
      }
    }
    OneChanged(t, s, false, false);
  }

  /** Read a packet and hand it over. */
  method ReadAndHandOver(t: SocketTable, s: Asocket, max: nat, io: seq<In>) returns (eof: bool)
    requires t.Valid() && OnStream(t, s)
    modifies s`past, s`fde, t`out
    ensures t.Valid()
    ensures var r := Collect(max, io); var e := Take(old(s.Abs()), r.data);
      eof == r.eof && s.Abs() == e.sock && t.out == old(t.out) + LabelAll(e.out, s.id, s.Abs().peer)
  {
    assert t.MembersOn(OnActive, {}) && t.MembersOn(OnClosing, {});
    var p;
    p, eof := ReadPacket(max, io);
    OneChanged(t, s, false, false);
    HandOver(t, s, p);
  }

  function CloseIf(x: Sock, eof: bool): Effect {
    if eof then Close(x) else Effect(x, [])
  }

  lemma ReadPartIs(x: Sock, r: ReadOutcome)
    ensures var e := Take(x, r.data); var f := CloseIf(e.sock, r.eof);
      ReadPart(x, r) == Effect(f.sock, e.out + f.out) && e.sock.place == x.place
  {
    var e := Take(x, r.data);
    assert e.out + [] == e.out;
  }

  lemma ReadPartSteps(x: Sock, r: ReadOutcome, id: nat, peer: nat)
    ensures var e := Take(x, r.data); var f := CloseIf(e.sock, r.eof);
      ReadPart(x, r).sock == f.sock && e.sock.place == x.place
      && LabelAll(ReadPart(x, r).out, id, peer) == LabelAll(e.out, id, peer) + LabelAll(f.out, id, peer)
  {
    var e := Take(x, r.data);
    ReadPartIs(x, r);
    LabelAppend(e.out, CloseIf(e.sock, r.eof).out, id, peer);
  }

  method CloseAtEnd(t: SocketTable, s: Asocket, eof: bool)
    requires t.Valid() && OnStream(t, s)
    modifies t`live, t`dying, t`remotes, t`out
    modifies s`id, s`fde, s`queue, s`freed, s`closing, s`peer, Obj(s.peer)`peer
    modifies t.Nodes()`next, t.Nodes()`prev
    ensures t.Valid()
    ensures s.Abs() == CloseIf(old(s.Abs()), eof).sock
    ensures t.out == old(t.out) + LabelAll(CloseIf(old(s.Abs()), eof).out, old(s.id), old(s.Abs().peer))
    ensures t.live == if s.Abs().place == old(s.Abs().place) then old(t.live) else Minus(old(t.live), {s})
    ensures s.peer == null || s.peer == old(s.peer)
    ensures forall x: Asocket :: x in old(t.live) && x != s ==> t.Kept(x)
    ensures forall x: Asocket :: x in old(t.dying) && x != s ==> t.Kept(x)
  {
    if eof {
      t.MayClose(s);
      CloseStream(t, s);
    }
  }

  lemma InterestKeepsPlace(x: Sock, rd: bool, wr: bool)
    ensures SetInterest(x, rd, wr).place == x.place
  {}

  lemma TakeKeepsPlace(x: Sock, data: Data)
    ensures Take(x, data).sock.place == x.place
  {
    if data != [] && x.peer != 0 {
      InterestKeepsPlace(x.(taken := x.taken + data), false, x.wr);
    }
  }

  /** Read, hand over, and close at end of file. */
  method ReadThenClose(t: SocketTable, s: Asocket, max: nat, io: seq<In>)
    requires t.Valid() && OnStream(t, s)
    modifies t`live, t`dying, t`remotes, t`out, s`past
    modifies s`id, s`fde, s`queue, s`freed, s`closing, s`peer, Obj(s.peer)`peer
    modifies t.Nodes()`next, t.Nodes()`prev
    ensures t.Valid()
    ensures var r := Collect(max, io); var e := Take(old(s.Abs()), r.data); var f := CloseIf(e.sock, r.eof);
      s.Abs() == f.sock
      && t.out == old(t.out) + LabelAll(e.out, old(s.id), old(s.Abs().peer)) + LabelAll(f.out, old(s.id), old(s.Abs().peer))
    ensures t.live == if s.Abs().place == old(s.Abs().place) then old(t.live) else Minus(old(t.live), {s})
    ensures s.peer == null || s.peer == old(s.peer)
    ensures forall x: Asocket :: x in old(t.live) && x != s ==> t.Kept(x)
    ensures forall x: Asocket :: x in old(t.dying) && x != s ==> t.Kept(x)
  {
    TakeKeepsPlace(s.Abs(), Collect(max, io).data);
    var eof := ReadAndHandOver(t, s, max, io);
    CloseAtEnd(t, s, eof);
  }

  /** The FDE_READ half of local_socket_event_func. */
  method ReadHalf(t: SocketTable, s: Asocket, max: nat, io: seq<In>)
    requires t.Valid() && OnStream(t, s)
    modifies t`live, t`dying, t`remotes, t`out, s`past
    modifies s`id, s`fde, s`queue, s`freed, s`closing, s`peer, Obj(s.peer)`peer
    modifies t.Nodes()`next, t.Nodes()`prev
    ensures t.Valid()
    ensures s.Abs() == ReadPart(old(s.Abs()), Collect(max, io)).sock
    ensures t.out == old(t.out) + LabelAll(ReadPart(old(s.Abs()), Collect(max, io)).out, old(s.id), old(s.Abs().peer))
    ensures t.live == if s.Abs().place == old(s.Abs().place) then old(t.live) else Minus(old(t.live), {s})
    ensures s.peer == null || s.peer == old(s.peer)
    ensures forall x: Asocket :: x in old(t.live) && x != s ==> t.Kept(x)
    ensures forall x: Asocket :: x in old(t.dying) && x != s ==> t.Kept(x)
  {
    ghost var r := Collect(max, io);
    ghost var e := Take(s.Abs(), r.data);
    ReadPartSteps(s.Abs(), r, s.id, s.Abs().peer);
    ConcatAssoc(t.out, LabelAll(e.out, s.id, s.Abs().peer), LabelAll(CloseIf(e.sock, r.eof).out, s.id, s.Abs().peer));
    ReadThenClose(t, s, max, io);
  }

  /** fdevent_call_fdfunc takes the pending events and clears them. */
  method TakeEvents(t: SocketTable, s: Asocket) returns (rd: bool, wr: bool)
    requires t.Valid() && (s in t.live || s in t.dying)
    modifies s`fde
    ensures t.Valid() && s.Abs() == old(s.Abs()).(evR := false, evW := false)
    ensures rd == old(s.fde.evR) && wr == old(s.fde.evW)
    ensures wr ==> s.queue != [] && (s in t.live ==> s.peer != null)
    ensures !s.writeError
  {
    t.OnOneList();
    assert t.MembersOn(OnActive, {}) && t.MembersOn(OnClosing, {});
    rd, wr := s.fde.evR, s.fde.evW;
    s.fde := s.fde.(evR := false, evW := false);
    OneChanged(t, s, false, false);
  }

  /** The FDE_WRITE half of local_socket_event_func. */
  method WriteHalf(t: SocketTable, s: Asocket, io: seq<Io>) returns (go: bool)
    requires t.Valid() && OnStream(t, s) && s.queue != [] && (s in t.live ==> s.peer != null)
    requires !s.writeError && !s.fde.evW
    modifies t`live, t`dying, t`remotes, t`out, s`past
    modifies s`writeError, s`id, s`fde, s`queue, s`freed, s`closing, s`peer, Obj(s.peer)`peer
    modifies t.Nodes()`next, t.Nodes()`prev
    ensures t.Valid() && (go ==> OnStream(t, s) && s.id == old(s.id) && s.peer == old(s.peer))
    ensures go ==> t.live == old(t.live) && t.dying == old(t.dying) && t.remotes == old(t.remotes)
    ensures var w := QueueWrites(old(s.queue), io); var h := AfterFlush(Flush(old(s.Abs()), w.n), w.Broken?);
      s.Abs() == h.eff.sock && go == h.go && t.out == old(t.out) + LabelAll(h.eff.out, old(s.id), old(s.Abs().peer))
    ensures t.live == if s.Abs().place == old(s.Abs().place) then old(t.live) else Minus(old(t.live), {s})
    ensures s.peer == null || s.peer == old(s.peer)
    ensures forall x: Asocket :: x in old(t.live) && x != s ==> t.Kept(x)
    ensures forall x: Asocket :: x in old(t.dying) && x != s ==> t.Kept(x)
  {
    var failed := FlushQueue(t, s, io);
    go := Flushed(t, s, failed);
  }

  method WriteSide(t: SocketTable, s: Asocket, wr: bool, io: seq<Io>) returns (go: bool)
    requires t.Valid() && OnStream(t, s) && (wr ==> s.queue != [] && (s in t.live ==> s.peer != null))
    requires !s.writeError && !s.fde.evW
    modifies t`live, t`dying, t`remotes, t`out, s`past
    modifies s`writeError, s`id, s`fde, s`queue, s`freed, s`closing, s`peer, Obj(s.peer)`peer
    modifies t.Nodes()`next, t.Nodes()`prev
    ensures t.Valid() && (go ==> OnStream(t, s) && s.id == old(s.id) && s.peer == old(s.peer))
    ensures go ==> t.live == old(t.live) && t.dying == old(t.dying) && t.remotes == old(t.remotes)
    ensures var h := WriteIf(old(s.Abs()), QueueWrites(old(s.queue), io), wr);
      s.Abs() == h.eff.sock && go == h.go && t.out == old(t.out) + LabelAll(h.eff.out, old(s.id), old(s.Abs().peer))
    ensures t.live == if s.Abs().place == old(s.Abs().place) then old(t.live) else Minus(old(t.live), {s})
    ensures s.peer == null || s.peer == old(s.peer)
    ensures forall x: Asocket :: x in old(t.live) && x != s ==> t.Kept(x)
    ensures forall x: Asocket :: x in old(t.dying) && x != s ==> t.Kept(x)
  {
    go := true;
    if wr {
      go := WriteHalf(t, s, io);
    }
  }

  method ReadSide(t: SocketTable, s: Asocket, rd: bool, max: nat, io: seq<In>)
    requires t.Valid() && OnStream(t, s)
    modifies t`live, t`dying, t`remotes, t`out, s`past
    modifies s`id, s`fde, s`queue, s`freed, s`closing, s`peer, Obj(s.peer)`peer
    modifies t.Nodes()`next, t.Nodes()`prev
    ensures t.Valid()
    ensures s.Abs() == ReadIf(old(s.Abs()), Collect(max, io), rd).sock
    ensures t.out == old(t.out) + LabelAll(ReadIf(old(s.Abs()), Collect(max, io), rd).out, old(s.id), old(s.Abs().peer))
    ensures t.live == if s.Abs().place == old(s.Abs().place) then old(t.live) else Minus(old(t.live), {s})
    ensures s.peer == null || s.peer == old(s.peer)
    ensures forall x: Asocket :: x in old(t.live) && x != s ==> t.Kept(x)
    ensures forall x: Asocket :: x in old(t.dying) && x != s ==> t.Kept(x)
  {
    if rd {
      ReadHalf(t, s, max, io);
    }
  }

  /** local_socket_event_func */
  method LocalSocketEventFunc(t: SocketTable, s: Asocket, wr: bool, rd: bool, max: nat, wio: seq<Io>, rio: seq<In>)
    requires t.Valid() && OnStream(t, s) && (wr ==> s.queue != [] && (s in t.live ==> s.peer != null))
    requires !s.writeError && !s.fde.evW
    modifies t`live, t`dying, t`remotes, t`out, s`past
    modifies s`writeError, s`id, s`fde, s`queue, s`freed, s`closing, s`peer, Obj(s.peer)`peer
    modifies t.Nodes()`next, t.Nodes()`prev
    ensures t.Valid()
    ensures s.Abs() == Handled(old(s.Abs()), wr, rd, QueueWrites(old(s.queue), wio), Collect(max, rio)).sock
    ensures t.out == old(t.out) +
      LabelAll(Handled(old(s.Abs()), wr, rd, QueueWrites(old(s.queue), wio), Collect(max, rio)).out, old(s.id), old(s.Abs().peer))
    ensures t.live == if s.Abs().place == old(s.Abs().place) then old(t.live) else Minus(old(t.live), {s})
    ensures s.peer == null || s.peer == old(s.peer)
    ensures forall x: Asocket :: x in old(t.live) && x != s ==> t.Kept(x)
    ensures forall x: Asocket :: x in old(t.dying) && x != s ==> t.Kept(x)
  {
    ghost var h := WriteIf(s.Abs(), QueueWrites(s.queue, wio), wr);
    ghost var e := ReadIf(h.eff.sock, Collect(max, rio), rd && h.go);
    LabelAppend(h.eff.out, e.out, s.id, s.Abs().peer);
    ConcatAssoc(t.out, LabelAll(h.eff.out, s.id, s.Abs().peer), LabelAll(e.out, s.id, s.Abs().peer));
    var go := WriteSide(t, s, wr, wio);
    if go {
      ReadSide(t, s, rd, max, rio);
    }
  }

  /** fdevent_call_fdfunc on a local socket, with the events pending: as values, Stream.Dispatch. */
  method CallEventFunc(t: SocketTable, s: Asocket, max: nat, wio: seq<Io>, rio: seq<In>)
    requires t.Valid() && OnStream(t, s)
    modifies t`live, t`dying, t`remotes, t`out, s`past
    modifies s`writeError, s`id, s`fde, s`queue, s`freed, s`closing, s`peer, Obj(s.peer)`peer
    modifies t.Nodes()`next, t.Nodes()`prev
    ensures t.Valid()
    ensures s.Abs() == Dispatch(old(s.Abs()), QueueWrites(old(s.queue), wio), Collect(max, rio)).sock
    ensures t.out == old(t.out) +
      LabelAll(Dispatch(old(s.Abs()), QueueWrites(old(s.queue), wio), Collect(max, rio)).out, old(s.id), old(s.Abs().peer))
    ensures t.live == if s.Abs().place == old(s.Abs().place) then old(t.live) else Minus(old(t.live), {s})
    ensures s.peer == null || s.peer == old(s.peer)
    ensures forall x: Asocket :: x in old(t.live) && x != s ==> t.Kept(x)
    ensures forall x: Asocket :: x in old(t.dying) && x != s ==> t.Kept(x)
  {
    t.OnOneList();
    HandledIsDispatch(s.Abs(), QueueWrites(s.queue, wio), Collect(max, rio));
    var rd, wr := TakeEvents(t, s);
    LocalSocketEventFunc(t, s, wr, rd, max, wio, rio);
  }
}
