/**
 Two local sockets of one process that are each other's peer (src/sockets.cpp): the event function and
 local_socket_enqueue between them, as long as no write fails.
 */
module LocalPair {
  import opened Bytes
  import opened Lists
  import opened Stream
  import opened SocketList
  import opened SocketHeap
  import opened SocketEvents
  import opened PacketHandler

  /** s and u are active and paired. */
  ghost predicate Paired(t: SocketTable, s: Asocket, u: Asocket)
    reads t`live, s`peer, u`peer
  {
    s in t.live && u in t.live && s != u && s.peer == u && u.peer == s
  }

  /**
   One direction: what s has handed over is what u was given, which is what u has written and what it still
   has to write; and s listens for more only when u has no backlog.
   */
  ghost predicate Conveys(s: Asocket, u: Asocket)
    reads s`past, s`fde, u`past, u`queue
  {
    && s.past.taken == u.past.got && u.past.got == u.past.wrote + Flat(u.queue)
    && (s.fde.rd ==> u.queue == [])
  }

  /** Both directions of a pair in a heap that is in order. */
  ghost predicate Sound(t: SocketTable, s: Asocket, u: Asocket)
    reads t, t.Nodes(), t.remotes, s`peer, u`peer, s`past, s`fde, s`queue, u`past, u`fde, u`queue
    reads (set x | x in t.live && x.peer != null :: x.peer)`peer, (set r | r in t.remotes && r.peer != null :: r.peer)`peer
  {
    t.Valid() && Paired(t, s, u) && Conveys(s, u) && Conveys(u, s)
  }

  /** The end of local_socket_enqueue when no write failed. */
  method KeepRest(t: SocketTable, s: Asocket, left: Data) returns (r: nat)
    requires t.Valid() && s in t.live && s.peer != null
    modifies s`queue, s`fde
    ensures t.Valid() && s.Abs() == Settled(old(s.Abs()), left, false).eff.sock && (r == 0 <==> left == [])
  {
    if left == [] {
      t.OnOneList();
      assert t.MembersOn(OnActive, {});
      return 0;
    }
    AppendPacket(t, s, left);
    r := 1;
  }

  /** local_socket_enqueue, the descriptor of s failing no write; 0 asks for more data. */
  method Enqueue(t: SocketTable, s: Asocket, data: Data, io: seq<Io>) returns (r: nat)
    requires t.Valid() && s in t.live && s.peer != null
    requires s.queue == [] ==> Writes(|data|, io).Accepted?
    modifies s`past, s`queue, s`fde
    ensures t.Valid() && s.Abs() == Stream.Enqueue(old(s.Abs()), data, Writes(|data|, io)).eff.sock
    ensures r == 0 <==> Stream.Enqueue(old(s.Abs()), data, Writes(|data|, io)).ready
  {
    if s.queue != [] {
      EnqueueBehind(t, s, data);
      return 1;
    }
    AttemptIsEnqueue(s.Abs(), data, Writes(|data|, io));
    Receive(t, s, data);
    var left, failed := WriteNow(t, s, data, io);
    r := KeepRest(t, s, left);
  }

  /** What enqueue without a failing write does to queue and history. */
  lemma EnqueueConveys(x: Sock, data: Data, w: WriteOutcome)
    requires x.got == x.wrote + Flat(x.queue) && WriteFits(w, |data|) && (x.queue == [] ==> w.Accepted?)
    ensures var e := Stream.Enqueue(x, data, w); var y := e.eff.sock;
      && y.got == x.got + data && y.got == y.wrote + Flat(y.queue) && y.taken == x.taken && y.rd == x.rd
      && (e.ready <==> y.queue == []) && (y.queue == [] <==> x.queue == [] && w.n == |data|)
  {
    if x.queue != [] {
      FlatAppend(x.queue, [data]);
      FlatOne(data);
      ConcatAssoc(x.wrote, Flat(x.queue), data);
    } else {
      FlatOne(data[w.n..]);
      assert data == data[..w.n] + data[w.n..];
      ConcatAssoc(x.wrote, data[..w.n], data[w.n..]);
    }
  }

  /** u writes all of p at once. */
  ghost predicate TakesAll(u: Asocket, p: Data, io: seq<Io>)
    reads u`queue
  {
    u.queue == [] && Writes(|p|, io).n == |p|
  }

  /** enqueue, as far as queue and history go. */
  method Offer(t: SocketTable, u: Asocket, p: Data, io: seq<Io>) returns (r: nat)
    requires t.Valid() && u in t.live && u.peer != null && (u.queue == [] ==> Writes(|p|, io).Accepted?)
    requires u.past.got == u.past.wrote + Flat(u.queue)
    modifies u`past, u`queue, u`fde
    ensures t.Valid() && u.past.got == old(u.past.got) + p && u.past.got == u.past.wrote + Flat(u.queue)
    ensures u.past.taken == old(u.past.taken) && u.fde.rd == old(u.fde.rd) && (r == 0 <==> u.queue == [])
    ensures u.queue == [] <==> old(TakesAll(u, p, io))
  {
    ghost var x := u.Abs();
    EnqueueConveys(x, p, Writes(|p|, io));
    r := Enqueue(t, u, p, io);
    ghost var y := u.Abs();
    assert y.got == u.past.got && y.wrote == u.past.wrote && y.queue == u.queue && y.taken == u.past.taken && y.rd == u.fde.rd;
  }

  /** s hands p to u. */
  method Give(t: SocketTable, s: Asocket, u: Asocket, p: Data, io: seq<Io>) returns (r: nat)
    requires t.Valid() && Paired(t, s, u) && (u.queue == [] ==> Writes(|p|, io).Accepted?)
    requires u.past.got == u.past.wrote + Flat(u.queue)
    modifies s`past, u`past, u`queue, u`fde
    ensures t.Valid() && s.past == old(s.past).(taken := old(s.past.taken) + p)
    ensures u.past.got == old(u.past.got) + p && u.past.got == u.past.wrote + Flat(u.queue) && u.past.taken == old(u.past.taken)
    ensures u.fde.rd == old(u.fde.rd) && (r == 0 <==> u.queue == []) && (u.queue == [] <==> old(TakesAll(u, p, io)))
  {
    Take(t, s, p);
    r := Offer(t, u, p, io);
  }

  /** Something was read, and u writes all of it at once: enqueue is called and returns 0. */
  ghost predicate PassesOn(u: Asocket, p: Data, io: seq<Io>)
    reads u`queue
  {
    p != [] && TakesAll(u, p, io)
  }

  /** What s has read goes to u, and s stops listening if u is busy. */
  method HandTo(t: SocketTable, s: Asocket, u: Asocket, p: Data, io: seq<Io>) returns (r: nat)
    requires Sound(t, s, u) && (u.queue == [] ==> Writes(|p|, io).Accepted?)
    modifies s`past, s`fde, u`past, u`queue, u`fde
    ensures Sound(t, s, u) && s.past.taken == old(s.past.taken) + p && s.past.wrote == old(s.past.wrote)
    ensures r == 0 <==> old(TakesAll(u, p, io))
    ensures u.fde.rd == old(u.fde.rd) && (u.queue == [] ==> s.fde.rd == old(s.fde.rd))
  {
    r := Give(t, s, u, p, io);
    if r > 0 {
      Deafen(t, s);
    }
  }

  /** The FDE_READ half up to the test for end of file. */
  method PassOn(t: SocketTable, s: Asocket, u: Asocket, max: nat, io: seq<In>, peerIo: seq<Io>) returns (r: int, eof: bool)
    requires Sound(t, s, u) && (u.queue == [] ==> Writes(|Collect(max, io).data|, peerIo).Accepted?)
    modifies s`past, s`fde, u`past, u`queue, u`fde
    ensures Sound(t, s, u) && eof == Collect(max, io).eof
    ensures s.past.taken == old(s.past.taken) + Collect(max, io).data && s.past.wrote == old(s.past.wrote)
    ensures r == 0 <==> old(PassesOn(u, Collect(max, io).data, peerIo))
    ensures u.fde.rd == old(u.fde.rd) && (u.queue == [] ==> s.fde.rd == old(s.fde.rd))
  {
    t.Parts();
    var p;
    p, eof := ReadPacket(max, io);
    OneChanged(t, s, false, false);
    r := -1;
    if p != [] {
      r := HandTo(t, s, u, p, peerIo);
    }
  }

  /** `taken` follows what is handed to the peer. */
  method Take(t: SocketTable, s: Asocket, p: Data)
    requires t.Valid() && s in t.live
    modifies s`past
    ensures t.Valid() && s.past == old(s.past).(taken := old(s.past.taken) + p)
  {
    t.OnOneList();
    assert t.MembersOn(OnActive, {});
    s.past := s.past.(taken := s.past.taken + p);
    OneChanged(t, s, false, false);
  }

  /** fdevent_del(&s->fde, FDE_READ) */
  method Deafen(t: SocketTable, s: Asocket)
    requires t.Valid() && s in t.live
    modifies s`fde
    ensures t.Valid() && s.fde == SetFde(old(s.fde), false, old(s.fde.wr))
  {
    t.OnOneList();
    assert t.MembersOn(OnActive, {});
    t.FdeventSet(s, false, s.fde.wr);
    OneChanged(t, s, false, false);
  }

  /** All queued packets are written: FDE_WRITE goes, and local_socket_ready makes the peer listen again. */
  method ResumePeer(t: SocketTable, s: Asocket, u: Asocket)
    requires t.Chained() && t.Members({s}) && t.Peers() && Paired(t, s, u)
    requires s.queue == [] && !s.writeError && !s.fde.evW
    modifies s`fde, u`fde
    ensures t.Valid() && u.fde == SetFde(old(u.fde), true, old(u.fde.wr))
    ensures s.fde == SetFde(old(s.fde), old(s.fde.rd), false)
  {
    t.OnOneList();
    assert t.PeersOf(Local) && t.MembersOn(OnActive, {s});
    t.FdeventSet(s, s.fde.rd, false);
    OneChanged(t, s, true, false);
    LocalSocketReady(t, u);
  }

  /** The FDE_WRITE half: s writes its backlog; when that is done, u listens again. */
  method WriteBacklog(t: SocketTable, s: Asocket, u: Asocket, io: seq<Io>) returns (go: bool)
    requires Sound(t, s, u) && s.queue != [] && !s.fde.evW && QueueWrites(s.queue, io).Accepted?
    modifies s`past, s`queue, s`fde, u`fde
    ensures Sound(t, s, u) && (go <==> QueueWrites(old(s.queue), io).n == |Flat(old(s.queue))|) && u.queue == old(u.queue)
    ensures s.fde.rd == old(s.fde.rd) && (if go then u.fde.rd else u.fde == old(u.fde))
    ensures s.past.wrote == old(s.past.wrote) + Flat(old(s.queue))[..QueueWrites(old(s.queue), io).n]
  {
    t.OnOneList();
    ghost var q, n := s.queue, QueueWrites(s.queue, io).n;
    DropFlat(q, n);
    assert Flat(q) == Flat(q)[..n] + Flat(q)[n..];
    ConcatAssoc(s.past.wrote, Flat(q)[..n], Flat(q)[n..]);
    assert !s.writeError by { assert t.MembersOn(OnActive, {}); }
    var failed := FlushQueue(t, s, io);
    go := s.queue == [];
    if go {
      ResumePeer(t, s, u);
    }
  }

  /** fdevent_call_fdfunc takes the pending events. */
  method TakePending(t: SocketTable, s: Asocket, u: Asocket) returns (rd: bool, wr: bool)
    requires Sound(t, s, u)
    modifies s`fde
    ensures Sound(t, s, u) && !s.fde.evW && (wr ==> s.queue != [])
    ensures rd == old(s.fde.evR) && wr == old(s.fde.evW)
    ensures s.queue == old(s.queue) && s.fde.rd == old(s.fde.rd)
  {
    rd, wr := TakeEvents(t, s);
  }

  /** local_socket_close on one of a pair closes both. */
  method CloseBoth(t: SocketTable, s: Asocket, u: Asocket)
    requires t.Valid() && Paired(t, s, u)
    modifies t`live, t`dying, t`remotes, t`out
    modifies s`id, s`fde, s`queue, s`freed, s`closing, s`peer, u`id, u`fde, u`queue, u`freed, u`closing, u`peer
    modifies t.Nodes()`next, t.Nodes()`prev
    ensures t.Valid() && t.live == Minus(old(t.live), {s, u}) && t.out == old(t.out) && t.remotes == old(t.remotes)
    ensures t.dying == Minus(old(t.dying), {s}) + old(LingerSeq(u)) + old(LingerSeq(s))
    ensures Closed(s) && Closed(u)
  {
    t.OnOneList();
    t.MayClose(s);
    t.LocalSocketClose(s);
  }

  /** x waits on the closing list to write its backlog; without one it is freed. Either way nothing of it is lost. */
  ghost predicate Retired(t: SocketTable, x: Asocket)
    reads t`live, t`dying, x
  {
    && x !in t.live && x.peer == null && x.past.got == x.past.wrote + Flat(x.queue)
    && (if x.queue != [] then x in t.dying && x.closing && !x.freed && x.fde.wr else x !in t.dying && x.freed)
  }

  ghost function Backlogged(x: Asocket): seq<Asocket>
    reads x`queue
  {
    if x.queue != [] then [x] else []
  }

  /** Closing a sound pair. */
  method RetireBoth(t: SocketTable, s: Asocket, u: Asocket)
    requires Sound(t, s, u)
    modifies t`live, t`dying, t`remotes, t`out
    modifies s`id, s`fde, s`queue, s`freed, s`closing, s`peer, u`id, u`fde, u`queue, u`freed, u`closing, u`peer
    modifies t.Nodes()`next, t.Nodes()`prev
    ensures t.Valid() && t.live == Minus(old(t.live), {s, u}) && t.out == old(t.out) && t.remotes == old(t.remotes)
    ensures t.dying == old(t.dying) + Backlogged(u) + Backlogged(s)
    ensures Retired(t, s) && Retired(t, u)
  {
    t.OnOneList();
    assert t.MembersOn(OnActive, {});
    MinusNone(t.dying, {s});
    CloseBoth(t, s, u);
    MinusMembers(old(t.live), {s, u});
  }

  /** The FDE_READ half is reached: it is due, and no backlog of s keeps it waiting. */
  ghost predicate Reads(s: Asocket, wio: seq<Io>)
    reads s`fde, s`queue
  {
    s.fde.evR && (s.fde.evW ==> QueueWrites(s.queue, wio).n == |Flat(s.queue)|)
  }

  /**
   local_socket_event_func on one of a local pair, for every way its reads and writes go without failing. Nothing
   is lost or reordered between the two, and the heap stays in order; both are closed exactly at end of file or,
   when one is forced, once all that was read could be written, and the one with a backlog lingers to write it.
   */
  method PairEvent(t: SocketTable, s: Asocket, u: Asocket, forced: bool, max: nat, wio: seq<Io>, rio: seq<In>, peerIo: seq<Io>)
    returns (closed: bool)
    requires Sound(t, s, u) && QueueWrites(s.queue, wio).Accepted?
    requires u.queue == [] ==> Writes(|Collect(max, rio).data|, peerIo).Accepted?
    modifies t`live, t`dying, t`remotes, t`out, s`past, u`past
    modifies s`id, s`fde, s`queue, s`freed, s`closing, s`peer, u`id, u`fde, u`queue, u`freed, u`closing, u`peer
    modifies t.Nodes()`next, t.Nodes()`prev
    ensures t.Valid() && t.out == old(t.out)
    ensures !closed ==> Sound(t, s, u) && t.live == old(t.live) && t.dying == old(t.dying)
    ensures closed <==> old(Reads(s, wio)) && (Collect(max, rio).eof || (forced && old(PassesOn(u, Collect(max, rio).data, peerIo))))
    ensures !closed && u.queue == [] ==> s.fde.rd == old(s.fde.rd)
    ensures !closed && old(s.fde.evW) && QueueWrites(old(s.queue), wio).n == |Flat(old(s.queue))| ==> u.fde.rd
    ensures closed ==> t.live == Minus(old(t.live), {s, u}) && t.dying == old(t.dying) + Backlogged(u) + Backlogged(s)
    ensures closed ==> Retired(t, s) && Retired(t, u)
    ensures s.past.taken == (if old(Reads(s, wio)) then old(s.past.taken) + Collect(max, rio).data else old(s.past.taken))
    ensures old(s.fde.evW) ==> s.past.wrote == old(s.past.wrote) + Flat(old(s.queue))[..QueueWrites(old(s.queue), wio).n]
    ensures !old(s.fde.evW) ==> s.past.wrote == old(s.past.wrote)
    ensures s.past.taken == u.past.got && u.past.taken == s.past.got
  {
    var rd, wr := TakePending(t, s, u);
    var go := true;
    if wr {
      go := WriteBacklog(t, s, u, wio);
    }
    closed := false;
    if go && rd {
      var r, eof := PassOn(t, s, u, max, rio, peerIo);
      if (forced && r == 0) || eof {
        RetireBoth(t, s, u);
        closed := true;
      }
    }
  }
}
