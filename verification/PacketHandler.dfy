/**
 handle_packet (src/adb.cpp) on the heap of sockets, proved to be Mux.HandlePacket: the table of
 values that the protocol proofs talk about is what the linked lists really hold.
 */
module PacketHandler {
  import opened Bytes
  import opened Lists
  import opened Stream
  import opened Mux
  import opened SocketList
  import opened SocketHeap
  import opened SocketEvents

  /** Each active socket is in the table h under its id, with the same value. */
  ghost predicate Tabled(t: SocketTable, h: Host)
    reads t`live, t.live, (set s | s in t.live && s.peer != null :: s.peer)`id
  {
    forall s :: s in t.live ==> s.id in h.socks && h.socks[s.id] == s.Abs()
  }

  ghost predicate Listed(t: SocketTable, id: nat)
    reads t`live, t.live
  {
    exists s :: s in t.live && s.id == id
  }

  /** The active sockets of h are those of the heap, with peers that are all remote. */
  ghost predicate Agrees(t: SocketTable, h: Host)
    reads t, t.live, (set s | s in t.live && s.peer != null :: s.peer)`id
  {
    && h.next == t.nextId
    && Tabled(t, h)
    && (forall id :: id in h.socks && h.socks[id].place == Active ==> Listed(t, id))
    && (forall s :: s in t.live ==> s.peer == null || s.peer in t.remotes)
  }

  /** A socket of the heap matches exactly when the table has one. */
  lemma FoundIsMatched(t: SocketTable, h: Host, localId: nat, peerId: nat)
    requires t.MembersOn(OnActive, {}) && Tabled(t, h)
    requires forall id :: id in h.socks && h.socks[id].place == Active ==> Listed(t, id)
    ensures Found(h, localId, peerId) <==> exists s: Asocket :: s in t.live && t.Matches(s, localId, peerId)
  {
    if Found(h, localId, peerId) {
      assert Listed(t, localId);
      var s :| s in t.live && s.id == localId;
      assert t.Matches(s, localId, peerId);
    }
  }

  /** Looking a socket up leaves the heap as the table says. */
  method Lookup(t: SocketTable, ghost h: Host, localId: nat, peerId: nat) returns (r: Asocket?)
    requires t.Valid() && Agrees(t, h)
    ensures t.Valid() && Agrees(t, h)
    ensures r != null ==> r in t.live && t.Matches(r, localId, peerId)
    ensures r == null ==> forall s :: s in t.live ==> !t.Matches(s, localId, peerId)
  {
    r := t.FindLocalSocket(localId, peerId);
  }

  /** find_local_socket finds what Mux.Found says. */
  method Find(t: SocketTable, ghost h: Host, localId: nat, peerId: nat) returns (r: Asocket?)
    requires t.Valid() && Agrees(t, h)
    ensures t.Valid() && Agrees(t, h)
    ensures r != null <==> Found(h, localId, peerId)
    ensures r != null ==> r in t.live && r.id == localId && OnStream(t, r)
  {
    r := Lookup(t, h, localId, peerId);
    t.Parts();
    FoundIsMatched(t, h, localId, peerId);
  }

  /** The socket x has the value it had. */
  twostate lemma SameAbs(x: Asocket)
    requires unchanged(x`freed) && unchanged(x`closing) && unchanged(x`fde) && unchanged(x`queue) && unchanged(x`peer) && unchanged(x`writeError) && unchanged(x`past)
    requires x.peer != null ==> unchanged(x.peer`id)
    ensures x.Abs() == old(x.Abs())
  {}

  twostate lemma TabledAfter(t: SocketTable, new h: Host, new s: Asocket)
    requires old(allocated(s))
    requires old(Tabled(t, h)) && old(s in t.live) && (s in t.live ==> s.id == old(s.id))
    requires old(t.MembersOn(OnActive, {}))
    requires forall x: Asocket :: x in t.live && x != s ==> x in old(t.live) && unchanged(x`id) && x.Abs() == old(x.Abs())
    ensures Tabled(t, h.(socks := h.socks[old(s.id) := s.Abs()]))
  {}

  twostate lemma ListedAfter(t: SocketTable, new h: Host, new s: Asocket)
    requires old(allocated(s))
    requires old(forall id :: id in h.socks && h.socks[id].place == Active ==> Listed(t, id))
    requires s.Abs().place == Active ==> s in t.live && s.id == old(s.id)
    requires forall x: Asocket :: x in old(t.live) && x != s ==> x in t.live && unchanged(x`id)
    ensures var h' := h.(socks := h.socks[old(s.id) := s.Abs()]);
      forall id :: id in h'.socks && h'.socks[id].place == Active ==> Listed(t, id)
  {
    var h' := h.(socks := h.socks[old(s.id) := s.Abs()]);
    forall id | id in h'.socks && h'.socks[id].place == Active ensures Listed(t, id) {
      if id == old(s.id) {
        assert s in t.live;
      } else {
        assert old(Listed(t, id));
        var x: Asocket :| x in old(t.live) && old(x.id) == id;
        assert x in t.live;
      }
    }
  }

  /** Only s has changed, keeping its peer on its list, or leaving. */
  twostate predicate OnlyMoved(t: SocketTable, s: Asocket)
    reads *
  {
    && t.nextId == old(t.nextId) && unchanged(s`name)
    && t.live == (if s.Abs().place == Active then old(t.live) else Minus(old(t.live), {s}))
    && (s.Abs().place == Active ==> s.peer == null || s.peer.kind == Remote)
    && (forall x: Asocket :: x in old(t.live) && x != s ==> t.Kept(x) && unchanged(x`writeError, x`past))
    && (forall r: Asocket :: r in old(t.remotes) ==> unchanged(r`id))
  }

  /** The other active sockets were there before, with the same values. */
  twostate lemma OthersSame(t: SocketTable, new s: Asocket)
    requires old(allocated(s))
    requires old(t.Valid()) && old(forall x: Asocket :: x in t.live ==> x.peer == null || x.peer in t.remotes) && OnlyMoved(t, s)
    ensures forall x: Asocket :: x in t.live && x != s ==> x in old(t.live) && unchanged(x`id, x`peer) && x.Abs() == old(x.Abs())
    ensures forall x: Asocket :: x in old(t.live) && x != s ==> x in t.live
  {
    MinusMembers(old(t.live), {s});
    forall x: Asocket | x in t.live && x != s ensures x in old(t.live) && x.Abs() == old(x.Abs()) {
      assert old(x.peer) == null || old(x.peer) in old(t.remotes);
      SameAbs(x);
    }
  }

  /** One socket moves; the table follows. */
  twostate lemma AgreesAfter(t: SocketTable, new h: Host, new s: Asocket)
    requires old(allocated(s))
    requires old(t.Valid()) && t.Valid() && old(Agrees(t, h)) && old(s in t.live) && OnlyMoved(t, s)
    ensures Agrees(t, h.(socks := h.socks[old(s.id) := s.Abs()]))
    ensures s.Abs().place == Active ==> s.id == old(s.id)
  {
    t.Parts();
    t.OnOneList();
    OthersSame(t, s);
    assert old(t.MembersOn(OnActive, {})) && old(t.PeersOf(Remote));
    TabledAfter(t, h, s);
    ListedAfter(t, h, s);
  }

  /** local_socket_ready */
  method LocalSocketReady(t: SocketTable, s: Asocket)
    requires t.Valid() && s in t.live
    modifies s`fde
    ensures t.Valid() && s.Abs() == Ready(old(s.Abs()))
  {
    t.OnOneList();
    t.Parts();
    t.FdeventSet(s, true, s.fde.wr);
    OneChanged(t, s, false, false);
  }

  /** An active socket without a peer and a new remote socket point at each other. */
  twostate lemma PairedKeeps(t: SocketTable, new s: Asocket, new r: Asocket)
    requires old(allocated(s))
    requires old(t.Valid()) && unchanged(t`live) && unchanged(t`dying) && unchanged(t`nextId) && t.remotes == old(t.remotes) + {r} && fresh(r)
    requires unchanged(t.active`next) && unchanged(t.active`prev) && unchanged(t.closing`next) && unchanged(t.closing`prev)
    requires s in t.live && old(s.peer) == null && s.peer == r && r.peer == s && r.kind == Remote && r.id != 0
    requires forall x: Asocket :: x in t.live || x in t.dying ==>
      unchanged(x`next, x`prev, x`id, x`name, x`freed, x`closing, x`writeError, x`fde, x`queue)
    requires forall x: Asocket :: (x in t.live || x in t.dying) && x != s ==> unchanged(x`peer)
    requires forall x: Asocket :: x in old(t.remotes) ==> unchanged(x`id, x`peer)
    ensures t.Valid()
  {
    assert old(t.MembersOn(OnActive, {})) && old(t.MembersOn(OnClosing, {}));
    assert old(t.PeersOf(Local)) && old(t.PeersOf(Remote)) && old(t.ListOk(OnActive));
    forall w: Which ensures t.ListOk(w) {
      assert old(t.ListOk(w));
      RingStays(t.HeadOf(w), t.Spine(w));
    }
    assert t.MembersOn(OnActive, {}) && t.MembersOn(OnClosing, {});
    forall x | x in t.live && x.peer != null
      ensures x.peer != x && x.peer.peer == x && (x.peer in t.live || x.peer in t.remotes)
    {
      if x != s {
        assert old(x.peer.peer) == x && old(x.peer) != s;
        assert x.peer in t.live || x.peer in old(t.remotes);
      }
    }
    assert t.PeersOf(Local) && t.PeersOf(Remote);
  }

  /** create_remote_socket, and the two peer pointers. */
  method ConnectPeer(t: SocketTable, s: Asocket, id: nat, transport: nat)
    requires t.Valid() && s in t.live && s.peer == null && id != 0
    modifies t`remotes, s`peer
    ensures t.Valid() && s.Abs() == old(s.Abs()).(peer := id)
    ensures s.peer != null && fresh(s.peer) && s.peer.kind == Remote && t.remotes == old(t.remotes) + {s.peer}
  {
    t.OnOneList();
    t.Parts();
    var r := new Asocket(Remote, id, transport);
    r.peer := s;
    s.peer := r;
    t.remotes := t.remotes + {r};
    PairedKeeps(t, s, r);
  }

  /** A_CLSE */
  method HandleClose(t: SocketTable, ghost h: Host, online: bool, p: Packet)
    requires t.Valid() && Agrees(t, h) && h.online == online && p.cmd == CLSE
    modifies t`live, t`dying, t`remotes, t`out, t.remotes`peer
    modifies t.Nodes()`id, t.Nodes()`fde, t.Nodes()`queue, t.Nodes()`freed, t.Nodes()`closing, t.Nodes()`peer
    modifies t.Nodes()`next, t.Nodes()`prev
    ensures t.Valid()
    ensures var q := HandlePacket(h, p, false, Accepted(0));
      q.Reply? && Agrees(t, q.host) && t.out == old(t.out) + q.out
  {
    if online && p.arg1 != 0 {
      var s := Find(t, h, p.arg1, p.arg0);
      if s != null {
        CloseFound(t, h, s);
      }
    }
  }

  method CloseFound(t: SocketTable, ghost h: Host, s: Asocket)
    requires t.Valid() && Agrees(t, h) && s in t.live && OnStream(t, s)
    modifies t`live, t`dying, t`remotes, t`out
    modifies s`id, s`fde, s`queue, s`freed, s`closing, s`peer, Obj(s.peer)`peer
    modifies t.Nodes()`next, t.Nodes()`prev
    ensures t.Valid()
    ensures var x := h.socks[old(s.id)]; var e := Close(x);
      Agrees(t, h.(socks := h.socks[old(s.id) := e.sock])) && t.out == old(t.out) + LabelAll(e.out, old(s.id), x.peer)
  {
    t.Parts();
    t.OnOneList();
    t.MayClose(s);
    CloseStream(t, s);
    AgreesAfter(t, h, s);
  }

  /** A_WRTE: hand the payload to the socket, and acknowledge it if it wants more. */
  method EnqueueFound(t: SocketTable, s: Asocket, data: Data, io: seq<Io>) returns (r: nat)
    requires t.Valid() && Streaming(t, s) && s.Abs().place == Active
    modifies t`live, t`dying, t`remotes, t`out, s`past
    modifies s`writeError, s`id, s`fde, s`queue, s`freed, s`closing, s`peer, Obj(s.peer)`peer
    modifies t.Nodes()`next, t.Nodes()`prev
    ensures t.Valid() && OnlyMoved(t, s)
    ensures var e := Enqueue(old(s.Abs()), data, Writes(|data|, io));
      s.Abs() == e.eff.sock && (r == 0 <==> e.ready)
      && t.out == old(t.out) + LabelAll(e.eff.out, old(s.id), old(s.Abs().peer))
  {
    t.Parts();
    t.OnOneList();
    r := EnqueueAny(t, s, data, io);
  }

  method WriteFound(t: SocketTable, ghost h: Host, s: Asocket, data: Data, io: seq<Io>) returns (r: nat)
    requires t.Valid() && Agrees(t, h) && Streaming(t, s)
    modifies t`live, t`dying, t`remotes, t`out, s`past
    modifies s`writeError, s`id, s`fde, s`queue, s`freed, s`closing, s`peer, Obj(s.peer)`peer
    modifies t.Nodes()`next, t.Nodes()`prev
    ensures t.Valid() && (r == 0 ==> s.id == old(s.id))
    ensures var x := h.socks[old(s.id)]; var e := Enqueue(x, data, Writes(|data|, io));
      Agrees(t, h.(socks := h.socks[old(s.id) := e.eff.sock])) && (r == 0 <==> e.ready)
      && t.out == old(t.out) + LabelAll(e.eff.out, old(s.id), x.peer)
  {
    t.Parts();
    t.OnOneList();
    EnqueueEffect(s.Abs(), data, Writes(|data|, io));
    r := EnqueueFound(t, s, data, io);
    AgreesAfter(t, h, s);
  }

  /** enqueue leaves the socket in its place with its peer, or closes it. */
  lemma EnqueueEffect(x: Sock, data: Data, w: WriteOutcome)
    requires x.queue == [] ==> w.n <= |data|
    requires x.place == Active
    ensures var e := Enqueue(x, data, w);
      && (e.eff.sock.place == Active ==> e.eff.sock.peer == x.peer)
      && (e.ready ==> e.eff.sock.place == Active)
  {}

  /** A_WRTE */
  method HandleWrite(t: SocketTable, ghost h: Host, online: bool, p: Packet, io: seq<Io>)
    requires t.Valid() && Agrees(t, h) && h.online == online && p.cmd == WRTE
    modifies t`live, t`dying, t`remotes, t`out, t.remotes`peer, t.Nodes()`past, t.Nodes()`writeError
    modifies t.Nodes()`id, t.Nodes()`fde, t.Nodes()`queue, t.Nodes()`freed, t.Nodes()`closing, t.Nodes()`peer
    modifies t.Nodes()`next, t.Nodes()`prev
    ensures t.Valid()
    ensures var q := HandlePacket(h, p, false, Writes(|p.data|, io));
      q.Reply? && Agrees(t, q.host) && t.out == old(t.out) + q.out
  {
    if online && p.arg0 != 0 && p.arg1 != 0 {
      var s := Find(t, h, p.arg1, p.arg0);
      if s != null {
        ghost var e := Enqueue(s.Abs(), p.data, Writes(|p.data|, io));
        ConcatAssoc(t.out, LabelAll(e.eff.out, p.arg1, p.arg0), if e.ready then [Packet(OKAY, p.arg1, p.arg0, [])] else []);
        var r := WriteFound(t, h, s, p.data, io);
        if r == 0 {
          Send(t, HandlePacket(h, p, false, Writes(|p.data|, io)).host, Packet(OKAY, s.id, p.arg0, []));
        }
      }
    }
  }

  /** send_ready and send_close */
  method Send(t: SocketTable, ghost h: Host, p: Packet)
    requires t.Valid() && Agrees(t, h)
    modifies t`out
    ensures t.Valid() && Agrees(t, h) && t.out == old(t.out) + [p]
  {
    t.Parts();
    t.out := t.out + [p];
  }

  /** A_OKAY: the first one for a socket creates the connection. */
  method MakeReady(t: SocketTable, s: Asocket, id: nat, transport: nat)
    requires t.Valid() && s in t.live && OnStream(t, s) && id != 0
    modifies t`remotes, s`peer, s`fde
    ensures t.Valid() && OnlyMoved(t, s) && t.out == old(t.out)
    ensures s.Abs() == OnOkay(old(s.Abs()), id)
  {
    t.Parts();
    t.OnOneList();
    if s.peer == null {
      ConnectPeer(t, s, id, transport);
      LocalSocketReady(t, s);
    } else if s.peer.id == id {
      LocalSocketReady(t, s);
    }
  }

  method ReadyFound(t: SocketTable, ghost h: Host, s: Asocket, id: nat, transport: nat)
    requires t.Valid() && Agrees(t, h) && s in t.live && id != 0
    modifies t`remotes, s`peer, s`fde
    ensures t.Valid() && t.out == old(t.out)
    ensures Agrees(t, h.(socks := h.socks[s.id := OnOkay(old(s.Abs()), id)]))
  {
    MakeReady(t, s, id, transport);
    AgreesAfter(t, h, s);
  }

  /** A_OKAY */
  method HandleOkay(t: SocketTable, ghost h: Host, online: bool, p: Packet, transport: nat)
    requires t.Valid() && Agrees(t, h) && h.online == online && p.cmd == OKAY
    modifies t`remotes, t`out, t.Nodes()`peer, t.Nodes()`fde
    ensures t.Valid()
    ensures var q := HandlePacket(h, p, false, Accepted(0));
      q.Reply? && Agrees(t, q.host) && t.out == old(t.out) + q.out
  {
    if online && p.arg0 != 0 && p.arg1 != 0 {
      var s := Find(t, h, p.arg1, 0);
      if s != null {
        ReadyFound(t, h, s, p.arg0, transport);
      } else {
        Send(t, h, Packet(CLSE, p.arg1, p.arg0, []));
      }
    }
  }

  /** A new socket appears; so does its entry in the table. */
  twostate lemma AgreesNew(t: SocketTable, new h: Host, new s: Asocket)
    requires old(t.Valid()) && old(Agrees(t, h)) && t.Valid() && t.nextId == old(t.nextId) + 1
    requires t.live == old(t.live) + [s] && fresh(s) && s.id == old(t.nextId)
    requires s.Abs().place == Active && s.peer != null && s.peer.kind == Remote
    requires forall x: Asocket :: x in old(t.live) ==> t.Kept(x) && unchanged(x`writeError, x`past)
    requires forall r: Asocket :: r in old(t.remotes) ==> unchanged(r`id)
    ensures Agrees(t, h.(next := t.nextId, socks := h.socks[s.id := s.Abs()]))
  {
    var h' := h.(next := t.nextId, socks := h.socks[s.id := s.Abs()]);
    t.Parts();
    t.OnOneList();
    assert old(t.MembersOn(OnActive, {})) && old(t.PeersOf(Remote));
    forall x: Asocket | x in old(t.live) ensures x.id < s.id && x.Abs() == old(x.Abs()) {
      assert old(x.peer) == null || old(x.peer) in old(t.remotes);
      SameAbs(x);
    }
    assert Tabled(t, h');
    forall id | id in h'.socks && h'.socks[id].place == Active ensures Listed(t, id) {
      if id == s.id {
        assert s in t.live;
      } else {
        assert old(Listed(t, id));
        var x: Asocket :| x in old(t.live) && old(x.id) == id;
        assert x in t.live;
      }
    }
  }

  /** create_local_socket and create_remote_socket, paired. */
  method NewPair(t: SocketTable, id: nat, transport: nat) returns (s: Asocket?)
    requires t.Valid() && id != 0
    modifies t`live, t`remotes, t`nextId, t.Nodes()`next, t.Nodes()`prev
    ensures (s == null) <==> old(t.nextId) == MAX_ID
    ensures s != null ==> t.Valid() && fresh(s) && t.nextId == old(t.nextId) + 1 && t.live == old(t.live) + [s]
    ensures s != null ==> s.id == old(t.nextId) && s.Abs() == NEW_SOCK.(peer := id) && s.peer != null && s.peer.kind == Remote
    ensures s != null ==> fresh(s.peer) && s.peer.id == id
  {
    t.Parts();
    t.OnOneList();
    s := t.CreateLocalSocket();
    if s != null {
      ConnectPeer(t, s, id, transport);
    }
  }

  /** send_ready, and local_socket_ready. */
  method Welcome(t: SocketTable, s: Asocket)
    requires t.Valid() && s in t.live && s.peer != null
    modifies t`out, s`fde
    ensures t.Valid() && s.Abs() == Ready(old(s.Abs()))
    ensures t.out == old(t.out) + [Packet(OKAY, s.id, s.peer.id, [])]
  {
    t.Parts();
    t.out := t.out + [Packet(OKAY, s.id, s.peer.id, [])];
    OneChanged(t, s, false, false);
    LocalSocketReady(t, s);
  }

  /** The new pair, welcomed. */
  method NewService(t: SocketTable, id: nat, transport: nat) returns (s: Asocket?)
    requires t.Valid() && id != 0
    modifies t`live, t`remotes, t`nextId, t`out, t.Nodes()`next, t.Nodes()`prev
    ensures (s == null) <==> old(t.nextId) == MAX_ID
    ensures s != null ==> t.Valid() && fresh(s) && t.nextId == old(t.nextId) + 1 && t.live == old(t.live) + [s]
    ensures s != null ==> s.id == old(t.nextId) && s.Abs() == Ready(NEW_SOCK.(peer := id)) && s.peer != null && s.peer.kind == Remote
    ensures s != null ==> t.out == old(t.out) + [Packet(OKAY, s.id, id, [])]
  {
    s := NewPair(t, id, transport);
    if s != null {
      Welcome(t, s);
    }
  }

  /** A_OPEN, once the service is there: a new local socket paired with the opener, and OKAY. */
  method OpenService(t: SocketTable, ghost h: Host, id: nat, transport: nat) returns (s: Asocket?)
    requires t.Valid() && Agrees(t, h) && id != 0
    modifies t`live, t`remotes, t`nextId, t`out, t.Nodes()`next, t.Nodes()`prev
    ensures (s == null) <==> h.next >= MAX_ID
    ensures s != null ==> t.Valid() && t.out == old(t.out) + [Packet(OKAY, h.next, id, [])]
    ensures s != null ==> Agrees(t, h.(next := h.next + 1, socks := h.socks[h.next := Ready(NEW_SOCK.(peer := id))]))
  {
    t.Parts();
    s := NewService(t, id, transport);
    if s != null {
      AgreesNew(t, h, s);
    }
  }

  /** A_OPEN; found tells whether create_local_service_socket knows the service. */
  method HandleOpen(t: SocketTable, ghost h: Host, online: bool, p: Packet, found: bool, transport: nat) returns (aborted: bool)
    requires t.Valid() && Agrees(t, h) && h.online == online && p.cmd == OPEN
    modifies t`live, t`remotes, t`nextId, t`out, t.Nodes()`next, t.Nodes()`prev
    ensures var q := HandlePacket(h, p, found, Accepted(0));
      aborted == q.Fatal? && (q.Reply? ==> t.Valid() && Agrees(t, q.host) && t.out == old(t.out) + q.out)
  {
    aborted := false;
    if online && p.arg0 != 0 && p.arg1 == 0 {
      if !found {
        Send(t, h, Packet(CLSE, 0, p.arg0, []));
      } else {
        var s := OpenService(t, h, p.arg0, transport);
        aborted := s == null;
      }
    }
  }

  /**
   handle_packet for one packet of a stream, on the heap, does what Mux.HandlePacket does to the
   table. The table follows the active sockets: those on the closing list have given up their ids.
   */
  method HandleOnHeap(t: SocketTable, ghost h: Host, online: bool, p: Packet, found: bool, transport: nat, io: seq<Io>)
    returns (aborted: bool)
    requires t.Valid() && Agrees(t, h) && h.online == online
    modifies t`live, t`dying, t`remotes, t`nextId, t`out, t.remotes`peer, t.Nodes()`past, t.Nodes()`writeError
    modifies t.Nodes()`id, t.Nodes()`fde, t.Nodes()`queue, t.Nodes()`freed, t.Nodes()`closing, t.Nodes()`peer
    modifies t.Nodes()`next, t.Nodes()`prev
    ensures var q := HandlePacket(h, p, found, Writes(|p.data|, io));
      aborted == q.Fatal? && (q.Reply? ==> t.Valid() && Agrees(t, q.host) && t.out == old(t.out) + q.out)
  {
    aborted := false;
    match p.cmd {
      case OPEN => aborted := HandleOpen(t, h, online, p, found, transport);
      case OKAY => HandleOkay(t, h, online, p, transport);
      case CLSE => HandleClose(t, h, online, p);
      case WRTE => HandleWrite(t, h, online, p, io);
    }
  }

  method EventFound(t: SocketTable, s: Asocket, max: nat, wio: seq<Io>, rio: seq<In>)
    requires t.Valid() && OnStream(t, s) && s.Abs().place == Active
    modifies t`live, t`dying, t`remotes, t`out, s`past
    modifies s`writeError, s`id, s`fde, s`queue, s`freed, s`closing, s`peer, Obj(s.peer)`peer
    modifies t.Nodes()`next, t.Nodes()`prev
    ensures t.Valid() && OnlyMoved(t, s)
    ensures var e := Stream.Dispatch(old(s.Abs()), QueueWrites(old(s.queue), wio), Collect(max, rio));
      s.Abs() == e.sock && t.out == old(t.out) + LabelAll(e.out, old(s.id), old(s.Abs().peer))
  {
    t.Parts();
    t.OnOneList();
    CallEventFunc(t, s, max, wio, rio);
  }

  /** The events of one active socket's descriptor on the heap do what Mux does to the table on DispatchFd. */
  method DispatchFd(t: SocketTable, ghost h: Host, s: Asocket, max: nat, wio: seq<Io>, rio: seq<In>)
    requires t.Valid() && Agrees(t, h) && s in t.live
    modifies t`live, t`dying, t`remotes, t`out, s`past
    modifies s`writeError, s`id, s`fde, s`queue, s`freed, s`closing, s`peer, Obj(s.peer)`peer
    modifies t.Nodes()`next, t.Nodes()`prev
    ensures t.Valid()
    ensures var x := h.socks[old(s.id)]; var e := Stream.Dispatch(x, QueueWrites(x.queue, wio), Collect(max, rio));
      Agrees(t, h.(socks := h.socks[old(s.id) := e.sock])) && t.out == old(t.out) + LabelAll(e.out, old(s.id), x.peer)
  {
    t.Parts();
    t.OnOneList();
    assert s.Abs() == h.socks[s.id];
    EventFound(t, s, max, wio, rio);
    AgreesAfter(t, h, s);
  }
}
