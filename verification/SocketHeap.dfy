/**
 The heap of local sockets (src/sockets.cpp): the two lists, symmetric peer pointers, and closing,
 which takes a socket and possibly its peer out of the list it is called from.
 */
module SocketHeap {
  import opened Bytes
  import opened Lists
  import opened Stream
  import opened Mux
  import opened SocketList

  /** local_socket_list and local_socket_closing_list. */
  datatype Which = OnActive | OnClosing

  /** A socket on the active list: its queue is nonempty exactly when FDE_WRITE is set, unless it is being closed. */
  ghost predicate LiveSock(s: Asocket, nextId: nat, busy: bool)
    reads s`id, s`name, s`freed, s`closing, s`writeError, s`fde, s`queue, s`peer
  {
    && 0 < s.id == s.name < nextId && !s.freed && !s.closing
    && (if busy then (s.queue != [] && !s.writeError ==> s.fde.wr)
        else !s.writeError && (s.fde.wr <==> s.queue != []) && (s.fde.evW ==> s.fde.wr) && (s.peer == null ==> s.queue == []))
  }

  /** A socket on the closing list has no id and no peer; it still has something to write, and waits to write it. */
  ghost predicate DyingSock(s: Asocket, busy: bool)
    reads s`id, s`freed, s`closing, s`writeError, s`fde, s`queue, s`peer
  {
    && s.id == 0 && !s.freed && s.closing && s.peer == null
    && (!busy ==> !s.writeError && !s.fde.rd && s.fde.wr && s.queue != [])
  }

  /** Closing s puts it on the closing list instead of freeing it. */
  ghost predicate Lingers(s: Asocket)
    reads s`closing, s`writeError, s`queue
  {
    !s.closing && !s.writeError && s.queue != []
  }

  ghost function LingerSeq(s: Asocket): seq<Asocket>
    reads s`closing, s`writeError, s`queue
  {
    if Lingers(s) then [s] else []
  }

  /** The local peer of s, if it has one. */
  ghost function LocalPeer(s: Asocket): set<Asocket>
    reads s`peer
  {
    if s.peer != null && s.peer.kind == Local then {s.peer} else {}
  }

  /** The sockets local_socket_close takes off their list: s, and its peer if that is local too. */
  ghost function Going(s: Asocket): set<Asocket>
    reads s`peer
  {
    if s.peer != null && s.peer.kind == Local then {s, s.peer} else {s}
  }

  ghost function PeerLingerSeq(s: Asocket): seq<Asocket>
    reads s`peer, Obj(s.peer)`closing, Obj(s.peer)`writeError, Obj(s.peer)`queue
  {
    if s.peer != null && s.peer.kind == Local then LingerSeq(s.peer) else []
  }

  ghost function RemotePeer(s: Asocket): set<Asocket>
    reads s`peer
  {
    if s.peer != null && s.peer.kind == Remote then {s.peer} else {}
  }

  /** The CLSE a closing socket sends to the other side. */
  ghost function CloseNotice(s: Asocket): seq<Packet>
    reads s`peer, s`id, Obj(s.peer)`id
  {
    if s.peer != null && s.peer.kind == Remote then [Packet(CLSE, s.id, s.peer.id, [])] else []
  }

  /** What closing makes of s: freed with everything it held, or waiting on the closing list to write its backlog. */
  twostate predicate Closed(s: Asocket)
    reads s
  {
    && s.peer == null && s.id == 0
    && (if old(Lingers(s)) then s.closing && s.freed == old(s.freed) && s.queue == old(s.queue) && s.fde == SetFde(old(s.fde), false, true)
        else s.freed && s.closing == old(s.closing) && s.queue == [] && s.fde == IDLE)
  }

  /** As a value, that is Stream.Close. */
  twostate lemma ClosedIsClose(s: Asocket)
    requires Closed(s) && old(!s.freed && (Lingers(s) ==> s.fde.wr))
    requires unchanged(s`writeError) && unchanged(s`past)
    ensures s.Own() == Close(old(s.Own())).sock
  {
    if old(Lingers(s)) {
      assert s.Own() == SetInterest(old(s.Own()), false, true).(place := Closing);
    }
  }

  /** A socket before its closing, and whether it will linger. */
  datatype Before = Before(lingers: bool, id: nat, freed: bool, closing: bool, fde: Fde, queue: seq<Data>, peer: Asocket?)

  /** The local sockets of a process: the two lists of sockets.cpp, the id counter, and packets sent. */
  class SocketTable {
    const active: Asocket        // &local_socket_list
    const closing: Asocket       // &local_socket_closing_list
    var nextId: nat              // local_socket_next_id
    var out: seq<Packet>         // handed to send_packet
    ghost var live: seq<Asocket> // the sockets on the active list, in order
    ghost var dying: seq<Asocket>
    ghost var remotes: set<Asocket>

    constructor ()
      ensures Valid() && live == [] && dying == [] && remotes == {} && out == [] && nextId == 1
      ensures fresh(active) && fresh(closing)
    {
      var a := new Asocket(Head, 0, 0);
      var c := new Asocket(Head, 0, 0);
      a.next, a.prev, c.next, c.prev := a, a, c, c;
      active, closing := a, c;
      nextId, out := 1, [];
      live, dying, remotes := [], [], {};
    }

    /** The two list heads and every socket on a list. */
    ghost function Nodes(): set<Asocket>
      reads this`live, this`dying
    {
      {active, closing} + (set o | o in live) + (set o | o in dying)
    }

    ghost function HeadOf(w: Which): Asocket {
      if w == OnActive then active else closing
    }

    ghost function Spine(w: Which): seq<Asocket>
      reads this`live, this`dying
    {
      if w == OnActive then live else dying
    }

    /** List w is a circle of local sockets, none of them on the other list. */
    ghost predicate ListOk(w: Which)
      reads this`live, this`dying, Nodes()`next, Nodes()`prev
    {
      && active.kind == Head && closing.kind == Head && active != closing
      && (forall s :: s in Spine(w) ==> s.kind == Local)
      && (forall s :: s in live ==> s !in dying)
      && Ring(HeadOf(w), Spine(w))
    }

    /** Both lists are well formed and disjoint. */
    ghost predicate Chained()
      reads this`live, this`dying, Nodes()`next, Nodes()`prev
    {
      forall w: Which :: ListOk(w)
    }

    lemma OnOneList()
      requires Chained()
      ensures forall s :: s in live ==> s.kind == Local && s !in dying
      ensures forall s :: s in dying ==> s.kind == Local && s !in live
    {
      assert ListOk(OnActive) && ListOk(OnClosing);
    }

    /** Ids on the active list identify a socket; each socket agrees with its list, those in busy only in part. */
    ghost predicate MembersOn(w: Which, busy: set<Asocket>)
      reads this`live, this`dying, this`nextId
      reads Nodes()`id, Nodes()`name, Nodes()`freed, Nodes()`closing, Nodes()`writeError, Nodes()`fde, Nodes()`queue, Nodes()`peer
    {
      if w == OnActive then
        && 0 < nextId <= MAX_ID
        && (forall s :: s in live ==> LiveSock(s, nextId, s in busy))
        && (forall s, u :: s in live && u in live && s.id == u.id ==> s == u)
      else forall s :: s in dying ==> DyingSock(s, s in busy)
    }

    ghost predicate Members(busy: set<Asocket>)
      reads this`live, this`dying, this`nextId
      reads Nodes()`id, Nodes()`name, Nodes()`freed, Nodes()`closing, Nodes()`writeError, Nodes()`fde, Nodes()`queue, Nodes()`peer
    {
      forall w: Which :: MembersOn(w, busy)
    }

    /** Peer pointers are symmetric; remote sockets hang off an active one. */
    ghost predicate PeersOf(k: Kind)
      reads this`live, this`remotes, (set s | s in live)`peer, remotes`peer, remotes`id
      reads (set s | s in live && s.peer != null :: s.peer)`peer, (set r | r in remotes && r.peer != null :: r.peer)`peer
    {
      if k == Remote then
        forall r :: r in remotes ==> r.kind == Remote && r.peer != null && r.peer in live && r.peer.peer == r && r.id != 0
      else
        forall s :: s in live && s.peer != null ==> s.peer != s && s.peer.peer == s && (s.peer in live || s.peer in remotes)
    }

    ghost predicate Peers()
      reads this`live, this`remotes, (set s | s in live)`peer, remotes`peer, remotes`id
      reads (set s | s in live && s.peer != null :: s.peer)`peer, (set r | r in remotes && r.peer != null :: r.peer)`peer
    {
      forall k: Kind :: PeersOf(k)
    }

    ghost predicate Valid()
      reads this, Nodes(), remotes, (set s | s in live && s.peer != null :: s.peer)`peer, (set r | r in remotes && r.peer != null :: r.peer)`peer
    {
      Chained() && Members({}) && Peers()
    }

    /** Valid, part by part. */
    lemma Parts()
      requires Valid()
      ensures ListOk(OnActive) && ListOk(OnClosing)
      ensures MembersOn(OnActive, {}) && MembersOn(OnClosing, {})
      ensures PeersOf(Local) && PeersOf(Remote)
    {}

    /** fdevent_set on the socket's fdevent. */
    method FdeventSet(s: Asocket, rd: bool, wr: bool)
      modifies s`fde
      ensures s.fde == SetFde(old(s.fde), rd, wr)
    {
      if s.fde.rd == rd && s.fde.wr == wr {
        return;
      }
      s.fde := s.fde.(rd := rd, wr := wr);
      s.fde := s.fde.(evR := s.fde.evR && rd, evW := s.fde.evW && wr);
    }

    /** remove_socket on an active socket. */
    method RemoveLive(s: Asocket)
      requires Chained() && s in live
      modifies this`live, s`id, active`next, active`prev, (set o | o in live)`next, (set o | o in live)`prev
      ensures Chained() && live == Minus(old(live), {s}) && s !in live
      ensures s.id == 0
    {
      ghost var k :| 0 <= k < |live| && live[k] == s;
      assert ListOk(OnActive) && ListOk(OnClosing);
      RemoveSocket(s, active, live, k);
      WithoutIsMinus(live, k);
      MinusMembers(live, {s});
      live := Without(live, k);
      RingStays(closing, dying);
      assert ListOk(OnActive) && ListOk(OnClosing);
    }

    /** remove_socket on a closing socket. */
    method RemoveDying(s: Asocket)
      requires Chained() && s in dying
      modifies this`dying, s`id, closing`next, closing`prev, (set o | o in dying)`next, (set o | o in dying)`prev
      ensures Chained() && dying == Minus(old(dying), {s}) && s !in dying
      ensures s.id == 0
    {
      ghost var k :| 0 <= k < |dying| && dying[k] == s;
      assert ListOk(OnActive) && ListOk(OnClosing);
      RemoveSocket(s, closing, dying, k);
      WithoutIsMinus(dying, k);
      MinusMembers(dying, {s});
      dying := Without(dying, k);
      RingStays(active, live);
      assert ListOk(OnActive) && ListOk(OnClosing);
    }

    /** insert_local_socket on the closing list. */
    method InsertDying(s: Asocket)
      requires Chained() && s !in live && s !in dying && s.kind == Local
      modifies this`dying, s`next, s`prev, closing`next, closing`prev, (set o | o in dying)`next, (set o | o in dying)`prev
      ensures Chained() && dying == old(dying) + [s]
    {
      assert ListOk(OnActive) && ListOk(OnClosing);
      InsertLocalSocket(s, closing, dying);
      dying := dying + [s];
    }

    /** insert_local_socket on the active list. */
    method InsertLive(s: Asocket)
      requires Chained() && s !in live && s !in dying && s.kind == Local
      modifies this`live, s`next, s`prev, active`next, active`prev, (set o | o in live)`next, (set o | o in live)`prev
      ensures Chained() && live == old(live) + [s]
    {
      assert ListOk(OnActive) && ListOk(OnClosing);
      InsertLocalSocket(s, active, live);
      live := live + [s];
    }

    /** remove_socket, whichever list s is on. */
    method Unlink(s: Asocket)
      requires Chained() && (if s.closing then s in dying else s in live)
      modifies this`live, this`dying, s`id
      modifies Nodes()`next, Nodes()`prev
      ensures Chained() && live == Minus(old(live), {s}) && dying == Minus(old(dying), {s}) && s.id == 0
    {
      OnOneList();
      if s.closing {
        MinusNone(live, {s});
        RemoveDying(s);
      } else {
        MinusNone(dying, {s});
        RemoveLive(s);
      }
    }

    /** fdevent_remove, and the loop of local_socket_destroy that disposes of unwritten data. */
    method Discard(s: Asocket)
      modifies s`fde, s`queue, s`freed
      ensures s.freed && s.fde == IDLE && s.queue == []
    {
      s.fde := IDLE;
      while s.queue != []
        modifies s`queue
        decreases |s.queue|
      {
        s.queue := s.queue[1..];
      }
      s.freed := true;
    }

    /** local_socket_destroy */
    method Destroy(s: Asocket)
      requires Chained() && (if s.closing then s in dying else s in live)
      modifies this`live, this`dying, s`id, s`fde, s`queue, s`freed
      modifies Nodes()`next, Nodes()`prev
      ensures Chained() && live == Minus(old(live), {s}) && dying == Minus(old(dying), {s})
      ensures s.freed && s.fde == IDLE && s.queue == [] && s.id == 0
    {
      Discard(s);
      Unlink(s);
    }

    /** From the active list to the closing list. */
    method Relist(s: Asocket)
      requires Chained() && s in live
      modifies this`live, this`dying, s`id
      modifies Nodes()`next, Nodes()`prev
      ensures Chained() && live == Minus(old(live), {s}) && dying == old(dying) + [s] && s.id == 0
    {
      OnOneList();
      RemoveLive(s);
      InsertDying(s);
    }

    /** The end of local_socket_close: s goes to the closing list, and stops listening for data. */
    method Linger(s: Asocket)
      requires Chained() && s in live && s.fde.wr
      modifies this`live, this`dying, s`id, s`fde, s`closing
      modifies Nodes()`next, Nodes()`prev
      ensures Chained() && live == Minus(old(live), {s}) && dying == Minus(old(dying), {s}) + [s]
      ensures s.id == 0 && s.closing && s.fde == SetFde(old(s.fde), false, true)
    {
      OnOneList();
      MinusNone(dying, {s});
      s.closing := true;
      FdeventSet(s, false, s.fde.wr);
      Relist(s);
      assert s.fde.wr;  // CHECK_EQ(FDE_WRITE, s->fde.state & FDE_WRITE)
    }

    /** s is where its closing flag says it is. */
    ghost predicate Placed(s: Asocket)
      reads this`live, this`dying, s`closing, s`freed
    {
      !s.freed && if s.closing then s in dying else s in live
    }

    /** The second half of local_socket_close, once s has no peer: free s, or put it on the closing list. */
    method FreeOrLinger(s: Asocket)
      requires Chained() && Placed(s) && s.peer == null
      requires Lingers(s) ==> s.fde.wr
      modifies this`live, this`dying, s`id, s`fde, s`queue, s`freed, s`closing
      modifies Nodes()`next, Nodes()`prev
      ensures Chained()
      ensures live == Minus(old(live), {s}) && dying == Minus(old(dying), {s}) + old(LingerSeq(s))
      ensures Closed(s)
    {
      if s.closing || s.writeError || s.queue == [] {
        Destroy(s);
        assert dying == Minus(old(dying), {s}) + [];
      } else {
        Linger(s);
      }
    }

    /** remote_socket_shutdown: tell the other side, while both ids are still known. */
    method RemoteShutdown(r: Asocket)
      modifies this`out
      ensures out == old(out) + [Packet(CLSE, if r.peer != null then r.peer.id else 0, r.id, [])]
    {
      var p := Packet(CLSE, 0, 0, []);
      if r.peer != null {
        p := p.(arg0 := r.peer.id);
      }
      out := out + [p.(arg1 := r.id)];
    }

    /** Disconnect from a remote peer: CLSE goes out, and remote_socket_close frees the peer. */
    method CloseRemotePeer(s: Asocket, p: Asocket)
      requires Chained() && s.peer == p && p.peer == s && p.kind == Remote
      modifies this`remotes, this`out, s`peer, p`peer
      ensures Chained() && out == old(out) + [Packet(CLSE, s.id, p.id, [])]
      ensures remotes == old(remotes) - {p} && s.peer == null && p.peer == null
    {
      RemoteShutdown(p);
      p.peer := null;
      remotes := remotes - {p};
      s.peer := null;
      forall w: Which ensures ListOk(w) {
        assert old(ListOk(w));
      }
    }

    /** Disconnect from a local peer: it has no peer left, so its own local_socket_close only finishes. */
    method CloseLocalPeer(s: Asocket, p: Asocket)
      requires Chained() && p in live && s.peer == p && p != s && !p.closing && !p.freed && (Lingers(p) ==> p.fde.wr)
      modifies this`live, this`dying, s`peer
      modifies p`id, p`fde, p`queue, p`freed, p`closing, p`peer
      modifies Nodes()`next, Nodes()`prev
      ensures Chained()
      ensures live == Minus(old(live), {p}) && dying == old(dying) + old(LingerSeq(p))
      ensures s.peer == null && Closed(p)
    {
      p.peer := null;
      OnOneList();
      MinusNone(dying, {p});
      FreeOrLinger(p);
      s.peer := null;
    }

    /** local_socket_close with a remote peer: CLSE goes out, remote_socket_close frees the peer, then s finishes. */
    method CloseWithRemote(s: Asocket, p: Asocket)
      requires Chained() && Placed(s) && (Lingers(s) ==> s.fde.wr)
      requires s.peer == p && p.peer == s && p.kind == Remote
      modifies this`live, this`dying, this`remotes, this`out, s`peer, p`peer
      modifies s`id, s`fde, s`queue, s`freed, s`closing
      modifies Nodes()`next, Nodes()`prev
      ensures Chained()
      ensures live == Minus(old(live), {s}) && dying == Minus(old(dying), {s}) + old(LingerSeq(s))
      ensures out == old(out) + [Packet(CLSE, old(s.id), p.id, [])] && remotes == old(remotes) - {p}
      ensures Closed(s) && p.peer == null
    {
      OnOneList();
      CloseRemotePeer(s, p);
      FreeOrLinger(s);
    }

    /** Removing s after its peer is removing both. */
    static lemma RemovedBoth(live0: seq<Asocket>, dying0: seq<Asocket>, lingering: seq<Asocket>, p: Asocket, s: Asocket)
      requires s !in lingering && s !in dying0
      ensures Minus(Minus(live0, {p}), {s}) == Minus(live0, {s, p})
      ensures Minus(dying0 + lingering, {s}) == dying0 + lingering
    {
      MinusTwice(live0, {p}, {s});
      assert {p} + {s} == {s, p};
      MinusNone(dying0 + lingering, {s});
    }

    /** local_socket_close with a local peer: the peer, which has no peer left, is closed first. */
    method CloseWithLocal(s: Asocket, p: Asocket)
      requires Chained() && s in live && p in live && s != p && s.peer == p
      requires !s.closing && !s.freed && (Lingers(s) ==> s.fde.wr)
      requires !p.closing && !p.freed && (Lingers(p) ==> p.fde.wr)
      modifies this`live, this`dying
      modifies p`id, p`fde, p`queue, p`freed, p`closing, p`peer
      modifies s`id, s`fde, s`queue, s`freed, s`closing, s`peer
      modifies Nodes()`next, Nodes()`prev
      ensures Chained()
      ensures live == Minus(old(live), {s, p})
      ensures dying == old(dying) + old(LingerSeq(p)) + old(LingerSeq(s))
      ensures Closed(s) && Closed(p)
    {
      OnOneList();
      RemovedBoth(live, dying, LingerSeq(p), p, s);
      MinusMembers(live, {p});
      ghost var dying0, after, last := dying, dying + LingerSeq(p), LingerSeq(s);
      CloseLocalPeer(s, p);
      assert dying == after && LingerSeq(s) == last;
      FreeOrLinger(s);
    }

    /** The peer of s points back, and can itself be closed. */
    ghost predicate PeerReady(s: Asocket)
      reads this`live, s`peer, Obj(s.peer)`peer, Obj(s.peer)`closing, Obj(s.peer)`writeError, Obj(s.peer)`queue, Obj(s.peer)`fde, Obj(s.peer)`freed
    {
      s.peer != null ==>
        && s.peer != s && s.peer.peer == s && s.peer.kind != Head && s in live
        && (s.peer.kind == Local ==> s.peer in live && !s.peer.closing && !s.peer.freed && (Lingers(s.peer) ==> s.peer.fde.wr))
    }

    /** What local_socket_close does to the sockets it touches. */
    method CloseWithPeer(s: Asocket)
      requires Chained() && PeerReady(s) && Placed(s) && (Lingers(s) ==> s.fde.wr)
      modifies this`live, this`dying, this`remotes, this`out
      modifies s`id, s`fde, s`queue, s`freed, s`closing, s`peer
      modifies LocalPeer(s)`id, LocalPeer(s)`fde, LocalPeer(s)`queue, LocalPeer(s)`freed, LocalPeer(s)`closing, Obj(s.peer)`peer
      modifies Nodes()`next, Nodes()`prev
      ensures Chained()
      ensures live == Minus(old(live), old(Going(s)))
      ensures dying == Minus(old(dying), {s}) + old(PeerLingerSeq(s)) + old(LingerSeq(s))
      ensures out == old(out) + old(CloseNotice(s)) && remotes == old(remotes) - old(RemotePeer(s))
      ensures Closed(s)
      ensures forall p :: p in old(LocalPeer(s)) ==> Closed(p)
    {
      if s.peer == null {
        assert Minus(dying, {s}) + [] == Minus(dying, {s}) && out + [] == out;
        FreeOrLinger(s);
      } else if s.peer.kind == Remote {
        assert Minus(dying, {s}) + [] == Minus(dying, {s});
        CloseWithRemote(s, s.peer);
      } else {
        assert out + [] == out;
        OnOneList();
        MinusNone(dying, {s});
        CloseWithLocal(s, s.peer);
      }
    }

    /** x is as it was, but for its links in the lists. */
    static twostate predicate Kept(x: Asocket)
      reads x
    {
      unchanged(x`id, x`freed, x`closing, x`fde, x`queue, x`peer)
    }

    /** After a close every socket left on a list still agrees with it. */
    twostate lemma MembersAfterClose(s: Asocket)
      requires old(Members({s}) && Placed(s)) && nextId == old(nextId)
      requires live == Minus(old(live), old(Going(s)))
      requires dying == Minus(old(dying), {s}) + old(PeerLingerSeq(s)) + old(LingerSeq(s))
      requires forall x: Asocket :: x in old(live) && x !in old(Going(s)) ==> unchanged(x`id, x`name, x`freed, x`closing, x`writeError, x`fde, x`queue, x`peer)
      requires forall x: Asocket :: x in old(dying) && x != s ==> unchanged(x`id, x`freed, x`closing, x`writeError, x`fde, x`queue, x`peer)
      requires forall x: Asocket :: x in old(PeerLingerSeq(s)) + old(LingerSeq(s)) ==> DyingSock(x, false)
      ensures Members({})
    {
      assert old(MembersOn(OnActive, {s})) && old(MembersOn(OnClosing, {s}));
      MinusMembers(old(live), old(Going(s)));
      MinusMembers(old(dying), {s});
      forall x | x in dying ensures DyingSock(x, false) {
        assert x in Minus(old(dying), {s}) || x in old(PeerLingerSeq(s)) + old(LingerSeq(s));
      }
      assert MembersOn(OnActive, {}) && MembersOn(OnClosing, {});
    }

    /** After a close peer pointers are still symmetric. */
    twostate lemma PeersAfterClose(s: Asocket)
      requires old(Peers()) && old(Chained()) && s.peer == null
      requires old(s.peer != null ==> PeerReady(s) && s in live && (s.peer.kind == Local || s.peer in remotes))
      requires live == Minus(old(live), old(Going(s))) && remotes == old(remotes) - old(RemotePeer(s))
      requires old(s.peer == null ==> forall r :: r in remotes ==> r.peer != s)
      requires forall x: Asocket :: x in old(live) && x !in old(Going(s)) ==> unchanged(x`peer)
      requires forall r: Asocket :: r in remotes ==> unchanged(r`id, r`peer)
      ensures Peers()
    {
      assert old(ListOk(OnActive)) && old(PeersOf(Local)) && old(PeersOf(Remote));
      MinusMembers(old(live), old(Going(s)));
      forall x | x in live && x.peer != null
        ensures x.peer != x && x.peer.peer == x && (x.peer in live || x.peer in remotes)
      {
        assert x in old(live) && x.peer == old(x.peer) && old(x.peer.peer) == x;
        assert old(s.peer) != x.peer && s != x.peer;
        if x.peer in old(live) {
          assert x.peer !in old(Going(s));
        } else {
          assert x.peer in remotes;
        }
      }
      assert PeersOf(Remote);
    }

    /** Every socket on a list may be closed: in particular the CHECK in Linger cannot fail. */
    lemma ReadyToClose(s: Asocket)
      requires Chained() && Members({s}) && Peers() && (s in live || s in dying)
      ensures PeerReady(s) && Placed(s) && (Lingers(s) ==> s.fde.wr)
    {
      OnOneList();
      assert MembersOn(OnActive, {s}) && MembersOn(OnClosing, {s}) && PeersOf(Local) && PeersOf(Remote);
      if s in live {
        assert LiveSock(s, nextId, true);
        if s.peer != null && s.peer.kind == Local {
          assert s.peer in live && LiveSock(s.peer, nextId, false);
        }
      } else {
        assert DyingSock(s, true);
      }
    }

    /** After a close the heap is in order again. */
    twostate lemma ValidAfterClose(s: Asocket)
      requires old(Chained() && Members({s}) && Peers() && PeerReady(s) && Placed(s)) && nextId == old(nextId)
      requires live == Minus(old(live), old(Going(s)))
      requires dying == Minus(old(dying), {s}) + old(PeerLingerSeq(s)) + old(LingerSeq(s))
      requires remotes == old(remotes) - old(RemotePeer(s)) && s.peer == null
      requires forall x: Asocket :: x in old(live) && x !in old(Going(s)) ==>
        unchanged(x`id, x`name, x`freed, x`closing, x`writeError, x`fde, x`queue, x`peer)
      requires forall x: Asocket :: x in old(dying) && x != s ==> unchanged(x`id, x`freed, x`closing, x`writeError, x`fde, x`queue, x`peer)
      requires forall r: Asocket :: r in remotes ==> unchanged(r`id, r`peer)
      requires forall x: Asocket :: x in old(PeerLingerSeq(s)) + old(LingerSeq(s)) ==> DyingSock(x, false)
      ensures Members({}) && Peers()
    {
      assert old(ListOk(OnActive)) && old(PeersOf(Local)) && old(PeersOf(Remote));
      MembersAfterClose(s);
      PeersAfterClose(s);
    }

    /** A socket in order may be closed as well as one that is not. */
    lemma MayClose(s: Asocket)
      requires Members({})
      ensures Members({s})
    {
      forall w: Which ensures MembersOn(w, {s}) {
        assert MembersOn(w, {});
      }
    }

    /** local_socket_close */
    method LocalSocketClose(s: Asocket)
      requires Chained() && Members({s}) && Peers() && (s in live || s in dying)
      modifies this`live, this`dying, this`remotes, this`out
      modifies s`id, s`fde, s`queue, s`freed, s`closing, s`peer
      modifies LocalPeer(s)`id, LocalPeer(s)`fde, LocalPeer(s)`queue, LocalPeer(s)`freed, LocalPeer(s)`closing, Obj(s.peer)`peer
      modifies Nodes()`next, Nodes()`prev
      ensures Valid()
      ensures live == Minus(old(live), old(Going(s)))
      ensures dying == Minus(old(dying), {s}) + old(PeerLingerSeq(s)) + old(LingerSeq(s))
      ensures out == old(out) + old(CloseNotice(s)) && remotes == old(remotes) - old(RemotePeer(s))
      ensures Closed(s) && forall p :: p in old(LocalPeer(s)) ==> Closed(p)
      ensures forall x: Asocket :: x in old(live) && x !in old(Going(s)) ==> Kept(x)
      ensures forall x: Asocket :: x in old(dying) && x != s ==> Kept(x)
    {
      OnOneList();
      ReadyToClose(s);
      assert PeersOf(Local) && PeersOf(Remote);
      CloseWithPeer(s);
      ValidAfterClose(s);
    }

    /** find_local_socket would accept s. */
    static predicate Matches(s: Asocket, localId: nat, peerId: nat)
      reads s`id, s`peer, Obj(s.peer)`id
    {
      s.id == localId && (peerId == 0 || (s.peer != null && s.peer.id == peerId))
    }

    /** find_local_socket: stopping at the first socket with this id misses nothing, as ids are distinct. */
    method FindLocalSocket(localId: nat, peerId: nat) returns (r: Asocket?)
      requires Valid()
      ensures Valid()
      ensures r != null ==> r in live && Matches(r, localId, peerId)
      ensures r == null ==> forall s :: s in live ==> !Matches(s, localId, peerId)
    {
      assert ListOk(OnActive) && MembersOn(OnActive, {});
      r := null;
      var s := active.next;
      ghost var k := 0;
      while s != active
        invariant 0 <= k <= |live| && s == At(active, live, k) && r == null
        invariant forall i :: 0 <= i < k ==> live[i].id != localId
        decreases |live| - k
      {
        assert LinkedAt(active, live, k) && s == live[k];
        if s.id != localId {
          s, k := s.next, k + 1;
          continue;
        }
        if peerId == 0 || (s.peer != null && s.peer.id == peerId) {
          r := s;
        }
        break;
      }
    }

    /** A new socket at the end of the active list is as good as the others. */
    twostate lemma ValidAfterInstall(new s: Asocket)
      requires old(Members({}) && Peers() && nextId < MAX_ID) && nextId == old(nextId) + 1
      requires live == old(live) + [s] && dying == old(dying) && remotes == old(remotes) && fresh(s)
      requires s.id == s.name == old(nextId) && s.Own() == NEW_SOCK && s.peer == null
      requires forall x: Asocket :: x in old(live) || x in old(dying) || x in old(remotes) ==>
        unchanged(x`id, x`name, x`freed, x`closing, x`writeError, x`fde, x`queue, x`peer)
      ensures Members({}) && Peers()
    {
      assert old(MembersOn(OnActive, {})) && old(MembersOn(OnClosing, {})) && old(PeersOf(Local)) && old(PeersOf(Remote));
      assert LiveSock(s, nextId, false);
      forall x | x in live ensures LiveSock(x, nextId, false) {
        assert x != s ==> old(LiveSock(x, nextId, false));
      }
      assert MembersOn(OnActive, {}) && MembersOn(OnClosing, {}) && PeersOf(Local) && PeersOf(Remote);
    }

    /** create_local_socket with install_local_socket; no socket means the counter wrapped to 0 and adb aborts. */
    method CreateLocalSocket() returns (s: Asocket?)
      requires Valid()
      modifies this`live, this`nextId, active`next, active`prev, (set o | o in live)`next, (set o | o in live)`prev
      ensures (s == null) <==> old(nextId) == MAX_ID
      ensures s != null ==> Valid() && fresh(s) && nextId == old(nextId) + 1 && live == old(live) + [s]
      ensures s != null ==> s.id == s.name == old(nextId) && s.kind == Local && s.transport == 0 && s.Own() == NEW_SOCK && s.peer == null
    {
      assert MembersOn(OnActive, {});
      s := new Asocket(Local, nextId, 0);
      if nextId + 1 == 0x1_0000_0000 {
        return null;
      }
      nextId := nextId + 1;
      forall w: Which ensures ListOk(w) {
        assert old(ListOk(w));
      }
      InsertLive(s);
      ValidAfterInstall(s);
    }

    /** s is on transport t, or has its peer there. */
    static predicate OnTransport(s: Asocket, t: nat)
      reads s`transport, s`peer, Obj(s.peer)`transport
    {
      s.transport == t || (s.peer != null && s.peer.transport == t)
    }

    /** The sockets close_all_sockets(t) is after. */
    ghost function Related(t: nat): set<Asocket>
      reads this`live, live
      reads (set s | s in live && s.peer != null :: s.peer)`transport
    {
      set s | s in live && OnTransport(s, t)
    }

    /** A local peer of a socket on t is on t itself. */
    lemma GoingIsRelated(s: Asocket, t: nat)
      requires Chained() && Peers() && s in live && OnTransport(s, t)
      ensures forall x :: x in Going(s) ==> x in live && OnTransport(x, t) && (x != s ==> CloseNotice(x) == [])
    {
      OnOneList();
      assert PeersOf(Local) && PeersOf(Remote);
    }

    /** The lists after a close: nothing new on the active one, nothing lost from the closing one. */
    twostate lemma ListsAfterClose(s: Asocket)
      requires old(Chained()) && forall x :: x in old(Going(s)) ==> x in old(live)
      requires live == Minus(old(live), old(Going(s)))
      requires dying == Minus(old(dying), {s}) + old(PeerLingerSeq(s)) + old(LingerSeq(s))
      ensures |live| < |old(live)| && forall x :: x in live ==> x in old(live) && x !in old(Going(s))
      ensures forall x :: x in old(dying) ==> x in dying && x !in old(Going(s))
      ensures Nodes() <= old(Nodes())
    {
      assert old(ListOk(OnActive));
      MinusMembers(old(live), old(Going(s)));
      MinusNone(old(dying), {s});
      var k :| 0 <= k < |old(live)| && old(live)[k] == s;
      MinusFewer(old(live), old(Going(s)), k);
    }

    /** doomed tells, for each active socket, whether it is on t. */
    ghost predicate Doomed(doomed: set<Asocket>, t: nat)
      reads this`live, live, (set s | s in live && s.peer != null :: s.peer)`transport
    {
      forall x :: x in live ==> (x in doomed <==> OnTransport(x, t))
    }

    /** A closed socket with something left to write is on the closing list; any other is freed. */
    twostate predicate Departed(x: Asocket)
      reads this`dying, x
    {
      Closed(x) && (old(Lingers(x)) ==> x in dying)
    }

    /** The CLSE packets that closing the sockets on t sends. */
    ghost function NoticesOn(t: nat): map<Asocket, seq<Packet>>
      reads this`live, live
      reads (set s | s in live && s.peer != null :: s.peer)`transport, (set s | s in live && s.peer != null :: s.peer)`id
    {
      map s | s in live && OnTransport(s, t) :: CloseNotice(s)
    }

    /** Those of the sockets of q, in this order. */
    static ghost function Notices(q: seq<Asocket>, note: map<Asocket, seq<Packet>>): seq<Packet> {
      if q == [] then [] else (if q[0] in note then note[q[0]] else []) + Notices(q[1..], note)
    }

    /** Sockets with nothing to say may leave unnoticed. */
    static lemma {:induction false} SilentMinus(q: seq<Asocket>, gone: set<Asocket>, note: map<Asocket, seq<Packet>>)
      requires forall x :: x in q && x in gone && x in note ==> note[x] == []
      ensures Notices(Minus(q, gone), note) == Notices(q, note)
    {
      if q != [] {
        SilentMinus(q[1..], gone, note);
        assert [] + Notices(q[1..], note) == Notices(q[1..], note);
        assert q[0] in q;
        if q[0] in gone {
          assert Minus(q, gone) == Minus(q[1..], gone);
          assert Notices(q, note) == [] + Notices(q[1..], note);
        } else {
          var m := Minus(q[1..], gone);
          assert Minus(q, gone) == [q[0]] + m && ([q[0]] + m)[1..] == m;
        }
      }
    }

    /** The first socket on t leaves, with others that have nothing to say. */
    static lemma {:induction false} FirstNotice(q: seq<Asocket>, k: nat, gone: set<Asocket>, note: map<Asocket, seq<Packet>>)
      requires k < |q| && NoDuplicates(q) && q[k] in gone && q[k] in note
      requires forall i :: 0 <= i < k ==> q[i] !in note
      requires forall x :: x in gone ==> x in note && (x == q[k] || note[x] == [])
      ensures Notices(q, note) == note[q[k]] + Notices(Minus(q, gone), note)
    {
      var r := q[1..];
      assert NoDuplicates(r);
      if k == 0 {
        forall x | x in r && x in gone && x in note ensures note[x] == [] {
          var i :| 0 <= i < |r| && r[i] == x;
          assert q[i + 1] == x && q[0] != x;
        }
        SilentMinus(r, gone, note);
        assert Minus(q, gone) == Minus(r, gone) && q[0] in note;
        assert Notices(q, note) == note[q[0]] + Notices(r, note);
      } else {
        assert r[k - 1] == q[k] && forall i :: 0 <= i < k - 1 ==> r[i] == q[i + 1];
        FirstNotice(r, k - 1, gone, note);
        var m := Minus(r, gone);
        assert Minus(q, gone) == [q[0]] + m && ([q[0]] + m)[1..] == m;
        assert [] + (note[q[k]] + Notices(m, note)) == note[q[k]] + ([] + Notices(m, note));
      }
    }

    static lemma {:induction false} NoNotices(q: seq<Asocket>, note: map<Asocket, seq<Packet>>)
      requires forall x :: x in q ==> x !in note
      ensures Notices(q, note) == []
    {
      if q != [] { NoNotices(q[1..], note); }
    }

    /** local_socket_close on an active socket: what goes has departed, and what stays would still send the same packet when closed. */
    method CloseActive(s: Asocket)
      requires Valid() && s in live
      modifies this`live, this`dying, this`remotes, this`out
      modifies Nodes()`id, Nodes()`fde, Nodes()`queue, Nodes()`freed, Nodes()`closing, Nodes()`peer, remotes`peer
      modifies Nodes()`next, Nodes()`prev
      ensures Valid() && live == Minus(old(live), old(Going(s))) && remotes <= old(remotes)
      ensures dying == Minus(old(dying), {s}) + old(PeerLingerSeq(s)) + old(LingerSeq(s))
      ensures out == old(out) + old(CloseNotice(s))
      ensures forall x: Asocket :: x in old(Going(s)) ==> Departed(x)
      ensures forall x: Asocket :: x in old(live) && x !in old(Going(s)) ==> Kept(x)
      ensures forall x: Asocket :: x in old(dying) && x != s ==> Kept(x)
      ensures forall x: Asocket :: x in old(live) && x !in old(Going(s)) ==> CloseNotice(x) == old(CloseNotice(x))
    {
      OnOneList();
      MayClose(s);
      assert PeersOf(Local) && PeersOf(Remote);
      LocalSocketClose(s);
    }

    /** Closing a socket on t takes sockets on t off the list, and leaves every other socket alone. */
    method CloseOn(s: Asocket, t: nat, ghost doomed: set<Asocket>) returns (ghost gone: set<Asocket>)
      requires Valid() && s in live && OnTransport(s, t) && Doomed(doomed, t)
      modifies this`live, this`dying, this`remotes, this`out
      modifies Nodes()`id, Nodes()`fde, Nodes()`queue, Nodes()`freed, Nodes()`closing, Nodes()`peer, remotes`peer
      modifies Nodes()`next, Nodes()`prev
      ensures Valid() && |live| < |old(live)| && Doomed(doomed, t)
      ensures gone <= doomed && live == Minus(old(live), gone)
      ensures Nodes() <= old(Nodes()) && remotes <= old(remotes)
      ensures forall x: Asocket :: x in live ==> x in old(live) && Kept(x)
      ensures forall x: Asocket :: x in old(dying) ==> x in dying && Kept(x)
      ensures s in gone && forall x :: x in gone ==> x in old(live) && Departed(x) && (x != s ==> old(CloseNotice(x)) == [])
      ensures out == old(out) + old(CloseNotice(s))
      ensures forall x :: x in live ==> CloseNotice(x) == old(CloseNotice(x))
    {
      GoingIsRelated(s, t);
      OnOneList();
      gone := Going(s);
      CloseActive(s);
      ListsAfterClose(s);
    }

    /** note has, for the active sockets on t, the packets their closing would send now. */
    ghost predicate Noted(note: map<Asocket, seq<Packet>>, doomed: set<Asocket>)
      reads this`live, live, (set s | s in live && s.peer != null :: s.peer)`id
    {
      forall x :: x in live ==> (x in note <==> x in doomed) && (x in note ==> note[x] == CloseNotice(x))
    }

    /** The walk of close_all_sockets up to its goto: close the first socket on t, if there is one. */
    method CloseFirst(t: nat, ghost doomed: set<Asocket>, ghost note: map<Asocket, seq<Packet>>) returns (restart: bool, ghost gone: set<Asocket>)
      requires Valid() && Doomed(doomed, t) && Noted(note, doomed)
      modifies this`live, this`dying, this`remotes, this`out
      modifies Nodes()`id, Nodes()`fde, Nodes()`queue, Nodes()`freed, Nodes()`closing, Nodes()`peer, remotes`peer
      modifies Nodes()`next, Nodes()`prev
      ensures Valid() && Doomed(doomed, t) && Noted(note, doomed)
      ensures if restart then |live| < |old(live)| else live == old(live) && forall x :: x in live ==> x !in doomed
      ensures gone <= doomed && live == Minus(old(live), gone)
      ensures Nodes() <= old(Nodes()) && remotes <= old(remotes)
      ensures forall x: Asocket :: x in live ==> x in old(live) && Kept(x)
      ensures forall x: Asocket :: x in old(dying) ==> x in dying && Kept(x)
      ensures forall x: Asocket :: x in gone ==> x in old(live) && Departed(x)
      ensures out + Notices(live, note) == old(out) + Notices(old(live), note)
    {
      assert ListOk(OnActive);
      var s := active.next;
      ghost var k := 0;
      while s != active
        invariant 0 <= k <= |live| && s == At(active, live, k)
        invariant forall i :: 0 <= i < k ==> live[i] !in doomed
        decreases |live| - k
      {
        assert LinkedAt(active, live, k) && s == live[k];
        if s.transport == t || (s.peer != null && s.peer.transport == t) {
          ghost var before, sent := live, out;
          gone := CloseOn(s, t, doomed);
          FirstNotice(before, k, gone, note);
          ConcatAssoc(sent, note[s], Notices(live, note));
          return true, gone;
        }
        s, k := s.next, k + 1;
      }
      restart, gone := false, {};
      MinusNone(live, {});
    }

    /** What the closing of an active socket has to go by. */
    static ghost function Snapshot(x: Asocket): Before
      reads x
    {
      Before(Lingers(x), x.id, x.freed, x.closing, x.fde, x.queue, x.peer)
    }

    ghost predicate Recorded(was: map<Asocket, Before>)
      reads this`live, live
    {
      forall x :: x in live ==> x in was && was[x] == Snapshot(x) && !x.freed && !x.closing
    }

    /** The sockets of stay are on the closing list, as recorded. */
    ghost predicate Staying(stay: seq<Asocket>, was: map<Asocket, Before>)
      reads this`dying, stay
    {
      forall x :: x in stay ==> x in dying && x in was && was[x] == Snapshot(x)
    }

    /** x is closed: it lingers with its backlog, or is freed with everything it held. */
    ghost predicate Left(x: Asocket, b: Before)
      reads this`live, this`dying, x
    {
      && x !in live && x.kind == Local && x.peer == null && x.id == 0
      && (if b.lingers then x in dying && x.closing && !x.freed && x.queue == b.queue && x.fde == SetFde(b.fde, false, true)
          else x !in dying && x.freed && !x.closing && x.queue == [] && x.fde == IDLE)
    }

    ghost predicate AllLeft(gone: set<Asocket>, was: map<Asocket, Before>)
      reads this`live, this`dying, gone
    {
      forall x :: x in gone ==> x in was && Left(x, was[x])
    }

    /** The record of the other active sockets stays true. */
    twostate lemma RecordStays(new was: map<Asocket, Before>)
      requires old(allocated(was))
      requires old(Recorded(was)) && forall x: Asocket :: x in live ==> x in old(live) && Kept(x) && unchanged(x`writeError)
      ensures Recorded(was)
    {}

    twostate lemma StayingStays(new stay: seq<Asocket>, new was: map<Asocket, Before>)
      requires old(allocated(stay)) && old(allocated(was))
      requires old(Staying(stay, was)) && forall x: Asocket :: x in old(dying) ==> x in dying && Kept(x) && unchanged(x`writeError)
      ensures Staying(stay, was)
    {}

    /** What had left has left still. */
    twostate lemma LeftStays(new left: set<Asocket>, new was: map<Asocket, Before>)
      requires old(allocated(left)) && old(allocated(was))
      requires old(AllLeft(left, was)) && forall x :: x in live ==> x in old(live)
      requires forall x: Asocket :: x in old(dying) ==> x in dying && Kept(x)
      requires forall x: Asocket :: x in left && x !in old(dying) ==> x !in dying && Kept(x)
      ensures AllLeft(left, was)
    {
      forall x | x in left ensures x in was && Left(x, was[x]) {
        assert old(Left(x, was[x]));
      }
    }

    /** What has departed has left as the record says. */
    twostate lemma DepartedLeft(new gone: set<Asocket>, new was: map<Asocket, Before>)
      requires old(allocated(gone)) && old(allocated(was))
      requires old(Recorded(was)) && MembersOn(OnClosing, {})
      requires forall x: Asocket :: x in gone ==> x in old(live) && x !in live && x.kind == Local && Departed(x)
      ensures AllLeft(gone, was)
    {
      forall x | x in gone ensures x in was && Left(x, was[x]) {
        assert Departed(x);
      }
    }

    /** One turn of close_all_sockets beside sockets that are on no list. */
    method CloseBeside(t: nat, ghost doomed: set<Asocket>, ghost note: map<Asocket, seq<Packet>>, ghost left: set<Asocket>)
      returns (restart: bool, ghost gone: set<Asocket>)
      requires Valid() && Doomed(doomed, t) && Noted(note, doomed)
      requires forall x :: x in left ==> x !in live && x.kind == Local && (x !in dying ==> x.freed)
      modifies this`live, this`dying, this`remotes, this`out
      modifies Nodes()`id, Nodes()`fde, Nodes()`queue, Nodes()`freed, Nodes()`closing, Nodes()`peer, remotes`peer
      modifies Nodes()`next, Nodes()`prev
      ensures Valid() && Doomed(doomed, t) && Noted(note, doomed)
      ensures if restart then |live| < |old(live)| else live == old(live) && forall x :: x in live ==> x !in doomed
      ensures gone <= doomed && live == Minus(old(live), gone)
      ensures Nodes() <= old(Nodes()) && remotes <= old(remotes)
      ensures forall x: Asocket :: x in live ==> x in old(live) && Kept(x)
      ensures forall x: Asocket :: x in old(dying) ==> x in dying && Kept(x)
      ensures out + Notices(live, note) == old(out) + Notices(old(live), note)
      ensures forall x: Asocket :: x in gone ==> x in old(live) && x !in live && x.kind == Local && Departed(x)
      ensures forall x: Asocket :: x in left && x !in old(dying) ==> x !in dying && Kept(x)
    {
      OnOneList();
      assert ListOk(OnActive) && PeersOf(Remote);
      assert forall x :: x in left && x !in dying ==> x !in Nodes() && x !in remotes;
      restart, gone := CloseFirst(t, doomed, note);
      MinusMembers(old(live), gone);
      assert MembersOn(OnClosing, {});
    }

    /** One turn of close_all_sockets, with the record of what has left and of what stays. */
    method CloseNext(t: nat, ghost doomed: set<Asocket>, ghost note: map<Asocket, seq<Packet>>,
                     ghost left: set<Asocket>, ghost stay: seq<Asocket>, ghost was: map<Asocket, Before>) returns (restart: bool, ghost gone: set<Asocket>)
      requires Valid() && Doomed(doomed, t) && Noted(note, doomed) && Recorded(was) && AllLeft(left, was) && Staying(stay, was)
      modifies this`live, this`dying, this`remotes, this`out
      modifies Nodes()`id, Nodes()`fde, Nodes()`queue, Nodes()`freed, Nodes()`closing, Nodes()`peer, remotes`peer
      modifies Nodes()`next, Nodes()`prev
      ensures Valid() && Doomed(doomed, t) && Noted(note, doomed)
      ensures if restart then |live| < |old(live)| else live == old(live) && forall x :: x in live ==> x !in doomed
      ensures gone <= doomed && live == Minus(old(live), gone)
      ensures Nodes() <= old(Nodes()) && remotes <= old(remotes)
      ensures out + Notices(live, note) == old(out) + Notices(old(live), note)
      ensures Recorded(was) && AllLeft(left + gone, was) && Staying(stay, was)
    {
      assert forall x :: x in left ==> Left(x, was[x]);
      restart, gone := CloseBeside(t, doomed, note, left);
      assert MembersOn(OnClosing, {});
      RecordStays(was);
      StayingStays(stay, was);
      LeftStays(left, was);
      DepartedLeft(gone, was);
    }

    /** When no socket on t is left, those on t are the ones that have gone. */
    static lemma WalkOver(live0: seq<Asocket>, gone: set<Asocket>, doomed: set<Asocket>)
      requires gone <= doomed && (forall x :: x in doomed ==> x in live0) && forall x :: x in Minus(live0, gone) ==> x !in doomed
      ensures gone == doomed
    {
      MinusMembers(live0, gone);
    }

    /** The loop of close_all_sockets: start over after every close, since it rewrote the list. */
    method CloseWalk(t: nat, ghost doomed: set<Asocket>, ghost note: map<Asocket, seq<Packet>>,
                     ghost stay: seq<Asocket>, ghost was: map<Asocket, Before>) returns (ghost gone: set<Asocket>)
      requires Valid() && Doomed(doomed, t) && Noted(note, doomed) && Recorded(was) && Staying(stay, was)
      modifies this`live, this`dying, this`remotes, this`out
      modifies Nodes()`id, Nodes()`fde, Nodes()`queue, Nodes()`freed, Nodes()`closing, Nodes()`peer, remotes`peer
      modifies Nodes()`next, Nodes()`prev
      ensures Valid() && Doomed(doomed, t) && Noted(note, doomed) && Recorded(was) && Staying(stay, was)
      ensures gone <= doomed && live == Minus(old(live), gone) && forall x :: x in live ==> x !in doomed
      ensures AllLeft(gone, was)
      ensures out + Notices(live, note) == old(out) + Notices(old(live), note)
    {
      gone := {};
      MinusNone(live, {});
      var restart := true;
      while restart
        invariant Valid() && Doomed(doomed, t) && Noted(note, doomed) && Recorded(was) && Staying(stay, was)
        invariant gone <= doomed && live == Minus(old(live), gone)
        invariant !restart ==> forall x :: x in live ==> x !in doomed
        invariant Nodes() <= old(Nodes()) && remotes <= old(remotes)
        invariant AllLeft(gone, was)
        invariant out + Notices(live, note) == old(out) + Notices(old(live), note)
        decreases |live|, restart
      {
        ghost var now;
        restart, now := CloseNext(t, doomed, note, gone, stay, was);
        MinusTwice(old(live), gone, now);
        gone := gone + now;
      }
    }

    /** What is as recorded then and now is as it was. */
    twostate lemma AsRecorded(new stay: seq<Asocket>, new was: map<Asocket, Before>)
      requires old(allocated(stay)) && old(allocated(was)) && forall x :: x in live ==> x in old(live)
      requires old(Recorded(was) && Staying(stay, was)) && Recorded(was) && Staying(stay, was)
      ensures forall x: Asocket :: x in live || x in stay ==> Kept(x)
    {
      forall x: Asocket | x in live || x in stay ensures Kept(x) {
        assert was[x] == Snapshot(x) && was[x] == old(Snapshot(x));
      }
    }

    /** The walk with its record, in the terms of Related. */
    method CloseRelated(t: nat)
      requires Valid()
      modifies this`live, this`dying, this`remotes, this`out
      modifies Nodes()`id, Nodes()`fde, Nodes()`queue, Nodes()`freed, Nodes()`closing, Nodes()`peer, remotes`peer
      modifies Nodes()`next, Nodes()`prev
      ensures Valid()
      ensures live == Minus(old(live), old(Related(t)))
      ensures forall x: Asocket :: x in live ==> !OnTransport(x, t) && x in old(live) && Kept(x)
      ensures forall x: Asocket :: x in old(dying) ==> x in dying && Kept(x)
      ensures forall x: Asocket :: x in old(Related(t)) ==> Left(x, old(Snapshot(x)))
      ensures out == old(out) + Notices(old(live), old(NoticesOn(t)))
    {
      ghost var doomed, note := Related(t), NoticesOn(t);
      ghost var was := map x | x in live || x in dying :: Snapshot(x);
      assert MembersOn(OnActive, {});
      ghost var stay := dying;
      ghost var gone := CloseWalk(t, doomed, note, stay, was);
      MinusMembers(old(live), gone);
      AsRecorded(stay, was);
      WalkOver(old(live), gone, doomed);
      NoNotices(live, note);
    }

    /**
     close_all_sockets. The sockets on t are freed, or linger to write their backlog, and one CLSE goes out for
     each that had a remote peer.
     */
    method CloseAllSockets(t: nat)
      requires Valid()
      modifies this`live, this`dying, this`remotes, this`out
      modifies Nodes()`id, Nodes()`fde, Nodes()`queue, Nodes()`freed, Nodes()`closing, Nodes()`peer, remotes`peer
      modifies Nodes()`next, Nodes()`prev
      ensures Valid()
      ensures live == Minus(old(live), old(Related(t)))
      ensures forall x: Asocket :: x in live ==> !OnTransport(x, t) && x in old(live) && Kept(x)
      ensures forall x :: x in live ==> x.transport != t && (x.peer == null || x.peer.transport != t)
      ensures forall x :: x in old(live) && x !in live ==> x.transport == t || (old(x.peer) != null && old(x.peer).transport == t)
      ensures forall x: Asocket :: x in old(dying) ==> x in dying && Kept(x)
      ensures forall x: Asocket :: x in old(Related(t)) ==> Left(x, old(Snapshot(x)))
      ensures out == old(out) + Notices(old(live), old(NoticesOn(t)))
    {
      MinusMembers(live, Related(t));
      CloseRelated(t);
    }
  }
}
