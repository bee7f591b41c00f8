/**
 The event loop (src/fdevent.cpp): the poll nodes by descriptor, the pending list, and the callbacks
 that change both while the list is drained.
 */
module EventLoop {
  import opened Lists

  /** FDE_READ, FDE_WRITE, FDE_ERROR and FDE_DONT_CLOSE. */
  datatype Bits = Bits(rd: bool, wr: bool, err: bool, keep: bool) {
    function And(b: Bits): Bits { Bits(rd && b.rd, wr && b.wr, err && b.err, keep && b.keep) }
    function Or(b: Bits): Bits { Bits(rd || b.rd, wr || b.wr, err || b.err, keep || b.keep) }
    function Not(): Bits { Bits(!rd, !wr, !err, !keep) }
    predicate Within(b: Bits) { (rd ==> b.rd) && (wr ==> b.wr) && (err ==> b.err) && (keep ==> b.keep) }
  }

  const NONE: Bits := Bits(false, false, false, false)
  const READ: Bits := Bits(true, false, false, false)
  const WRITE: Bits := Bits(false, true, false, false)

  /** Within is inclusion of events; And, Or and Not are meet, join and complement for it. */
  lemma BitOps(a: Bits, b: Bits)
    ensures forall c: Bits :: c.Within(a.And(b)) <==> c.Within(a) && c.Within(b)
    ensures forall c: Bits :: a.Or(b).Within(c) <==> a.Within(c) && b.Within(c)
    ensures forall c: Bits :: c.Within(a.Not()) <==> c.And(a) == NONE
    ensures a.Within(b) && b.Within(a) ==> a == b
    ensures (READ.Within(a) <==> a.rd) && (WRITE.Within(a) <==> a.wr)
    ensures READ.Or(WRITE).Or(Bits(false, false, true, false)).Or(Bits(false, false, false, true)).Not() == NONE
  {}

  /** revents of one descriptor: POLLIN, POLLOUT, and POLLERR, POLLHUP, POLLNVAL or POLLRDHUP. */
  datatype Revents = Revents(pollIn: bool, pollOut: bool, trouble: bool)

  /** Trouble fakes a read, so that the next read finds out. */
  function EventsOf(r: Revents): Bits {
    Bits(r.pollIn || r.trouble, r.pollOut, r.trouble, false)
  }

  class Fdevent {
    const fd: int
    var forceEof: bool
    var active: bool       // FDE_ACTIVE
    var pending: bool      // FDE_PENDING
    var mask: Bits         // the event bits of state
    var events: Bits

    constructor (fd: int)
      ensures this.fd == fd && active && !pending && !forceEof && mask == NONE && events == NONE
    {
      this.fd, forceEof, active, pending, mask, events := fd, false, true, false, NONE, NONE;
    }
  }

  datatype PollNode = PollNode(fde: Fdevent, pollIn: bool, pollOut: bool)

  /** A callback run by the loop: for which fdevent and events, its force_eof, and whether the subprocess handler called it. */
  datatype Call = Call(fde: Fdevent, events: Bits, eof: bool, forced: bool)

  /**
   What a callback does to the loop, one act after the other. Fdevents are named by descriptor.
   Exit is the subprocess handler: descriptor fd may have unread data left, or its own callback runs at once.
   */
  datatype Act =
    | Install(fd: int)
    | Remove(fd: int)
    | Set(fd: int, bits: Bits)
    | Exit(fd: int, unread: nat, inner: seq<Act>)

  /** No callback installs an fdevent, which aborts where the descriptor has one. */
  predicate NoInstall(acts: seq<Act>) {
    acts == [] || (InstallsNone(acts[0]) && NoInstall(acts[1..]))
  }

  predicate InstallsNone(a: Act) {
    !a.Install? && (a.Exit? ==> NoInstall(a.inner))
  }

  /** No callback removes the fdevent of descriptor fd, and each that changes its mask leaves the events of want in it. */
  predicate Spares(acts: seq<Act>, fd: int, want: Bits) {
    acts == [] || (SparesOne(acts[0], fd, want) && Spares(acts[1..], fd, want))
  }

  predicate SparesOne(a: Act, fd: int, want: Bits) {
    match a
    case Install(_) => true
    case Remove(x) => x != fd
    case Set(x, bits) => x == fd ==> want.Within(bits)
    case Exit(_, _, inner) => Spares(inner, fd, want)
  }

  /** acts take the fdevent installed for fd away. */
  predicate Removes(acts: seq<Act>, fd: int) {
    acts != [] && (acts[0] == Remove(fd) || Removes(acts[1..], fd))
  }

  predicate SparesAll(scripts: seq<seq<Act>>, fd: int, want: Bits) {
    forall k :: 0 <= k < |scripts| ==> Spares(scripts[k], fd, want)
  }

  predicate NoInstalls(scripts: seq<seq<Act>>) {
    forall k :: 0 <= k < |scripts| ==> NoInstall(scripts[k])
  }

  predicate HandsOffAll(scripts: seq<seq<Act>>) {
    forall k :: 0 <= k < |scripts| ==> HandsOff(scripts[k])
  }

  /** No callback removes an fdevent or changes what one is interested in. */
  predicate HandsOff(acts: seq<Act>) {
    acts == [] || (LeavesBe(acts[0]) && HandsOff(acts[1..]))
  }

  predicate LeavesBe(a: Act) {
    !a.Remove? && !a.Set? && (a.Exit? ==> HandsOff(a.inner))
  }

  class Loop {
    var nodes: map<int, PollNode>     // g_poll_node_map
    var pending: seq<Fdevent>         // g_pending_list
    var closed: seq<int>              // descriptors handed to adb_close
    ghost var calls: seq<Call>
    ghost var dropped: set<Fdevent>   // taken off the list uncalled, by removal or masking, since they were last put on it

    constructor ()
      ensures Valid() && nodes == map[] && pending == [] && closed == [] && calls == []
    {
      nodes, pending, closed, calls, dropped := map[], [], [], [], {};
    }

    /** The installed fdevents. */
    ghost function Fdes(): set<Fdevent>
      reads this`nodes
    {
      set fd | fd in nodes :: nodes[fd].fde
    }

    /**
     An installed fdevent is active, its poll mask agrees with its state, and it is marked pending
     exactly when it is on the list, which is exactly when it has events.
     */
    ghost predicate NodeOk(fd: int)
      requires fd in nodes
      reads this`nodes, this`pending, nodes[fd].fde
    {
      var n := nodes[fd];
      && n.fde.fd == fd && n.fde.active
      && n.pollIn == n.fde.mask.rd && n.pollOut == n.fde.mask.wr
      && (n.fde.pending <==> n.fde in pending) && (n.fde.pending <==> n.fde.events != NONE)
    }

    predicate Installed(e: Fdevent)
      reads this`nodes
    {
      e.fd in nodes && nodes[e.fd].fde == e
    }

    /** e is installed, or is not marked in any way. */
    ghost predicate Settled(e: Fdevent)
      reads this`nodes, e
    {
      (e.active <==> Installed(e)) && (!e.active ==> !e.pending && e.events == NONE)
    }

    ghost predicate Valid()
      reads this, Fdes()
    {
      && (forall fd :: fd in nodes ==> NodeOk(fd))
      && (forall e :: e in pending ==> Installed(e) && e !in dropped)
      && NoDuplicates(pending)
    }

    /** fdevent_install on a new fdevent; false when the descriptor is already installed, where adb aborts. */
    method FdeventInstall(fd: int) returns (ok: bool, e: Fdevent)
      requires Valid()
      modifies this`nodes
      ensures ok == (fd >= 0 && fd !in old(nodes)) && fresh(e)
      ensures nodes == if ok then old(nodes)[fd := PollNode(e, false, false)] else old(nodes)
      ensures ok ==> Valid()
      ensures e.mask == NONE && e.events == NONE && !e.pending
    {
      e := new Fdevent(fd);
      if fd < 0 || fd in nodes {
        return false, e;
      }
      nodes := nodes[fd := PollNode(e, false, false)];
      ok := true;
    }

    method Unlist(e: Fdevent)
      requires NoDuplicates(pending) && (e.pending <==> e in pending)
      modifies this`pending, this`dropped
      ensures pending == Dropped(old(pending), e) && NoDuplicates(pending)
      ensures dropped == if e.pending then old(dropped) + {e} else old(dropped)
    {
      if e.pending {
        pending := Dropped(pending, e);
        dropped := dropped + {e};
      } else {
        DroppedAbsent(pending, e);
      }
    }

    /** fdevent_remove */
    method FdeventRemove(e: Fdevent)
      requires Valid() && Settled(e)
      modifies this`nodes, this`pending, this`closed, this`dropped, e`active, e`pending, e`mask, e`events
      ensures Valid() && Settled(e) && !e.active
      ensures dropped == if old(e.active && e.pending) then old(dropped) + {e} else old(dropped)
      ensures nodes == if old(e.active) then old(nodes) - {e.fd} else old(nodes)
      ensures pending == if old(e.active) then Dropped(old(pending), e) else old(pending)
      ensures closed == if old(e.active) && !old(e.mask.keep) then old(closed) + [e.fd] else old(closed)
    {
      if e.active {
        assert NodeOk(e.fd);
        nodes := nodes - {e.fd};
        Unlist(e);
        if !e.mask.keep {
          closed := closed + [e.fd];
        }
        e.active, e.pending, e.mask, e.events := false, false, NONE, NONE;
      }
    }

    /** fdevent_update: the poll node follows the wanted events; false when there is no node, where adb aborts. */
    method FdeventUpdate(e: Fdevent, bits: Bits) returns (ok: bool)
      modifies this`nodes, e`mask
      ensures ok == (e.fd in old(nodes))
      ensures nodes == if ok then old(nodes)[e.fd := PollNode(old(nodes)[e.fd].fde, bits.rd, bits.wr)] else old(nodes)
      ensures e.mask == if ok then bits else old(e.mask)
    {
      if e.fd !in nodes {
        return false;
      }
      var node := nodes[e.fd];
      node := node.(pollIn := bits.rd);
      node := node.(pollOut := bits.wr);
      nodes := nodes[e.fd := node];
      e.mask := bits;
      ok := true;
    }

    /** The pending events of e lose those outside bits; with none left e is off the list. */
    method MaskPending(e: Fdevent, bits: Bits)
      requires Valid() && Installed(e)
      modifies this`pending, this`dropped, e`events, e`pending
      ensures Valid() && e.events == old(e.events).And(bits)
      ensures pending == if old(e.pending) && e.events == NONE then Dropped(old(pending), e) else old(pending)
      ensures dropped == if old(e.pending) && e.events == NONE then old(dropped) + {e} else old(dropped)
    {
      assert NodeOk(e.fd);
      if e.pending {
        e.events := e.events.And(bits);
        if e.events == NONE {
          pending := Dropped(pending, e);
          dropped := dropped + {e};
          e.pending := false;
        }
      }
    }

    /** fdevent_set: a pending event that is no longer wanted is not signalled. */
    method FdeventSet(e: Fdevent, bits: Bits) returns (ok: bool)
      requires Valid() && Settled(e)
      modifies this`nodes, this`pending, this`dropped, e`mask, e`events, e`pending
      ensures ok == (e.active || old(e.mask) == bits)
      ensures nodes.Keys == old(nodes).Keys && Fdes() == old(Fdes())
      ensures nodes == if ok && old(e.mask) != bits then old(nodes)[e.fd := PollNode(e, bits.rd, bits.wr)] else old(nodes)
      ensures ok ==> Valid() && e.mask == bits
      ensures ok ==> e.events == if old(e.mask) == bits then old(e.events) else old(e.events).And(bits)
      ensures ok ==> pending == if old(e.pending) && e.events == NONE then Dropped(old(pending), e) else old(pending)
      ensures ok ==> dropped == if old(e.pending) && e.events == NONE then old(dropped) + {e} else old(dropped)
    {
      if e.mask == bits {
        assert e.active ==> NodeOk(e.fd);
        return true;
      }
      if !e.active {
        return false;
      }
      assert NodeOk(e.fd);
      var found := FdeventUpdate(e, bits);
      assert forall fd :: fd in nodes && fd != e.fd ==> old(NodeOk(fd));
      MaskPending(e, bits);
      ok := true;
    }

    method FdeventAdd(e: Fdevent, bits: Bits) returns (ok: bool)
      requires Valid() && Settled(e)
      modifies this`nodes, this`pending, this`dropped, e`mask, e`events, e`pending
      ensures ok == (e.active || old(e.mask).Or(bits) == old(e.mask))
      ensures ok ==> Valid() && e.mask == old(e.mask).Or(bits)
      ensures ok ==> (e.mask.rd <==> old(e.mask.rd) || bits.rd) && (e.mask.wr <==> old(e.mask.wr) || bits.wr)
    {
      ok := FdeventSet(e, e.mask.Or(bits));
    }

    method FdeventDel(e: Fdevent, bits: Bits) returns (ok: bool)
      requires Valid() && Settled(e)
      modifies this`nodes, this`pending, this`dropped, e`mask, e`events, e`pending
      ensures ok == (e.active || old(e.mask).And(bits.Not()) == old(e.mask))
      ensures ok ==> Valid() && e.mask == old(e.mask).And(bits.Not())
      ensures ok ==> (e.mask.rd <==> old(e.mask.rd) && !bits.rd) && (e.mask.wr <==> old(e.mask.wr) && !bits.wr)
    {
      ok := FdeventSet(e, e.mask.And(bits.Not()));
    }

    // -------------------------------------------------------------- polling

    /** What poll reported for descriptor fd. */
    static function Polled(rev: map<int, Revents>, fd: int): Bits {
      if fd in rev then EventsOf(rev[fd]) else NONE
    }

    /** Of the descriptors done, exactly those with events are pending, with exactly these events. */
    ghost predicate PolledOk(fd: int, rev: map<int, Revents>, done: bool)
      requires fd in nodes
      reads this`nodes, this`pending, nodes[fd].fde
    {
      var e := nodes[fd].fde;
      e.events == (if done then Polled(rev, fd) else NONE) && (e in pending <==> done && Polled(rev, fd) != NONE)
    }

    /** fdevent_process, once every pending event has been handled; pollfds is the order in which the map yields its keys. */
    method FdeventProcess(pollfds: seq<int>, failed: bool, rev: map<int, Revents>) returns (ok: bool)
      requires Valid() && pending == []
      requires NoDuplicates(pollfds) && forall fd :: fd in pollfds <==> fd in nodes
      modifies this`pending, this`dropped, Fdes()`events, Fdes()`pending
      ensures ok == (pollfds != [])
      ensures ok ==> Valid()
      ensures ok && failed ==> pending == []
      ensures ok && !failed ==> forall fd :: fd in nodes ==> PolledOk(fd, rev, true)
      // POLLIN is a read, POLLOUT a write, and any trouble an error and a read.
      ensures ok && !failed ==> forall fd :: fd in nodes ==>
        var e := nodes[fd].fde;
        && (e.events.rd <==> fd in rev && (rev[fd].pollIn || rev[fd].trouble))
        && (e.events.wr <==> fd in rev && rev[fd].pollOut)
        && (e.events.err <==> fd in rev && rev[fd].trouble) && !e.events.keep
    {
      if |pollfds| == 0 {
        return false;
      }
      ok := true;
      if failed {
        return;
      }
      var i := 0;
      ghost var done: set<int> := {};
      while i < |pollfds|
        invariant 0 <= i <= |pollfds| && Valid()
        invariant forall k :: 0 <= k < |pollfds| ==> (pollfds[k] in done <==> k < i)
        invariant forall fd :: fd in nodes ==> PolledOk(fd, rev, fd in done)
      {
        PollOne(pollfds[i], rev, done);
        done := done + {pollfds[i]};
        i := i + 1;
      }
    }

    /** What was found for descriptor fd, those in done having been seen to. */
    method PollOne(fd: int, rev: map<int, Revents>, ghost done: set<int>)
      requires Valid() && fd in nodes && fd !in done && forall x :: x in nodes ==> PolledOk(x, rev, x in done)
      modifies this`pending, this`dropped, nodes[fd].fde`events, nodes[fd].fde`pending
      ensures Valid() && forall x :: x in nodes ==> PolledOk(x, rev, x in done + {fd})
    {
      assert PolledOk(fd, rev, false);
      forall x | x in nodes ensures nodes[x].fde == nodes[fd].fde ==> x == fd {
        assert NodeOk(x) && NodeOk(fd);
      }
      MarkPolled(fd, Polled(rev, fd));
    }

    /** The events found for one descriptor: its fdevent joins the pending list. */
    method MarkPolled(fd: int, events: Bits)
      requires Valid() && fd in nodes && nodes[fd].fde !in pending
      modifies this`pending, this`dropped, nodes[fd].fde`events, nodes[fd].fde`pending
      ensures Valid()
      ensures nodes[fd].fde.events == events
      ensures pending == if events != NONE then old(pending) + [nodes[fd].fde] else old(pending)
    {
      assert NodeOk(fd);
      if events != NONE {
        var e := nodes[fd].fde;
        e.events := e.events.Or(events);
        e.pending := true;
        pending := pending + [e];
        dropped := dropped - {e};
      }
    }

    // -------------------------------------------------------------- callbacks

    /** Only e keeps the loop from being valid: its events are about to be handed to its callback. */
    ghost predicate ValidBut(e: Fdevent)
      reads this, Fdes()
    {
      && Installed(e) && e !in pending && e.active && e.pending
      && (forall fd :: fd in nodes && fd != e.fd ==> NodeOk(fd))
      && nodes[e.fd].pollIn == e.mask.rd && nodes[e.fd].pollOut == e.mask.wr
      && (forall x :: x in pending ==> Installed(x) && x !in dropped)
      && NoDuplicates(pending)
    }

    /**
     What callbacks may do to the pending list: take fdevents off it, or events off them. Only the
     subprocess handler adds an event, a read, and it leaves its mark.
     */
    twostate predicate Shrunk()
      reads this`pending, this`dropped, pending
    {
      && |pending| <= |old(pending)|
      && (forall x :: x in pending ==> x in old(pending) && Lessened(x))
      && Kept()
    }

    /** What leaves the list is dropped, and nothing else is. */
    twostate predicate Kept()
      reads this`pending, this`dropped
    {
      && old(dropped) <= dropped
      && (forall x :: x in old(pending) ==> x in pending || x in dropped)
      && (forall x :: x in dropped ==> x in old(dropped) || x in old(pending))
    }

    static twostate predicate Lessened(x: Fdevent)
      reads x
    {
      && (old(x.forceEof) ==> x.forceEof)
      && x.events.Within(if x.forceEof then old(x.events).Or(READ) else old(x.events))
    }

    /** An fdevent on the list that has events of want, which acts spare, stays there with them. */
    twostate predicate StaysSpared(acts: seq<Act>)
      reads this`pending, pending
    {
      forall x: Fdevent, want: Bits ::
        x in old(pending) && want != NONE && want.Within(old(x.events)) && Spares(acts, x.fd, want) ==>
        x in pending && want.Within(x.events)
    }

    twostate predicate StaysSparedBy(a: Act)
      reads this`pending, pending
    {
      forall x: Fdevent, want: Bits ::
        x in old(pending) && want != NONE && want.Within(old(x.events)) && SparesOne(a, x.fd, want) ==>
        x in pending && want.Within(x.events)
    }

    /** No fdevent that acts remove is on the list. */
    predicate Cleared(acts: seq<Act>)
      reads this`pending
    {
      forall x :: x in pending ==> !Removes(acts, x.fd)
    }

    /** A callback that does nothing leaves the list and its events alone. */
    twostate predicate Quiet()
      reads this`pending, pending
    {
      pending == old(pending) && forall x :: x in pending ==> x.events == old(x.events)
    }

    /** Callbacks call others only by force. */
    twostate predicate OnlyForced()
      reads this`calls
    {
      && |old(calls)| <= |calls| && calls[..|old(calls)|] == old(calls)
      && (forall k :: |old(calls)| <= k < |calls| ==> calls[k].forced)
    }

    /** fdevent_call_fdfunc before the callback: the events are taken, and nothing is pending. */
    method TakeEvents(e: Fdevent) returns (events: Bits)
      requires ValidBut(e)
      modifies e`events, e`pending
      ensures Valid() && events == old(e.events) && e.events == NONE && !e.pending
    {
      assert forall fd :: fd in nodes && fd != e.fd ==> NodeOk(fd);
      events := e.events;
      e.events := NONE;
      e.pending := false;
    }

    /** fdevent_call_fdfunc: clear the events, then run the callback. */
    method CallFdfunc(e: Fdevent, forced: bool, acts: seq<Act>) returns (ok: bool)
      requires ValidBut(e)
      modifies this, Fdes()
      ensures ok ==> Valid() && Shrunk() && StaysSpared(acts) && Cleared(acts)
      ensures fresh(Fdes() - old(Fdes()))
      ensures |old(calls)| < |calls| && calls[..|old(calls)|] == old(calls) && calls[|old(calls)|] == Call(e, old(e.events), old(e.forceEof), forced)
      ensures acts == [] ==> ok && Quiet() && |calls| == |old(calls)| + 1 && e.events == NONE && !e.pending
      ensures forall k :: |old(calls)| < k < |calls| ==> calls[k].forced
      ensures NoInstall(acts) ==> ok
      ensures HandsOff(acts) ==> dropped == old(dropped)
      decreases acts, 1
    {
      var events := TakeEvents(e);
      calls := calls + [Call(e, events, e.forceEof, forced)];
      ok := Perform(acts);
    }

    /** What the callback does. */
    method Perform(acts: seq<Act>) returns (ok: bool)
      requires Valid()
      modifies this, Fdes()
      ensures ok ==> Valid() && Shrunk() && StaysSpared(acts) && Cleared(acts)
      ensures OnlyForced() && fresh(Fdes() - old(Fdes()))
      ensures acts == [] ==> ok && Quiet() && calls == old(calls) && forall x :: x in old(Fdes()) ==> unchanged(x)
      ensures NoInstall(acts) ==> ok
      ensures HandsOff(acts) ==> dropped == old(dropped)
      decreases acts, 0
    {
      ok := true;
      if acts != [] {
        ok := PerformOne(acts[0]);
        if ok {
          ok := Perform(acts[1..]);
        }
      }
    }

    /** A callback removes the fdevent installed for fd. */
    method PerformRemove(fd: int)
      requires Valid() && fd in nodes
      modifies this, Fdes()
      ensures Valid() && Shrunk() && calls == old(calls) && fresh(Fdes() - old(Fdes()))
      ensures StaysSparedBy(Remove(fd)) && fd !in nodes && forall x :: x in pending ==> x.fd != fd
    {
      assert NodeOk(fd);
      FdeventRemove(nodes[fd].fde);
    }

    /** fdevent_set on an installed fdevent, as the list sees it. */
    method SetInstalled(e: Fdevent, bits: Bits) returns (ok: bool)
      requires Valid() && Installed(e)
      modifies this`nodes, this`pending, this`dropped, e`mask, e`events, e`pending
      ensures ok && Valid() && Fdes() == old(Fdes()) && Installed(e) && e.mask == bits
      ensures e.events == if old(e.mask) == bits then old(e.events) else old(e.events).And(bits)
      ensures |pending| <= |old(pending)| && Kept()
      ensures forall x :: x in pending <==> x in old(pending) && (x == e ==> e.events != NONE)
    {
      assert NodeOk(e.fd);
      ok := FdeventSet(e, bits);
    }

    /** A callback changes what the fdevent installed for fd is interested in. */
    method PerformSet(fd: int, bits: Bits) returns (ok: bool)
      requires Valid() && fd in nodes
      modifies this, Fdes()
      ensures ok && Valid() && Shrunk() && calls == old(calls) && fresh(Fdes() - old(Fdes()))
      ensures StaysSparedBy(Set(fd, bits)) && fd in nodes && nodes[fd].fde.mask == bits
    {
      assert NodeOk(fd);
      var e := nodes[fd].fde;
      ok := SetInstalled(e, bits);
      assert forall x :: x in pending ==> Lessened(x);
    }

    method PerformOne(act: Act) returns (ok: bool)
      requires Valid()
      modifies this, Fdes()
      ensures ok ==> Valid() && Shrunk() && StaysSparedBy(act)
      ensures ok && act.Remove? ==> act.fd !in nodes && forall x :: x in pending ==> x.fd != act.fd
      ensures act.Install? ==> ok == (act.fd >= 0 && act.fd !in old(nodes)) && (ok ==> act.fd in nodes)
      ensures act.Set? && act.fd in old(nodes) ==> act.fd in nodes && nodes[act.fd].fde.mask == act.bits
      ensures OnlyForced() && fresh(Fdes() - old(Fdes()))
      ensures InstallsNone(act) ==> ok
      ensures LeavesBe(act) ==> dropped == old(dropped)
      decreases act, 0
    {
      ok := true;
      match act {
        case Install(fd) =>
          var e;
          ok, e := FdeventInstall(fd);
        case Remove(fd) =>
          if fd in nodes {
            PerformRemove(fd);
          }
        case Set(fd, bits) =>
          if fd in nodes {
            ok := PerformSet(fd, bits);
          }
        case Exit(fd, unread, inner) =>
          ok := SubprocExit(fd, unread, inner);
      }
    }

    /** The marks of a subprocess's exit on e; `call` when nothing is pending or left to read. */
    method MarkForced(e: Fdevent, unread: nat) returns (call: bool)
      requires Valid() && Installed(e)
      modifies e`forceEof, e`events, e`pending
      ensures call == (unread == 0 && !old(e.pending)) && e.pending == (old(e.pending) || call)
      ensures e.forceEof && e.events == if unread == 0 then old(e.events).Or(READ) else old(e.events)
      ensures call ==> ValidBut(e) && e.events == READ
      ensures !call ==> Valid()
    {
      assert NodeOk(e.fd);
      e.forceEof := true;
      if unread != 0 {
        return false;
      }
      e.events := e.events.Or(READ);
      if e.pending {
        return false;
      }
      e.pending := true;
      call := true;
    }

    /**
     The body of fdevent_subproc_event_func once it has read descriptor fd. The fdevent is marked; if the
     subprocess left nothing to read, a read is forced on it: it joins the pending events if it has some,
     else the callback runs at once.
     */
    method SubprocExit(fd: int, unread: nat, inner: seq<Act>) returns (ok: bool)
      requires Valid()
      modifies this, Fdes()
      ensures ok ==> Valid() && Shrunk() && StaysSpared(inner)
      ensures OnlyForced() && fresh(Fdes() - old(Fdes()))
      ensures fd !in old(nodes) ==> closed == old(closed) + [fd] && calls == old(calls) && unchanged(this`nodes, this`pending)
      ensures fd in old(nodes) && unread != 0 ==>
        var e := old(nodes[fd].fde);
        e.forceEof && e.events == old(e.events) && calls == old(calls) && unchanged(this`nodes, this`pending)
      ensures fd in old(nodes) && unread == 0 && old(nodes[fd].fde.pending) ==>
        var e := old(nodes[fd].fde);
        e.forceEof && e.events == old(e.events).Or(READ) && calls == old(calls) && unchanged(this`nodes, this`pending)
      ensures fd in old(nodes) && unread == 0 && !old(nodes[fd].fde.pending) ==>
        |old(calls)| < |calls| && calls[|old(calls)|] == Call(old(nodes[fd].fde), READ, true, true)
      ensures NoInstall(inner) ==> ok
      ensures HandsOff(inner) ==> dropped == old(dropped)
      decreases inner, 2
    {
      ok := true;
      if fd !in nodes {
        closed := closed + [fd];
        return;
      }
      var e := nodes[fd].fde;
      var call := MarkForced(e, unread);
      if call {
        ok := CallFdfunc(e, true, inner);
      }
    }

    /** The events of a call are among those e had, but for a read added together with force_eof. */
    static twostate predicate Deserved(c: Call)
      reads c.fde
    {
      c.events != NONE && c.events.Within(if c.eof then old(c.fde.events).Or(READ) else old(c.fde.events))
    }

    /** One turn of the drain: take the first pending fdevent off the list and call it. */
    method DrainOne(acts: seq<Act>) returns (ok: bool)
      requires Valid() && pending != []
      modifies this, Fdes()
      ensures ok ==> Valid() && |pending| < |old(pending)|
      ensures ok ==> forall x :: x in pending ==> x in old(pending) && x != old(pending)[0] && Lessened(x)
      ensures fresh(Fdes() - old(Fdes()))
      ensures |old(calls)| < |calls| && calls[..|old(calls)|] == old(calls)
      ensures calls[|old(calls)|] == Call(old(pending)[0], old(pending[0].events), old(pending[0].forceEof), false)
      ensures old(pending[0].events) != NONE
      ensures ok ==> forall x: Fdevent, want: Bits ::
        x in old(pending) && x != old(pending)[0] && want != NONE && want.Within(old(x.events)) && Spares(acts, x.fd, want) ==>
        x in pending && want.Within(x.events)
      ensures forall k :: |old(calls)| < k < |calls| ==> calls[k].forced
      ensures ok ==> Cleared(acts)
      ensures ok ==> old(dropped) <= dropped && old(pending)[0] !in dropped
      ensures ok ==> forall x :: x in old(pending) && x != old(pending)[0] ==> x in pending || x in dropped
      ensures ok ==> forall x :: x in dropped ==> x in old(dropped) || x in old(pending)
      ensures NoInstall(acts) ==> ok
      ensures HandsOff(acts) ==> dropped == old(dropped)
      ensures acts == [] ==> ok && pending == old(pending)[1..] && |calls| == |old(calls)| + 1
      ensures acts == [] ==> forall x :: x in pending ==> x.events == old(x.events)
    {
      var e := pending[0];
      assert Installed(e) && NodeOk(e.fd);
      pending := pending[1..];
      ok := CallFdfunc(e, false, acts);
    }

    /** Since call n, e's callback has run for its own events. */
    static ghost predicate Called(n: nat, calls: seq<Call>, e: Fdevent) {
      exists k :: n <= k < |calls| && calls[k].fde == e && !calls[k].forced
    }

    /** c is for an fdevent that was on the list, and for events it had there, or a read added together with force_eof. */
    static predicate Earned(c: Call, had: map<Fdevent, Bits>) {
      && c.fde in had && c.events != NONE
      && c.events.Within(if c.eof then had[c.fde].Or(READ) else had[c.fde])
    }

    /** From call n on, what was not forced was earned at the start, is off the list now, and was called once. */
    static ghost predicate Logged(n: nat, calls: seq<Call>, had: map<Fdevent, Bits>, pending: seq<Fdevent>) {
      && (forall k :: n <= k < |calls| && !calls[k].forced ==> Earned(calls[k], had) && calls[k].fde !in pending)
      && (forall j, k :: n <= j < k < |calls| && !calls[j].forced && !calls[k].forced ==> calls[j].fde != calls[k].fde)
    }

    /** What was on the list at the start is on it still, was dropped, or was called: exactly one of the three. */
    static ghost predicate Accounted(n: nat, calls: seq<Call>, start: seq<Fdevent>, pending: seq<Fdevent>, dropped: set<Fdevent>) {
      forall e :: e in start ==>
        && (e in pending || e in dropped || Called(n, calls, e))
        && (e in dropped ==> !Called(n, calls, e))
    }

    /** One turn of the drain in the record of calls. */
    static lemma LogOne(n: nat, calls: seq<Call>, calls': seq<Call>, had: map<Fdevent, Bits>, pending: seq<Fdevent>, pending': seq<Fdevent>)
      requires Logged(n, calls, had, pending) && pending != []
      requires |calls| < |calls'| && Earned(calls'[|calls|], had)
      requires n <= |calls| < |calls'| && calls'[..|calls|] == calls && calls'[|calls|].fde == pending[0] && !calls'[|calls|].forced
      requires forall k :: |calls| < k < |calls'| ==> calls'[k].forced
      requires forall x :: x in pending' ==> x in pending && x != pending[0]
      ensures Logged(n, calls', had, pending')
      ensures calls'[..n] == calls[..n]
      ensures forall e :: Called(n, calls', e) <==> Called(n, calls, e) || e == pending[0]
    {
      assert forall k :: 0 <= k < |calls| ==> calls'[k] == calls[k];
      forall e ensures Called(n, calls', e) <==> Called(n, calls, e) || e == pending[0] {
        if Called(n, calls, e) {
          var k :| n <= k < |calls| && calls[k].fde == e && !calls[k].forced;
          assert calls'[k].fde == e;
        }
        if e == pending[0] {
          assert calls'[|calls|].fde == e;
        }
      }
    }

    /** And in the account of the fdevents. */
    static lemma AccountOne(n: nat, calls: seq<Call>, calls': seq<Call>, had: map<Fdevent, Bits>, start: seq<Fdevent>,
                            pending: seq<Fdevent>, pending': seq<Fdevent>, dropped: set<Fdevent>, dropped': set<Fdevent>)
      requires Logged(n, calls, had, pending) && Accounted(n, calls, start, pending, dropped) && pending != []
      requires forall e :: Called(n, calls', e) <==> Called(n, calls, e) || e == pending[0]
      requires dropped <= dropped' && pending[0] !in dropped'
      requires forall e :: e in pending && e != pending[0] ==> e in pending' || e in dropped'
      requires forall e :: e in dropped' ==> e in dropped || e in pending
      ensures Accounted(n, calls', start, pending', dropped')
    {}

    /** What is on the list has only events it had at the start, or a read added together with force_eof. */
    ghost predicate Reduced(had: map<Fdevent, Bits>)
      reads this`pending, pending
    {
      forall x :: x in pending ==> x in had && x.events.Within(if x.forceEof then had[x].Or(READ) else had[x])
    }

    /** Since call n, e's callback has run for its own events, those of want among them. */
    static ghost predicate CalledFor(n: nat, calls: seq<Call>, e: Fdevent, want: Bits) {
      exists k :: n <= k < |calls| && calls[k].fde == e && !calls[k].forced && want.Within(calls[k].events)
    }

    /** What the callbacks spare is called for, or is still on the list with the events in question. */
    ghost predicate Due(scripts: seq<seq<Act>>, n: nat, had: map<Fdevent, Bits>)
      reads this`pending, this`calls, pending
    {
      forall x: Fdevent, want: Bits :: x in had && want != NONE && want.Within(had[x]) && SparesAll(scripts, x.fd, want) ==>
        (x in pending && want.Within(x.events)) || CalledFor(n, calls, x, want)
    }

    static lemma CalledForLater(n: nat, calls: seq<Call>, calls': seq<Call>, e: Fdevent, want: Bits)
      requires CalledFor(n, calls, e, want) && |calls| <= |calls'| && calls'[..|calls|] == calls
      ensures CalledFor(n, calls', e, want)
    {
      var k :| n <= k < |calls| && calls[k].fde == e && !calls[k].forced && want.Within(calls[k].events);
      assert calls'[k] == calls[k];
    }

    /** One turn of the drain, as far as what is spared goes. */
    method DrainSparing(acts: seq<Act>, ghost scripts: seq<seq<Act>>, ghost i: nat, ghost n: nat, ghost had: map<Fdevent, Bits>, ghost start: seq<Fdevent>)
      returns (ok: bool)
      requires Valid() && pending != [] && n <= |calls| && Reduced(had)
      requires Logged(n, calls, had, pending) && Accounted(n, calls, start, pending, dropped)
      requires acts == (if i < |scripts| then scripts[i] else []) && Due(scripts, n, had)
      requires InTurns(scripts, n, i, calls, pending)
      modifies this, Fdes()
      ensures fresh(Fdes() - old(Fdes())) && n <= |calls| && calls[..n] == old(calls)[..n]
      ensures Logged(n, calls, had, if ok then pending else [])
      ensures ok ==> Valid() && |pending| < |old(pending)| && Reduced(had) && Accounted(n, calls, start, pending, dropped)
      ensures ok ==> Due(scripts, n, had)
      ensures InTurns(scripts, n, i + 1, calls, if ok then pending else [])
      ensures NoInstall(acts) ==> ok
      ensures HandsOff(acts) ==> dropped == old(dropped)
    {
      ghost var head := pending[0];
      ok := DrainTurn(acts, n, had, start);
      NextTurn(scripts, n, i, old(calls), old(pending), calls, if ok then pending else []);
      if ok {
        forall x: Fdevent, want: Bits | x in had && want != NONE && want.Within(had[x]) && SparesAll(scripts, x.fd, want)
          ensures (x in pending && want.Within(x.events)) || CalledFor(n, calls, x, want)
        {
          assert Spares(acts, x.fd, want);
          if old(CalledFor(n, calls, x, want)) {
            CalledForLater(n, old(calls), calls, x, want);
          } else if x == head {
            assert calls[|old(calls)|].fde == x;
          }
        }
      }
    }

    /** One turn of the drain, with its record. */
    method DrainTurn(acts: seq<Act>, ghost n: nat, ghost had: map<Fdevent, Bits>, ghost start: seq<Fdevent>) returns (ok: bool)
      requires Valid() && pending != [] && n <= |calls| && Reduced(had)
      requires Logged(n, calls, had, pending) && Accounted(n, calls, start, pending, dropped)
      modifies this, Fdes()
      ensures fresh(Fdes() - old(Fdes())) && n <= |calls| && calls[..n] == old(calls)[..n]
      ensures Logged(n, calls, had, if ok then pending else [])
      ensures ok ==> Valid() && |pending| < |old(pending)| && Reduced(had) && Accounted(n, calls, start, pending, dropped)
      ensures |old(calls)| < |calls| && calls[..|old(calls)|] == old(calls)
      ensures calls[|old(calls)|] == Call(old(pending)[0], old(pending[0].events), old(pending[0].forceEof), false)
      ensures forall k :: |old(calls)| < k < |calls| ==> calls[k].forced
      ensures ok ==> Cleared(acts) && forall x :: x in pending ==> x in old(pending)
      ensures ok ==> forall x: Fdevent, want: Bits ::
        x in old(pending) && x != old(pending)[0] && want != NONE && want.Within(old(x.events)) && Spares(acts, x.fd, want) ==>
        x in pending && want.Within(x.events)
      ensures NoInstall(acts) ==> ok
      ensures HandsOff(acts) ==> dropped == old(dropped)
    {
      ghost var done, list, gone := calls, pending, dropped;
      assert pending[0] in pending;
      ok := DrainOne(acts);
      LogOne(n, done, calls, had, list, if ok then pending else []);
      if ok {
        AccountOne(n, done, calls, had, start, list, pending, gone, dropped);
      }
    }

    /** The calls since number n that were not forced, one a turn. */
    static function OwnCalls(n: nat, calls: seq<Call>): seq<Call>
      requires n <= |calls|
    {
      if |calls| == n then [] else
        var front, c := calls[..|calls| - 1], calls[|calls| - 1];
        OwnCalls(n, front) + if c.forced then [] else [c]
    }

    static lemma {:induction false} OneOwnCall(n: nat, calls: seq<Call>, calls': seq<Call>)
      requires n <= |calls| < |calls'| && calls'[..|calls|] == calls && !calls'[|calls|].forced
      requires forall k :: |calls| < k < |calls'| ==> calls'[k].forced
      ensures OwnCalls(n, calls') == OwnCalls(n, calls) + [calls'[|calls|]]
      decreases |calls'|
    {
      var front := calls'[..|calls'| - 1];
      if |front| == |calls| {
        assert front == calls;
      } else {
        assert front[..|calls|] == calls && front[|calls|] == calls'[|calls|];
        OneOwnCall(n, calls, front);
      }
    }

    /** None of q was removed in the first i turns. */
    static predicate Present(scripts: seq<seq<Act>>, i: nat, q: seq<Fdevent>) {
      forall x, j :: x in q && 0 <= j < i && j < |scripts| ==> !Removes(scripts[j], x.fd)
    }

    /** After i turns since call n. */
    static predicate InTurns(scripts: seq<seq<Act>>, n: nat, i: nat, calls: seq<Call>, q: seq<Fdevent>)
      requires n <= |calls|
    {
      |OwnCalls(n, calls)| == i && NotAfterRemoval(scripts, OwnCalls(n, calls)) && Present(scripts, i, q)
    }

    static lemma NextTurn(scripts: seq<seq<Act>>, n: nat, i: nat, calls: seq<Call>, q: seq<Fdevent>, calls': seq<Call>, q': seq<Fdevent>)
      requires n <= |calls| < |calls'| && InTurns(scripts, n, i, calls, q)
      requires calls'[..|calls|] == calls && !calls'[|calls|].forced && calls'[|calls|].fde in q
      requires forall k :: |calls| < k < |calls'| ==> calls'[k].forced
      requires forall x :: x in q' ==> x in q && (i < |scripts| ==> !Removes(scripts[i], x.fd))
      ensures InTurns(scripts, n, i + 1, calls', q')
    {
      OneOwnCall(n, calls, calls');
    }

    /** An fdevent that a callback removes is not called in a later turn. */
    static predicate NotAfterRemoval(scripts: seq<seq<Act>>, own: seq<Call>) {
      forall j, k :: 0 <= j < k < |own| && j < |scripts| ==> !Removes(scripts[j], own[k].fde.fd)
    }

    /** The loop, with its record. */
    method DrainLoop(scripts: seq<seq<Act>>, ghost had: map<Fdevent, Bits>) returns (ok: bool)
      requires Valid() && Reduced(had) && had.Keys == (set e | e in pending) && forall e :: e in pending ==> had[e] == e.events
      modifies this, Fdes()
      ensures ok ==> Valid() && pending == []
      ensures |old(calls)| <= |calls| && calls[..|old(calls)|] == old(calls) && fresh(Fdes() - old(Fdes()))
      ensures Logged(|old(calls)|, calls, had, if ok then pending else [])
      ensures ok ==> Accounted(|old(calls)|, calls, old(pending), pending, dropped) && Due(scripts, |old(calls)|, had)
      ensures NotAfterRemoval(scripts, OwnCalls(|old(calls)|, calls))
      ensures NoInstalls(scripts) ==> ok
      ensures HandsOffAll(scripts) ==> dropped == old(dropped)
    {
      ok := true;
      var i := 0;
      ghost var start, first := pending, calls;
      while pending != []
        invariant ok && Valid() && Reduced(had) && fresh(Fdes() - old(Fdes()))
        invariant |first| <= |calls| && calls[..|first|] == first
        invariant Logged(|first|, calls, had, pending) && Accounted(|first|, calls, start, pending, dropped)
        invariant Due(scripts, |first|, had)
        invariant InTurns(scripts, |first|, i, calls, pending)
        invariant HandsOffAll(scripts) ==> dropped == old(dropped)
        decreases |pending|
      {
        ok := DrainSparing(if i < |scripts| then scripts[i] else [], scripts, i, |first|, had, start);
        i := i + 1;
        if !ok {
          return;
        }
      }
    }

    /**
     The drain of fdevent_loop, with what each callback does. It terminates whatever that is. Every
     fdevent called was on the list at the start, is called for events it had there, and is called
     once: an fdevent installed meanwhile, be it for the same descriptor, is never called for an event
     polled before. And every fdevent on the list at the start is called, with each of its events, unless a
     callback removes it or masks that event off. Only an install can abort it.
     */
    method Drain(scripts: seq<seq<Act>>) returns (ok: bool)
      requires Valid()
      modifies this, Fdes()
      ensures ok ==> Valid() && pending == []
      ensures |old(calls)| <= |calls| && calls[..|old(calls)|] == old(calls)
      ensures forall k :: |old(calls)| <= k < |calls| && !calls[k].forced ==> calls[k].fde in old(pending) && Deserved(calls[k])
      ensures forall j, k :: |old(calls)| <= j < k < |calls| && !calls[j].forced && !calls[k].forced ==> calls[j].fde != calls[k].fde
      ensures ok ==> forall x :: x in old(pending) ==> (Called(|old(calls)|, calls, x) <==> x !in dropped)
      ensures ok ==> forall x: Fdevent, want: Bits ::
        x in old(pending) && want != NONE && want.Within(old(x.events)) && SparesAll(scripts, x.fd, want) ==>
        CalledFor(|old(calls)|, calls, x, want)
      ensures NotAfterRemoval(scripts, OwnCalls(|old(calls)|, calls))
      ensures NoInstalls(scripts) ==> ok
      ensures HandsOffAll(scripts) ==> dropped == old(dropped)
    {
      ghost var had := map e | e in pending :: e.events;
      ok := DrainLoop(scripts, had);
    }

    /** When the callbacks leave the loop alone, every polled event is delivered, in order. */
    method DrainQuietly() returns (ok: bool)
      requires Valid()
      modifies this, Fdes()
      ensures ok && Valid() && pending == [] && |calls| == |old(calls)| + |old(pending)|
      ensures forall k :: 0 <= k < |old(pending)| ==> Delivered(calls[|old(calls)| + k], old(pending)[k])
    {
      ok := true;
      ghost var i := 0;
      while pending != []
        invariant ok && Valid() && i <= |old(pending)| && pending == old(pending)[i..] && |calls| == |old(calls)| + i
        invariant fresh(Fdes() - old(Fdes()))
        invariant forall x :: x in pending ==> x.events == old(x.events)
        invariant forall k :: 0 <= k < i ==> Delivered(calls[|old(calls)| + k], old(pending)[k])
        decreases |pending|
      {
        ok := DrainOne([]);
        i := i + 1;
      }
    }

    /** c is the call of e with exactly the events it had. */
    static twostate predicate Delivered(new c: Call, e: Fdevent)
    {
      c.fde == e && c.events == old(e.events) && !c.forced
    }

    /** The call is for a descriptor that was polled, and for events poll found there (and a forced end of file). */
    static predicate FromPoll(c: Call, nodes: map<int, PollNode>, rev: map<int, Revents>) {
      && c.fde.fd in nodes && nodes[c.fde.fd].fde == c.fde && c.events != NONE
      && c.events.Within(if c.eof then Polled(rev, c.fde.fd).Or(READ) else Polled(rev, c.fde.fd))
    }

    /** A write is called for only after POLLOUT, an error after trouble, and a read after POLLIN or trouble, or at a forced end of file. */
    static predicate Reported(c: Call, rev: map<int, Revents>) {
      && (c.events.wr ==> c.fde.fd in rev && rev[c.fde.fd].pollOut)
      && (c.events.err ==> c.fde.fd in rev && rev[c.fde.fd].trouble)
      && (c.events.rd ==> c.eof || (c.fde.fd in rev && (rev[c.fde.fd].pollIn || rev[c.fde.fd].trouble)))
    }

    /** What must be called for, in the bits of poll. */
    static lemma CallsForOne(n: nat, calls: seq<Call>, e: Fdevent, scripts: seq<seq<Act>>, rev: map<int, Revents>)
      requires e.fd in rev
      requires forall want: Bits :: want != NONE && want.Within(Polled(rev, e.fd)) && SparesAll(scripts, e.fd, want) ==> CalledFor(n, calls, e, want)
      ensures (rev[e.fd].pollIn || rev[e.fd].trouble) && SparesAll(scripts, e.fd, READ) ==> exists k :: n <= k < |calls| && calls[k].fde == e && !calls[k].forced && calls[k].events.rd
      ensures rev[e.fd].pollOut && SparesAll(scripts, e.fd, WRITE) ==> exists k :: n <= k < |calls| && calls[k].fde == e && !calls[k].forced && calls[k].events.wr
    {
      if (rev[e.fd].pollIn || rev[e.fd].trouble) && SparesAll(scripts, e.fd, READ) {
        assert CalledFor(n, calls, e, READ);
      }
      if rev[e.fd].pollOut && SparesAll(scripts, e.fd, WRITE) {
        assert CalledFor(n, calls, e, WRITE);
      }
    }

    static lemma CallsForAll(nodes: map<int, PollNode>, n: nat, calls: seq<Call>, scripts: seq<seq<Act>>, rev: map<int, Revents>)
      requires forall fd :: fd in nodes ==> nodes[fd].fde.fd == fd
      requires forall fd :: fd in nodes && fd in rev ==> forall want: Bits ::
        want != NONE && want.Within(Polled(rev, fd)) && SparesAll(scripts, fd, want) ==> CalledFor(n, calls, nodes[fd].fde, want)
      ensures forall fd :: fd in nodes && fd in rev ==>
        var e := nodes[fd].fde;
        && ((rev[fd].pollIn || rev[fd].trouble) && SparesAll(scripts, fd, READ) ==> exists k :: n <= k < |calls| && calls[k].fde == e && !calls[k].forced && calls[k].events.rd)
        && (rev[fd].pollOut && SparesAll(scripts, fd, WRITE) ==> exists k :: n <= k < |calls| && calls[k].fde == e && !calls[k].forced && calls[k].events.wr)
    {
      forall fd | fd in nodes && fd in rev
        ensures var e := nodes[fd].fde;
          && ((rev[fd].pollIn || rev[fd].trouble) && SparesAll(scripts, fd, READ) ==> exists k :: n <= k < |calls| && calls[k].fde == e && !calls[k].forced && calls[k].events.rd)
          && (rev[fd].pollOut && SparesAll(scripts, fd, WRITE) ==> exists k :: n <= k < |calls| && calls[k].fde == e && !calls[k].forced && calls[k].events.wr)
      {
        CallsForOne(n, calls, nodes[fd].fde, scripts, rev);
      }
    }

    /** The loop's body, in the terms of Polled. */
    method PollAndDrain(pollfds: seq<int>, failed: bool, rev: map<int, Revents>, scripts: seq<seq<Act>>) returns (ok: bool)
      requires Valid() && pending == []
      requires NoDuplicates(pollfds) && forall fd :: fd in pollfds <==> fd in nodes
      modifies this, Fdes()
      ensures ok ==> Valid() && pending == []
      ensures forall fd :: fd in old(nodes) ==> old(nodes)[fd].fde.fd == fd
      ensures |old(calls)| <= |calls| && calls[..|old(calls)|] == old(calls)
      ensures forall k :: |old(calls)| <= k < |calls| && !calls[k].forced ==> FromPoll(calls[k], old(nodes), rev)
      ensures ok && !failed ==> forall fd :: fd in old(nodes) && Polled(rev, fd) != NONE ==>
        var e := old(nodes)[fd].fde; Called(|old(calls)|, calls, e) <==> e !in dropped
      ensures ok && !failed ==> forall fd: int, want: Bits ::
        fd in old(nodes) && want != NONE && want.Within(Polled(rev, fd)) && SparesAll(scripts, fd, want) ==>
        CalledFor(|old(calls)|, calls, old(nodes)[fd].fde, want)
      ensures NotAfterRemoval(scripts, OwnCalls(|old(calls)|, calls))
      ensures pollfds != [] && NoInstalls(scripts) ==> ok
      ensures ok && !failed && HandsOffAll(scripts) ==> forall fd :: fd in old(nodes) && Polled(rev, fd) != NONE ==>
        Called(|old(calls)|, calls, old(nodes)[fd].fde)
    {
      ok := FdeventProcess(pollfds, failed, rev);
      if ok {
        label polled:
        assert forall x :: x in pending ==> Installed(x) && PolledOk(x.fd, rev, true);
        ghost var list, before := pending, dropped;
        assert !failed ==> forall fd :: fd in nodes && Polled(rev, fd) != NONE ==> nodes[fd].fde in list && nodes[fd].fde !in before;
        assert !failed ==> forall fd :: fd in nodes ==> nodes[fd].fde.fd == fd && nodes[fd].fde.events == Polled(rev, fd);
        ok := Drain(scripts);
        forall k | |old(calls)| <= k < |calls| && !calls[k].forced ensures FromPoll(calls[k], old(nodes), rev) {
          assert Deserved@polled(calls[k]);
        }
      }
    }

    /**
     The body of fdevent_loop: poll, then drain. A callback runs for the fdevent that was polled, or not at
     all; and it does run for each event that poll found, unless another callback removes the fdevent or masks
     that event off.
     */
    method LoopOnce(pollfds: seq<int>, failed: bool, rev: map<int, Revents>, scripts: seq<seq<Act>>) returns (ok: bool)
      requires Valid() && pending == []
      requires NoDuplicates(pollfds) && forall fd :: fd in pollfds <==> fd in nodes
      modifies this, Fdes()
      ensures ok ==> Valid() && pending == []
      ensures |old(calls)| <= |calls| && calls[..|old(calls)|] == old(calls)
      ensures forall k :: |old(calls)| <= k < |calls| && !calls[k].forced ==> FromPoll(calls[k], old(nodes), rev)
      ensures ok && !failed ==> forall fd :: fd in old(nodes) && Polled(rev, fd) != NONE ==>
        var e := old(nodes)[fd].fde; Called(|old(calls)|, calls, e) <==> e !in dropped
      ensures ok && !failed ==> forall fd: int, want: Bits ::
        fd in old(nodes) && want != NONE && want.Within(Polled(rev, fd)) && SparesAll(scripts, fd, want) ==>
        CalledFor(|old(calls)|, calls, old(nodes)[fd].fde, want)
      ensures NotAfterRemoval(scripts, OwnCalls(|old(calls)|, calls))
      // In the bits of poll: what may be called for, and what must be.
      ensures forall k :: |old(calls)| <= k < |calls| && !calls[k].forced ==> Reported(calls[k], rev)
      ensures ok && !failed ==> forall fd :: fd in old(nodes) && fd in rev ==>
        var e, n := old(nodes)[fd].fde, |old(calls)|;
        && ((rev[fd].pollIn || rev[fd].trouble) && SparesAll(scripts, fd, READ) ==> exists k :: n <= k < |calls| && calls[k].fde == e && !calls[k].forced && calls[k].events.rd)
        && (rev[fd].pollOut && SparesAll(scripts, fd, WRITE) ==> exists k :: n <= k < |calls| && calls[k].fde == e && !calls[k].forced && calls[k].events.wr)
      ensures pollfds != [] && NoInstalls(scripts) ==> ok
      ensures ok && !failed && HandsOffAll(scripts) ==> forall fd :: fd in old(nodes) && Polled(rev, fd) != NONE ==>
        Called(|old(calls)|, calls, old(nodes)[fd].fde)
    {
      ok := PollAndDrain(pollfds, failed, rev, scripts);
      if ok && !failed {
        CallsForAll(old(nodes), |old(calls)|, calls, scripts, rev);
      }
    }
  }
}
