/** The registry of port forwardings (src/adb_listeners.cpp) and each transport's list of disconnect callbacks (src/transport.cpp). */
module Listeners {
  import opened Bytes
  import opened Lists

  type Name = seq<char>

  predicate IsSmart(connectTo: Name) { connectTo != [] && connectTo[0] == '*' }

  class Atransport {
    var disconnects: seq<Listener>   // disconnects_; a callback is known by the listener it belongs to

    constructor ()
      ensures disconnects == []
    {
      disconnects := [];
    }

    method AddDisconnect(l: Listener)
      modifies this
      ensures disconnects == old(disconnects) + [l]
    {
      disconnects := disconnects + [l];
    }

    method RemoveDisconnect(l: Listener)
      modifies this
      ensures disconnects == Dropped(old(disconnects), l)
    {
      disconnects := Dropped(disconnects, l);
    }
  }

  class Listener {
    const fd: int
    const localName: Name
    var connectTo: Name
    var transport: Atransport?

    constructor (fd: int, localName: Name, connectTo: Name, transport: Atransport?)
      ensures this.fd == fd && this.localName == localName && this.connectTo == connectTo && this.transport == transport
    {
      this.fd, this.localName, this.connectTo, this.transport := fd, localName, connectTo, transport;
    }

    /** Listeners of the server itself, which forward to no device. */
    predicate Smart()
      reads `connectTo
    {
      IsSmart(connectTo)
    }
  }

  datatype InstallStatus = Ok | InternalError | CannotBind | CannotRebind | ListenerNotFound

  /** What socket_spec_listen came to: no descriptor, or one, with the port number's name if it was 0. */
  datatype Listen = NoListen | Listening(fd: int, resolved: Option<Name>)

  /** The parts of the registry's invariant. */
  datatype Aspect = ByName | ByOwner | ByTransport

  /** A request for port 0 is renamed to the port the system chose. */
  function FinalName(name: Name, listen: Listen): Name {
    if listen.Listening? && listen.resolved.Some? then listen.resolved.value else name
  }

  class Registry {
    var list: seq<Listener>                  // listener_list
    var fds: set<int>                        // descriptors of installed fdevents
    ghost var transports: set<Atransport>

    constructor ()
      ensures Valid() && list == [] && fds == {} && transports == {}
    {
      list, fds, transports := [], {}, {};
    }

    /** t's disconnect list holds exactly the listeners bound to t, each once. */
    ghost predicate Bound(t: Atransport)
      reads `list, (set l | l in list)`transport, t
    {
      && NoDuplicates(t.disconnects)
      && (forall l :: l in t.disconnects ==> l in list && l.transport == t)
      && (forall l :: l in list && l.transport == t ==> l in t.disconnects)
    }

    /** No listener twice, no two with one name or one descriptor. */
    ghost predicate Names()
      reads `list, `fds
    {
      && NoDuplicates(list)
      && (forall l, m :: l in list && m in list && (l.localName == m.localName || l.fd == m.fd) ==> l == m)
      && (forall l :: l in list ==> l.fd in fds)
    }

    /** Only the server's own listeners have no transport. */
    ghost predicate Owned()
      reads `list, `transports, (set l | l in list)`transport, (set l | l in list)`connectTo
    {
      forall l :: l in list ==> if l.transport == null then l.Smart() else l.transport in transports
    }

    ghost predicate Counted()
      reads `list, `transports, (set l | l in list)`transport, transports
    {
      forall t :: t in transports ==> Bound(t)
    }

    ghost predicate Valid()
      reads this, list, transports
    {
      forall a: Aspect :: Keeps(a)
    }

    ghost predicate Keeps(a: Aspect)
      reads this, list, transports
    {
      match a
      case ByName => Names()
      case ByOwner => Owned()
      case ByTransport => Counted()
    }

    /** Position of the first listener with this name, or the length of the list. */
    method Find(name: Name) returns (i: nat)
      ensures i <= |list| && forall k :: 0 <= k < i ==> list[k].localName != name
      ensures i < |list| ==> list[i].localName == name
    {
      i := 0;
      while i < |list| && list[i].localName != name
        invariant i <= |list| && forall k :: 0 <= k < i ==> list[k].localName != name
      {
        i := i + 1;
      }
    }

    /** listener_list.erase, and the destructor: close the descriptor, forget the disconnect callback. */
    method Erase(i: nat)
      requires Valid() && i < |list|
      modifies `list, `fds, transports
      ensures Valid() && list == Minus(old(list), {old(list)[i]}) && fds == old(fds) - {old(list)[i].fd}
      ensures forall t :: t in transports && t != old(list)[i].transport ==> t.disconnects == old(t.disconnects)
    {
      assert Keeps(ByName) && Keeps(ByOwner) && Keeps(ByTransport);
      var l := list[i];
      WithoutIsMinus(list, i);
      MinusMembers(list, {l});
      MinusDistinct(list, {l});
      list := Without(list, i);
      fds := fds - {l.fd};
      if l.transport != null {
        l.transport.RemoveDisconnect(l);
      }
      forall t | t in transports ensures Bound(t) {
        assert old(Bound(t));
        assert t.disconnects == if t == l.transport then Dropped(old(t.disconnects), l) else old(t.disconnects);
      }
      assert Names() && Owned() && Counted();
    }

    /** The part of install_listener that finds the name in use: l is to forward elsewhere, maybe for another transport. */
    method Rebind(l: Listener, connectTo: Name, transport: Atransport)
      requires Valid() && l in list && l.transport != null
      requires transport !in transports ==> transport.disconnects == []
      modifies `transports, l`connectTo, l`transport, l.transport, transport
      ensures Valid() && list == old(list) && transports == old(transports) + {transport}
      ensures l.connectTo == connectTo && l.transport == transport
      ensures forall t :: t in old(transports) && t != transport && t != old(l.transport) ==> t.disconnects == old(t.disconnects)
    {
      assert Keeps(ByName) && Keeps(ByOwner) && Keeps(ByTransport);
      l.connectTo := connectTo;
      transports := transports + {transport};
      if l.transport != transport {
        l.transport.RemoveDisconnect(l);
        l.transport := transport;
        l.transport.AddDisconnect(l);
      }
      forall t | t in transports ensures Bound(t) {
        assert t in old(transports) ==> old(Bound(t));
        if t == transport && t == old(l.transport) {
          assert t.disconnects == old(t.disconnects);
        } else if t == transport {
          assert t.disconnects == old(t.disconnects) + [l] && l !in old(t.disconnects);
        } else if t == old(l.transport) {
          assert t.disconnects == Dropped(old(t.disconnects), l);
        } else {
          assert t.disconnects == old(t.disconnects);
        }
      }
      assert Names() && Owned() && Counted();
    }

    /** The part that installs a new listener. */
    method Add(fd: int, name: Name, connectTo: Name, transport: Atransport?) returns (l: Listener)
      requires Valid() && forall m :: m in list ==> m.fd != fd && m.localName != name
      requires transport == null ==> IsSmart(connectTo)
      requires transport != null && transport !in transports ==> transport.disconnects == []
      modifies `list, `fds, `transports, transport
      ensures Valid() && list == old(list) + [l] && fds == old(fds) + {fd} && fresh(l)
      ensures l.fd == fd && l.localName == name && l.connectTo == connectTo && l.transport == transport
    {
      assert Keeps(ByName) && Keeps(ByOwner) && Keeps(ByTransport);
      l := new Listener(fd, name, connectTo, transport);
      fds := fds + {fd};
      if transport != null {
        transports := transports + {transport};
        transport.AddDisconnect(l);
      }
      list := list + [l];
      forall t | t in transports ensures Bound(t) {
        assert t in old(transports) ==> old(Bound(t));
        assert t.disconnects == if t == transport then old(t.disconnects) + [l] else old(t.disconnects);
      }
      assert Names() && Owned() && Counted();
    }

    /** install_listener */
    method InstallListener(name: Name, connectTo: Name, transport: Atransport?, noRebind: bool, listen: Listen)
      returns (status: InstallStatus)
      requires Valid()
      // Only the server's own listeners come without a transport, and they are not installed over others.
      requires transport == null ==> IsSmart(connectTo) && forall l :: l in list && l.localName == name ==> l.Smart()
      requires transport != null && transport !in transports ==> transport.disconnects == []
      // The system hands out a descriptor, and for port 0 a port, that is not in use.
      requires listen.Listening? ==> forall l :: l in list ==> l.fd != listen.fd
      requires listen.Listening? && listen.resolved.Some? ==> forall l :: l in list ==> l.localName != listen.resolved.value
      modifies `list, `fds, `transports, transports, transport, list
      ensures Valid()
      ensures (forall l :: l in old(list) ==> l.localName != name) && listen.NoListen? ==>
        status == CannotBind && list == old(list)
      ensures (forall l :: l in old(list) ==> l.localName != name) && listen.Listening? ==>
        status == Ok && |list| == |old(list)| + 1 && list[..|old(list)|] == old(list)
      ensures (forall l :: l in old(list) ==> l.localName != name) && listen.Listening? ==>
        var l := list[|old(list)|];
        && l.fd == listen.fd && l.transport == transport && l.connectTo == connectTo && l.localName == FinalName(name, listen)
        && (listen.resolved == None ==> l.localName == name) && (listen.resolved.Some? ==> l.localName == listen.resolved.value)
      ensures forall l :: l in old(list) && l.localName == name ==>
        list == old(list) && (old(l.connectTo != [] && l.connectTo[0] == '*') <==> status == InternalError)
        && if old(l.Smart()) then status == InternalError && l.connectTo == old(l.connectTo) && l.transport == old(l.transport)
        else if noRebind then status == CannotRebind && l.connectTo == old(l.connectTo) && l.transport == old(l.transport)
        else status == Ok && l.connectTo == connectTo && l.transport == transport
      ensures forall l :: l in old(list) && l.localName != name ==> l.connectTo == old(l.connectTo) && l.transport == old(l.transport)
    {
      assert Keeps(ByName) && Keeps(ByOwner);
      var i := Find(name);
      if i < |list| {
        var l := list[i];
        if l.Smart() {
          return InternalError;
        }
        if noRebind {
          return CannotRebind;
        }
        Rebind(l, connectTo, transport);
        return Ok;
      }
      if listen.NoListen? {
        return CannotBind;
      }
      var l := Add(listen.fd, FinalName(name, listen), connectTo, transport);
      return Ok;
    }

    /** remove_listener */
    method RemoveListener(name: Name) returns (status: InstallStatus)
      requires Valid()
      modifies `list, `fds, transports
      ensures Valid()
      ensures status == if exists l :: l in old(list) && l.localName == name then Ok else ListenerNotFound
      ensures list == Minus(old(list), set l | l in old(list) && l.localName == name)
    {
      assert Keeps(ByName);
      var i := Find(name);
      if i < |list| {
        assert (set l | l in list && l.localName == name) == {list[i]};
        Erase(i);
        return Ok;
      }
      assert (set l | l in list && l.localName == name) == {};
      MinusNone(list, {});
      return ListenerNotFound;
    }

    /** The listeners that are not the server's own. */
    ghost function Forwards(): set<Listener>
      reads `list, (set l | l in list)`connectTo
    {
      set l | l in list && !l.Smart()
    }

    /** The loop of remove_all_listeners. */
    method RemoveForwards()
      requires Valid()
      modifies `list, `fds, transports
      ensures Valid()
      ensures list == Minus(old(list), old(Forwards()))
    {
      ghost var all, gone: set<Listener> := Forwards(), {};
      MinusNone(list, {});
      var i := 0;
      while i < |list|
        invariant Valid() && i <= |list| && gone <= all && list == Minus(old(list), gone)
        invariant forall l :: l in list ==> (l in all <==> !l.Smart())
        invariant forall l :: l in list[..i] ==> l !in all
        decreases |list| - i
      {
        if list[i].Smart() {
          assert list[..i + 1] == list[..i] + [list[i]];
          i := i + 1;
        } else {
          ghost var l := list[i];
          ErasedPrefix(i);
          Erase(i);
          MinusTwice(old(list), gone, {l});
          gone := gone + {l};
        }
      }
      assert list[..i] == list;
      MinusTwice(old(list), gone, all);
      MinusNone(list, all);
      assert gone + all == all;
    }

    /** remove_all_listeners: only the server's own listeners stay. */
    method RemoveAllListeners()
      requires Valid()
      modifies `list, `fds, transports
      ensures Valid()
      ensures list == Minus(old(list), old(Forwards()))
      ensures forall l :: l in list <==> l in old(list) && l.connectTo != [] && l.connectTo[0] == '*'
    {
      MinusMembers(list, Forwards());
      RemoveForwards();
    }

    /** Erasing position i leaves what is before it, and adds nothing. */
    lemma ErasedPrefix(i: nat)
      requires Valid() && i < |list|
      ensures var r := Minus(list, {list[i]});
        && i <= |r| < |list| && r[..i] == list[..i] && (forall l :: l in r ==> l in list)
    {
      assert Keeps(ByName);
      WithoutIsMinus(list, i);
      MinusMembers(list, {list[i]});
    }

    /** The invariant while t runs its disconnect callbacks: the listeners in gone have left, and t still lists them. */
    ghost predicate ValidBut(t: Atransport, gone: set<Listener>)
      reads this, list, transports
    {
      && Names() && Owned() && t in transports
      && (forall u :: u in transports && u != t ==> Bound(u))
      && NoDuplicates(t.disconnects)
      && (forall l :: l in t.disconnects && l !in gone ==> l in list && l.transport == t)
      && (forall l :: l in list && l.transport == t ==> l in t.disconnects && l !in gone)
    }

    /** listener_disconnect, run by t: the listener goes, without touching the list that is being walked. */
    method ListenerDisconnect(l: Listener, t: Atransport, ghost gone: set<Listener>)
      requires ValidBut(t, gone) && l in t.disconnects && l !in gone
      modifies `list, `fds, l`transport
      ensures ValidBut(t, gone + {l}) && list == Minus(old(list), {l}) && fds == old(fds) - {l.fd}
    {
      var i := Find(l.localName);
      assert list[i] == l;
      WithoutIsMinus(list, i);
      MinusMembers(list, {l});
      MinusDistinct(list, {l});
      l.transport := null;
      list := Without(list, i);
      fds := fds - {l.fd};
    }

    ghost function BoundTo(t: Atransport): set<Listener>
      reads `list, (set l | l in list)`transport
    {
      set l | l in list && l.transport == t
    }

    /** The loop of RunDisconnects, which leaves the list it walks alone. */
    method WalkDisconnects(t: Atransport, ghost all: set<Listener>)
      requires ValidBut(t, {}) && forall l :: l in t.disconnects <==> l in all
      modifies `list, `fds, set l | l in list && l.transport == t
      ensures ValidBut(t, all) && t.disconnects == old(t.disconnects)
      ensures list == Minus(old(list), all)
    {
      ghost var gone: set<Listener> := {};
      MinusNone(list, {});
      var i := 0;
      while i < |t.disconnects|
        invariant i <= |t.disconnects| && t.disconnects == old(t.disconnects) && ValidBut(t, gone)
        invariant FirstAre(t.disconnects, i, gone)
        invariant gone <= all && list == Minus(old(list), gone)
      {
        var l := t.disconnects[i];
        OneMore(t.disconnects, i, gone);
        MinusTwice(old(list), gone, {l});
        ListenerDisconnect(l, t, gone);
        gone := gone + {l};
        i := i + 1;
      }
      assert gone == all;
    }

    /** RunDisconnects: afterwards no listener is bound to t, and the others are as they were. */
    method RunDisconnects(t: Atransport)
      requires Valid() && t in transports
      modifies `list, `fds, t, set l | l in list && l.transport == t
      ensures Valid() && t.disconnects == [] && forall l :: l in list ==> l.transport != t
      ensures list == Minus(old(list), old(BoundTo(t)))
    {
      assert Keeps(ByName) && Keeps(ByOwner) && Keeps(ByTransport) && Bound(t);
      ghost var all := BoundTo(t);
      WalkDisconnects(t, all);
      t.disconnects := [];
      assert Names() && Owned() && Counted();
    }
  }
}
