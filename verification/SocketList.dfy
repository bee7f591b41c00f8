/**
 asocket as an object: two circular doubly linked lists are threaded through the sockets themselves
 (insert_local_socket and remove_socket of src/sockets.cpp).
 */
module SocketList {
  import opened Lists
  import opened Stream

  /** Which family of function pointers a socket carries; a list head carries none. */
  datatype Kind = Head | Local | Remote

  /** FDE_READ and FDE_WRITE in fde.state, and the same bits in fde.events. */
  datatype Fde = Fde(rd: bool, wr: bool, evR: bool, evW: bool)

  const IDLE: Fde := Fde(false, false, false, false)

  /** fdevent_set: pending events that are no longer wanted are dropped. */
  function SetFde(f: Fde, rd: bool, wr: bool): Fde {
    if f.rd == rd && f.wr == wr then f else Fde(rd, wr, f.evR && rd, f.evW && wr)
  }

  /** What has passed through a socket's descriptor; the words are those of Stream.Sock. */
  datatype Past = Past(early: Data, taken: Data, late: Data, got: Data, wrote: Data, hup: bool)

  const NO_PAST: Past := Past([], [], [], [], [], false)

  ghost function Obj(p: Asocket?): set<Asocket> {
    if p == null then {} else {p}
  }

  class Asocket {
    const kind: Kind
    var next: Asocket?
    var prev: Asocket?
    var id: nat
    var transport: nat           // 0: none
    var closing: bool
    var writeError: bool
    var peer: Asocket?
    var fde: Fde
    var queue: seq<Data>         // unwritten rest of the packets from pkt_first to pkt_last
    ghost var name: nat          // the id it was installed with
    ghost var freed: bool
    ghost var past: Past

    constructor (kind: Kind, id: nat, transport: nat)
      ensures this.kind == kind && this.id == id && this.transport == transport
      ensures next == null && prev == null && peer == null && !closing && !writeError && !freed && name == id
      ensures fde == IDLE && queue == [] && past == NO_PAST
    {
      this.kind, this.id, this.transport := kind, id, transport;
      next, prev, peer, closing, writeError, freed, name := null, null, null, false, false, false, id;
      fde, queue, past := IDLE, [], NO_PAST;
    }

    ghost function Where(): Place
      reads `freed, `closing
    {
      if freed then Freed else if closing then Closing else Active
    }

    /** The socket as module Stream describes it, its peer aside. */
    ghost function Own(): Sock
      reads `freed, `closing, `fde, `queue, `writeError, `past
    {
      Sock(Where(), 0, fde.rd, fde.wr, fde.evR, fde.evW, queue, writeError,
           past.early, past.taken, past.late, past.got, past.wrote, past.hup)
    }

    /** The socket as module Stream describes it. */
    ghost function Abs(): Sock
      reads `peer, `freed, `closing, `fde, `queue, `writeError, `past, Obj(peer)`id
    {
      if peer == null then Own() else Own().(peer := peer.id)
    }
  }

  /** Position i of the circle formed by head and spine; both ends are head. */
  ghost function At(head: Asocket, spine: seq<Asocket>, i: int): Asocket {
    if 0 <= i < |spine| then spine[i] else head
  }

  /** No socket occurs twice on the circle. */
  ghost predicate Distinct(head: Asocket, spine: seq<Asocket>) {
    && head !in spine
    && NoDuplicates(spine)
  }

  /** head and the sockets of spine, in this order, form one circular doubly linked list. */
  ghost predicate Linked(head: Asocket, spine: seq<Asocket>)
    reads head`next, head`prev, (set o | o in spine)`next, (set o | o in spine)`prev
  {
    && head.next == At(head, spine, 0)
    && head.prev == At(head, spine, |spine| - 1)
    && (forall i :: 0 <= i < |spine| ==> LinkedAt(head, spine, i))
  }

  ghost predicate LinkedAt(head: Asocket, spine: seq<Asocket>, i: nat)
    requires i < |spine|
    reads (set o | o in spine)`next, (set o | o in spine)`prev
  {
    spine[i].next == At(head, spine, i + 1) && spine[i].prev == At(head, spine, i - 1)
  }

  ghost predicate Ring(head: Asocket, spine: seq<Asocket>)
    reads head`next, head`prev, (set o | o in spine)`next, (set o | o in spine)`prev
  {
    Distinct(head, spine) && Linked(head, spine)
  }

  /** A list none of whose links were written is still a list. */
  twostate lemma RingStays(head: Asocket, new spine: seq<Asocket>)
    requires old(allocated(spine))
    requires old(Ring(head, spine))
    requires unchanged(head`next) && unchanged(head`prev)
    requires forall s: Asocket :: s in spine ==> unchanged(s`next, s`prev)
    ensures Ring(head, spine)
  {
    forall i | 0 <= i < |spine| ensures LinkedAt(head, spine, i) {
      assert old(LinkedAt(head, spine, i));
    }
  }

  /** insert_local_socket: at the tail. */
  method InsertLocalSocket(s: Asocket, list: Asocket, ghost spine: seq<Asocket>)
    requires Ring(list, spine) && s !in spine && s != list
    modifies s`next, s`prev, list`next, list`prev, (set o | o in spine)`next, (set o | o in spine)`prev
    ensures Ring(list, spine + [s])
  {
    ghost var n := |spine|;
    ghost var longer := spine + [s];
    ghost var last := At(list, spine, n - 1);
    assert forall i :: 0 <= i < n ==> LinkedAt(list, spine, i);
    s.next := list;
    s.prev := s.next.prev;
    assert s.prev == last;
    s.prev.next := s;
    s.next.prev := s;
    forall i | 0 <= i < |longer| ensures LinkedAt(list, longer, i) {
      if i < n {
        assert old(LinkedAt(list, spine, i));
        assert longer[i] == spine[i] && (i < n - 1 ==> spine[i] != last);
      }
    }
  }

  /** The neighbours in a list without position k, in terms of the positions in the list with it. */
  lemma WithoutAt(head: Asocket, q: seq<Asocket>, k: nat, i: nat)
    requires k < |q| && i < |q| - 1
    ensures var m := if i < k then i else i + 1; var r := Without(q, k);
      && r[i] == q[m]
      && At(head, r, i + 1) == (if m + 1 == k then At(head, q, k + 1) else At(head, q, m + 1))
      && At(head, r, i - 1) == (if m - 1 == k then At(head, q, k - 1) else At(head, q, m - 1))
  {}

  /** remove_socket: unlink, and forget the id. */
  method RemoveSocket(s: Asocket, ghost list: Asocket, ghost spine: seq<Asocket>, ghost k: nat)
    requires Ring(list, spine) && k < |spine| && spine[k] == s
    modifies s`id, list`next, list`prev, (set o | o in spine)`next, (set o | o in spine)`prev
    ensures Ring(list, Without(spine, k))
    ensures s.id == 0 && s.next == null && s.prev == null
  {
    ghost var shorter := Without(spine, k);
    assert LinkedAt(list, spine, k);
    assert forall i :: 0 <= i < |spine| ==> LinkedAt(list, spine, i);
    ghost var before, after := At(list, spine, k - 1), At(list, spine, k + 1);
    if s.prev != null && s.next != null {
      s.prev.next := s.next;
      s.next.prev := s.prev;
      s.next := null;
      s.prev := null;
      s.id := 0;
    }
    assert before.next == after && after.prev == before;
    forall i | 0 <= i < |shorter| ensures LinkedAt(list, shorter, i) {
      var m := if i < k then i else i + 1;
      assert old(LinkedAt(list, spine, m)) && spine[m] != s;
      WithoutAt(list, spine, k, i);
      assert m + 1 != k ==> spine[m] != before;
      assert m - 1 != k ==> spine[m] != after;
    }
  }
}
