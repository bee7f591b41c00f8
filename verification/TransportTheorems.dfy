/**
 What holds of a transport in every interleaving of its reader thread, its writer thread and the main
 thread: it is closed and removed once, only what was queued while online reaches the remote, and it is
 deleted in the end.
 */
module TransportTheorems {
  import opened Bytes
  import opened Transport

  /** A thread that has not dropped its reference. */
  predicate InUse(s: State, who: Thread) {
    Holds(At(s, who))
  }

  /** The remove message is posted by a thread that finds the other one gone, and goes itself. */
  lemma RemovedWhenGone(b: Book, r: Place, w: Place)
    requires Books(b, r, w)
    ensures b.removals == 1 <==> r == w == Gone
    ensures b.removals <= b.closes <= 1
    ensures b.closes == 1 ==> !Holds(r) && !Holds(w)
    ensures Holds(r) || Holds(w) ==> b.refs > 0
  {}

  lemma CountedOnce(phase: Phase, threads: bool, b: Book, r: Place, w: Place)
    requires Counted(phase, threads, b, r, w)
    ensures b.removals <= b.closes <= 1
    ensures b.closes == 1 ==> !Holds(r) && !Holds(w)
    ensures phase.Deleted? <==> b.removals == 1 && b.removal == 0
    ensures phase.Deleted? || b.removal == 1 ==> r == w == Gone
    ensures b.refs == 0 && threads && !phase.Registering? ==> !Holds(r) && !Holds(w)
  {
    if threads && !phase.Registering? {
      RemovedWhenGone(b, r, w);
    }
  }

  /** A call of kick_transport that finds t on transport_list: by the main thread, or by a thread on its way out. */
  predicate Kicks(s: State, a: Action) {
    Enabled(s, a) && s.phase.Listed? && (a == Main(KickIt) || (a.Exit? && At(s, a.who).Kick?))
  }

  predicate KickedIn(s: State, run: seq<Action>)
    decreases |run|
  {
    run != [] && (Kicks(s, run[0]) || KickedIn(Next(s, run[0]), run[1..]))
  }

  function Next(s: State, a: Action): State { if Enabled(s, a) then Step(s, a) else s }

  // What a step of each kind leaves alone.

  lemma MainFrame(s: State, a: MainAction)
    requires MainEnabled(s, a)
    ensures var t := MainStep(s, a);
      && t.reader == s.reader && t.token == s.token
      && t.link == (match a
           case Handle(_, e) => HandledBy(s.link, s.wires.toMain[0], e)
           case KickIt => Kicked(s.phase, s.link)
           case _ => s.link)
      && t.wires.sent == s.wires.sent + (match a
           case Handle(out, _) => Answer(s.wires.toMain[0], out)
           case Send(q) => [q]
           case _ => [])
  {
    assert s.wires.sent + [] == s.wires.sent;
  }

  lemma ReadFrame(s: State, a: ReaderAction)
    requires ReaderEnabled(s, a)
    ensures var t := ReaderStep(s, a);
      && t.link == s.link && t.wires.sent == s.wires.sent && !t.reader.Fresh?
      && t.token == if s.reader.Fresh? then (s.token + 1) % 0x1_0000_0000 else s.token
  {}

  lemma WriteFrame(s: State, a: WriterAction)
    requires WriterEnabled(s, a)
    ensures var t := WriterStep(s, a); t.link == s.link && t.wires.sent == s.wires.sent && t.reader == s.reader && t.token == s.token
  {}

  lemma ExitFrame(s: State, who: Thread)
    requires ExitEnabled(s, who)
    ensures var t := ExitStep(s, who);
      && t.wires == s.wires && t.token == s.token && t.reader.Fresh? == s.reader.Fresh?
      && t.link == if At(s, who).Kick? then Kicked(s.phase, s.link) else s.link
  {}

  lemma KickStep(s: State, a: Action)
    ensures Next(s, a).link.kicked <==> s.link.kicked || Kicks(s, a)
  {
    if Enabled(s, a) {
      match a
      case Main(m) => MainFrame(s, m);
      case Read(r) => ReadFrame(s, r);
      case Write(w) => WriteFrame(s, w);
      case Exit(who) => ExitFrame(s, who);
    }
  }

  lemma TokenStep(s: State, a: Action)
    ensures var t := Next(s, a);
      && (t.reader.Fresh? ==> s.reader.Fresh? && t.token == s.token)
      && (!t.reader.Fresh? ==> t.token == if s.reader.Fresh? then (s.token + 1) % 0x1_0000_0000 else s.token)
  {
    if Enabled(s, a) {
      match a
      case Main(m) => MainFrame(s, m);
      case Read(r) => ReadFrame(s, r);
      case Write(w) => WriteFrame(s, w);
      case Exit(who) => ExitFrame(s, who);
    }
  }

  lemma {:induction false} KickedExactly(s: State, run: seq<Action>)
    ensures Run(s, run).link.kicked <==> s.link.kicked || KickedIn(s, run)
    decreases |run|
  {
    if run != [] {
      KickStep(s, run[0]);
      KickedExactly(Next(s, run[0]), run[1..]);
    }
  }

  /** The SYNC token is counted up once, on 32 bits, when the reader starts. */
  lemma {:induction false} TokenIs(s: State, run: seq<Action>)
    ensures var t := Run(s, run);
      && (t.reader.Fresh? ==> s.reader.Fresh? && t.token == s.token)
      && (!t.reader.Fresh? ==> t.token == if s.reader.Fresh? then (s.token + 1) % 0x1_0000_0000 else s.token)
    decreases |run|
  {
    if run != [] {
      TokenStep(s, run[0]);
      TokenIs(Next(s, run[0]), run[1..]);
    }
  }

  /** handle_packet's last word on the connection, if a is not one itself. */
  predicate OnlineBy(s: State, a: Action, was: bool) {
    if !Enabled(s, a) || !a.Main? || !a.m.Handle? || a.m.effect.Keep? then was else !a.m.effect.GoOffline?
  }

  predicate OnlineIn(s: State, run: seq<Action>, was: bool)
    decreases |run|
  {
    if run == [] then was else OnlineIn(Next(s, run[0]), run[1..], OnlineBy(s, run[0], was))
  }

  lemma OnlineStep(s: State, a: Action)
    ensures Next(s, a).link.online <==> OnlineBy(s, a, s.link.online)
  {
    if Enabled(s, a) {
      match a
      case Main(m) => MainFrame(s, m);
      case Read(r) => ReadFrame(s, r);
      case Write(w) => WriteFrame(s, w);
      case Exit(who) => ExitFrame(s, who);
    }
  }

  /** t->online is what handle_packet made of it last. */
  lemma {:induction false} OnlineIs(s: State, run: seq<Action>)
    ensures Run(s, run).link.online <==> OnlineIn(s, run, s.link.online)
    decreases |run|
  {
    if run != [] {
      OnlineStep(s, run[0]);
      OnlineIs(Next(s, run[0]), run[1..]);
    }
  }

  /**
   close, the remove message and the kick happen at most once; close and the remove message wait for both
   threads to drop their references, in that order; and no thread finds the count at zero. The kick does happen
   once kick_transport is called for a listed transport, be it by a thread that leaves.
   */
  lemma ClosedOnce(host: bool, threads: bool, token: nat, run: seq<Action>)
    ensures var s := After(host, threads, token, run);
      && s.book.removals <= s.book.closes <= 1 && s.link.kicks <= 1
      && (s.link.kicks == 1 <==> KickedIn(Begin(host, threads, token), run))
      && (s.book.closes == 1 ==> !InUse(s, ReaderThread) && !InUse(s, WriterThread))
      && (s.phase.Deleted? <==> s.book.removals == 1 && s.book.removal == 0)
      && (Alive(s) && (InUse(s, ReaderThread) || InUse(s, WriterThread)) ==> s.book.refs > 0)
  {
    Reachable(host, threads, token, run);
    var s := After(host, threads, token, run);
    KickedExactly(Begin(host, threads, token), run);
    CountedOnce(s.phase, s.threads, s.book, At(s, ReaderThread), At(s, WriterThread));
  }

  /** Once t is deleted nobody is left to use it: no step of any thread is possible. */
  lemma DeletedIsFinal(host: bool, threads: bool, token: nat, run: seq<Action>, a: Action)
    requires After(host, threads, token, run).phase.Deleted?
    ensures !Enabled(After(host, threads, token, run), a)
  {
    Reachable(host, threads, token, run);
    AllGone(After(host, threads, token, run));
    NothingEnabled(After(host, threads, token, run), a);
  }

  lemma AllGone(s: State)
    requires Counted(s.phase, s.threads, s.book, At(s, ReaderThread), At(s, WriterThread)) && s.phase.Deleted?
    ensures s.reader == Leaving(Gone) && s.writer == Departing(Gone)
  {
    CountedOnce(s.phase, s.threads, s.book, At(s, ReaderThread), At(s, WriterThread));
  }

  lemma NothingEnabled(s: State, a: Action)
    requires s.phase.Deleted? && s.reader == Leaving(Gone) && s.writer == Departing(Gone)
    ensures !Enabled(s, a)
  {
    match a
    case Main(m) =>
    case Read(r) =>
    case Write(w) =>
    case Exit(who) =>
  }

  // ---------------------------------------------------------------- which packets get through

  /** The main thread handles SYNC(1, token), then what came from the remote, in order, then SYNC(0). */
  lemma HandledInOrder(host: bool, threads: bool, token: nat, run: seq<Action>)
    ensures var s := After(host, threads, token, run);
      Prefix(s.wires.handled, [Sync(1, s.token)] + Kept(s.host, s.wires.taken) + [Sync(0, 0)])
  {
    Reachable(host, threads, token, run);
    var s := After(host, threads, token, run);
    OffersPrefix(s.reader, s.wires.posted, Stream(s));
    PrefixOfConcat(s.wires.handled, s.wires.toMain);
    PrefixTrans(s.wires.handled, s.wires.posted, Stream(s) + [Sync(0, 0)]);
  }

  predicate Opens(p: Packet, token: nat) {
    p.Sync? && p.arg0 != 0 && p.arg1 == token
  }

  function UpToOffline(q: seq<Packet>): seq<Packet> {
    if q == [] || Offline(q[0]) then [] else [q[0]] + UpToOffline(q[1..])
  }

  /** What follows the first SYNC(1, token), up to the first SYNC(0). */
  function Window(q: seq<Packet>, token: nat): seq<Packet> {
    if q == [] || Offline(q[0]) then []
    else if Opens(q[0], token) then UpToOffline(q[1..])
    else Window(q[1..], token)
  }

  function Plain(q: seq<Packet>): seq<Packet> {
    if q == [] then [] else (if q[0].Sync? then [] else [q[0]]) + Plain(q[1..])
  }

  predicate Opened(q: seq<Packet>, token: nat) {
    exists p :: p in q && Opens(p, token)
  }

  lemma {:induction false} PlainAppend(p: seq<Packet>, q: seq<Packet>)
    ensures Plain(p + q) == Plain(p) + Plain(q)
  {
    if p == [] {
      assert p + q == q;
    } else {
      assert (p + q)[1..] == p[1..] + q;
      PlainAppend(p[1..], q);
    }
  }

  lemma {:induction false} UpToOfflinePrefix(q: seq<Packet>, r: seq<Packet>)
    ensures Prefix(UpToOffline(q), UpToOffline(q + r))
    ensures NoOffline(q) ==> UpToOffline(q) == q
  {
    if q != [] {
      assert (q + r)[1..] == q[1..] + r;
      UpToOfflinePrefix(q[1..], r);
    }
  }

  lemma {:induction false} WindowPrefix(q: seq<Packet>, r: seq<Packet>, token: nat)
    ensures Prefix(Window(q, token), Window(q + r, token))
  {
    if q != [] {
      assert (q + r)[1..] == q[1..] + r;
      WindowPrefix(q[1..], r, token);
      UpToOfflinePrefix(q[1..], r);
    }
  }

  lemma {:induction false} WindowSnoc(q: seq<Packet>, p: Packet, token: nat)
    requires NoOffline(q + [p])
    ensures Window(q + [p], token) == if Opened(q, token) then Window(q, token) + [p] else []
    ensures Opened(q + [p], token) <==> Opened(q, token) || Opens(p, token)
    ensures !Opened(q, token) ==> Window(q, token) == []
  {
    assert p in q + [p];
    if q == [] {
      assert q + [p] == [p] && Window([p][1..], token) == [];
    } else {
      assert (q + [p])[1..] == q[1..] + [p];
      assert forall x :: x in q <==> x == q[0] || x in q[1..];
      WindowSnoc(q[1..], p, token);
      UpToOfflinePrefix(q[1..], []);
      UpToOfflinePrefix(q[1..] + [p], []);
    }
  }

  /** The writer, which decides packet by packet, passes on exactly the window. */
  lemma {:induction false} RelayIsWindow(q: seq<Packet>, token: nat)
    requires NoOffline(q)
    ensures Relay(q, token) == (Plain(Window(q, token)), Opened(q, token))
  {
    if q != [] {
      var f, p := q[..|q| - 1], q[|q| - 1];
      assert q == f + [p];
      RelayIsWindow(f, token);
      WindowSnoc(f, p, token);
      PlainAppend(Window(f, token), [p]);
      assert Plain([p]) == if p.Sync? then [] else [p];
      assert Plain([]) == [];
      assert Relay(q, token).1 == Opened(q, token);
      assert Relay(q, token).0 == Plain(Window(q, token));
    }
  }

  /** Nor does one more packet take anything back; if it is SYNC(0) it adds nothing. */
  lemma WindowOfOneMore(f: seq<Packet>, p: Packet, token: nat)
    requires NoOffline(f)
    ensures Prefix(Relay(f, token).0, Plain(Window(f + [p], token)))
  {
    RelayIsWindow(f, token);
    WindowPrefix(f, [p], token);
    PlainPrefix(Window(f, token), Window(f + [p], token));
  }

  /** SYNC is never passed on. */
  lemma RelayOfSync(f: seq<Packet>, p: Packet, token: nat)
    requires p.Sync?
    ensures Relay(f + [p], token).0 == Relay(f, token).0
  {
    Snoc(f, p);
  }

  /** What the writer has let through is the window of all it read, or of all but the last packet. */
  lemma RemoteIsWindow(writer: Writer, left: bool, active: bool, token: nat, q: seq<Packet>, remote: seq<Packet>)
    requires Relayed(writer, active, token, q, remote) && Parted(writer, left, q)
    ensures Prefix(remote, Plain(Window(q, token)))
    ensures writer.Waiting? ==> remote == Plain(Window(q, token))
  {
    assert NoOffline(Front(q));
    if q == [] {
      RelayIsWindow(q, token);
    } else {
      var f, p := Front(q), q[|q| - 1];
      assert q == f + [p];
      WindowOfOneMore(f, p, token);
      if Offline(p) {
        RelayOfSync(f, p, token);
      } else {
        assert NoOffline(q);
        RelayIsWindow(q, token);
      }
    }
  }

  lemma PlainPrefix(p: seq<Packet>, q: seq<Packet>)
    requires Prefix(p, q)
    ensures Prefix(Plain(p), Plain(q))
  {
    PlainAppend(p, q[|p|..]);
    assert q == p + q[|p|..];
  }

  /**
   Only packets queued after the echoed SYNC(1, token) and before a SYNC(0) reach the remote, in order
   and without gaps; a writer that waits for its next packet has passed on all of those it read.
   */
  lemma OnlyOnlinePacketsReachTheRemote(host: bool, threads: bool, token: nat, run: seq<Action>)
    ensures var s := After(host, threads, token, run);
      && Prefix(s.wires.remote, Plain(Window(s.wires.sent, s.token)))
      && (s.writer.Waiting? && s.wires.toWriter == [] ==> s.wires.remote == Plain(Window(s.wires.sent, s.token)))
  {
    Reachable(host, threads, token, run);
    var s := After(host, threads, token, run);
    RemoteIsWindow(s.writer, s.leftBySync, s.active, s.token, s.wires.consumed, s.wires.remote);
    WindowPrefix(s.wires.consumed, s.wires.toWriter, s.token);
    PlainPrefix(Window(s.wires.consumed, s.token), Window(s.wires.sent, s.token));
    PrefixTrans(s.wires.remote, Plain(Window(s.wires.consumed, s.token)), Plain(Window(s.wires.sent, s.token)));
    if s.wires.toWriter == [] { assert s.wires.sent == s.wires.consumed; }
  }

  /** What the main thread says, echoes of SYNC aside: the answers of handle_packet, and what sockets send. */
  function SaidBy(s: State, a: Action): seq<Packet> {
    if !Enabled(s, a) || !a.Main? then []
    else match a.m
      case Handle(out, _) => out
      case Send(q) => [q]
      case _ => []
  }

  function Said(s: State, run: seq<Action>): seq<Packet>
    decreases |run|
  {
    if run == [] then [] else SaidBy(s, run[0]) + Said(Next(s, run[0]), run[1..])
  }

  lemma {:induction false} PlainNone(q: seq<Packet>)
    requires NoSync(q)
    ensures Plain(q) == q
  {
    if q != [] { PlainNone(q[1..]); }
  }

  lemma PlainAnswer(p: Packet, out: seq<Packet>)
    requires NoSync(out)
    ensures Plain(Answer(p, out)) == out
  {
    PlainNone(out);
    PlainAppend([p], out);
    PlainAppend(out, [p]);
    assert [p][1..] == [];
  }

  lemma SaidStep(s: State, a: Action)
    ensures Plain(Next(s, a).wires.sent) == Plain(s.wires.sent) + SaidBy(s, a)
  {
    assert Plain(s.wires.sent) + [] == Plain(s.wires.sent);
    if Enabled(s, a) {
      match a
      case Main(m) => MainFrame(s, m); SaidByMain(s, m);
      case Read(r) => ReadFrame(s, r);
      case Write(w) => WriteFrame(s, w);
      case Exit(who) => ExitFrame(s, who);
    }
  }

  lemma SaidByMain(s: State, m: MainAction)
    requires MainEnabled(s, m)
    ensures Plain(MainStep(s, m).wires.sent) == Plain(s.wires.sent) + SaidBy(s, Main(m))
  {
    MainFrame(s, m);
    match m
    case Handle(out, _) =>
      PlainAnswer(s.wires.toMain[0], out);
      PlainAppend(s.wires.sent, Answer(s.wires.toMain[0], out));
    case Send(q) =>
      PlainNone([q]);
      PlainAppend(s.wires.sent, [q]);
    case _ =>
      assert s.wires.sent + [] == s.wires.sent && Plain(s.wires.sent) + [] == Plain(s.wires.sent);
  }

  lemma {:induction false} SentIsSaid(s: State, run: seq<Action>)
    ensures Plain(Run(s, run).wires.sent) == Plain(s.wires.sent) + Said(s, run)
    decreases |run|
  {
    if run == [] {
      assert Plain(s.wires.sent) + [] == Plain(s.wires.sent);
    } else {
      SentIsSaid(Next(s, run[0]), run[1..]);
      SaidStep(s, run[0]);
      ConcatAssoc(Plain(s.wires.sent), SaidBy(s, run[0]), Said(Next(s, run[0]), run[1..]));
    }
  }

  /** No answer is lost, made up or reordered: the packets sent, SYNC aside, are those the main thread said, on every run. */
  lemma EverythingSaidIsSent(host: bool, threads: bool, token: nat, run: seq<Action>)
    ensures Plain(After(host, threads, token, run).wires.sent) == Said(Begin(host, threads, token), run)
  {
    SentIsSaid(Begin(host, threads, token), run);
    assert [] + Said(Begin(host, threads, token), run) == Said(Begin(host, threads, token), run);
  }

  lemma {:induction false} WindowNone(q: seq<Packet>, token: nat)
    requires forall p :: p in q && p.Sync? ==> p.arg0 == 0 || p.arg1 != token
    ensures Window(q, token) == []
  {
    if q != [] { WindowNone(q[1..], token); }
  }

  /** As long as the SYNC with the current token has not come, nothing at all reaches the remote; SYNCs of old do not count. */
  lemma StaleSyncOpensNothing(host: bool, threads: bool, token: nat, run: seq<Action>)
    requires var s := After(host, threads, token, run);
      forall p :: p in s.wires.sent && p.Sync? ==> p.arg0 == 0 || p.arg1 != s.token
    ensures After(host, threads, token, run).wires.remote == []
  {
    var s := After(host, threads, token, run);
    WindowNone(s.wires.sent, s.token);
    OnlyOnlinePacketsReachTheRemote(host, threads, token, run);
  }

  lemma {:induction false} WindowAppend(q: seq<Packet>, r: seq<Packet>, token: nat)
    requires NoOffline(q)
    ensures Window(q + r, token) == if Opened(q, token) then Window(q, token) + UpToOffline(r) else Window(r, token)
  {
    if q == [] {
      assert q + r == r;
    } else {
      assert (q + r)[1..] == q[1..] + r;
      assert forall x :: x in q <==> x == q[0] || x in q[1..];
      if Opens(q[0], token) {
        UpToOfflineAppend(q[1..], r);
      } else {
        WindowAppend(q[1..], r, token);
      }
    }
  }

  lemma {:induction false} UpToOfflineAppend(q: seq<Packet>, r: seq<Packet>)
    requires NoOffline(q)
    ensures UpToOffline(q + r) == q + UpToOffline(r) && UpToOffline(q) == q
  {
    if q == [] {
      assert q + r == r;
    } else {
      assert (q + r)[1..] == q[1..] + r;
      UpToOfflineAppend(q[1..], r);
      assert q == [q[0]] + q[1..];
      ConcatAssoc([q[0]], q[1..], UpToOffline(r));
    }
  }

  /**
   The echo comes at the right place: what handle_packet says when it sees the awaited SYNC is the first to get
   through to the remote, and what it says at SYNC(0) still does.
   */
  lemma AnswersGetThrough(q: seq<Packet>, p: Packet, out: seq<Packet>, token: nat)
    requires NoOffline(q) && NoSync(out) && p.Sync?
    ensures p.arg0 != 0 && p.arg1 == token && !Opened(q, token) ==> Window(q + Answer(p, out), token) == out
    ensures p.arg0 == 0 && Opened(q, token) ==> Window(q + Answer(p, out), token) == Window(q, token) + out
  {
    WindowAppend(q, Answer(p, out), token);
    UpToOfflineAppend(out, [p]);
    UpToOfflineAppend(out, []);
    assert out + [] == out;
    if p.arg0 != 0 {
      assert ([p] + out)[1..] == out;
    } else {
      assert UpToOffline([p]) == [];
    }
  }

  // ---------------------------------------------------------------- SYNC

  lemma {:induction false} KeptAppend(host: bool, p: seq<Packet>, q: seq<Packet>)
    ensures Kept(host, p + q) == Kept(host, p) + Kept(host, q)
  {
    if q == [] {
      assert p + q == p && Kept(host, p) + [] == Kept(host, p);
    } else {
      var f, x := q[..|q| - 1], q[|q| - 1];
      KeptAppend(host, p, f);
      assert (p + q)[..|p + q| - 1] == p + f;
      ConcatAssoc(Kept(host, p), Kept(host, f), if host && x.Blank? then [] else [x]);
    }
  }

  /** The device's reader drops no packet... */
  lemma {:induction false} DeviceKeepsAll(q: seq<Packet>)
    ensures Kept(false, q) == q
  {
    if q != [] {
      DeviceKeepsAll(q[..|q| - 1]);
      assert q == q[..|q| - 1] + [q[|q| - 1]];
    }
  }

  /** ...and the host's those with command 0, and no others. */
  lemma {:induction false} HostDropsBlanks(q: seq<Packet>, x: Packet)
    ensures x in Kept(true, q) <==> x in q && x != Blank
  {
    if q != [] {
      HostDropsBlanks(q[..|q| - 1], x);
      assert x in q <==> x in q[..|q| - 1] || x == q[|q| - 1];
    }
  }

  lemma {:induction false} KeptNoSync(host: bool, q: seq<Packet>)
    requires NoSync(q)
    ensures NoSync(Kept(host, q))
  {
    if q != [] { KeptNoSync(host, q[..|q| - 1]); }
  }

  lemma SyncsPrefix(p: seq<Packet>, q: seq<Packet>)
    requires Prefix(p, q)
    ensures Prefix(Syncs(p), Syncs(q))
  {
    SyncsAppend(p, q[|p|..]);
    assert q == p + q[|p|..];
  }

  /** In a stream framed by two SYNC packets those are the only ones. */
  lemma FramedSyncs(p: Packet, k: seq<Packet>, r: Packet)
    requires NoSync(k) && p.Sync? && r.Sync?
    ensures Syncs([p] + k + [r]) == [p, r]
  {
    SyncsNone(k);
    SyncsAppend([p], k);
    SyncsAppend([p] + k, [r]);
    assert Syncs([]) == [] && [p][..0] == [] && [r][..0] == [];
    assert Syncs([p]) == [p] && Syncs([r]) == [r];
  }

  /** If no SYNC comes from the remote, the writer sees the reader's own SYNC(1, token) and SYNC(0), once each and in that order. */
  lemma OwnSyncsOnly(host: bool, threads: bool, token: nat, run: seq<Action>)
    requires NoSync(After(host, threads, token, run).wires.taken)
    ensures var s := After(host, threads, token, run); Prefix(Syncs(s.wires.sent), [Sync(1, s.token), Sync(0, 0)])
  {
    Reachable(host, threads, token, run);
    HandledInOrder(host, threads, token, run);
    var s := After(host, threads, token, run);
    KeptNoSync(s.host, s.wires.taken);
    FramedSyncs(Sync(1, s.token), Kept(s.host, s.wires.taken), Sync(0, 0));
    SyncsPrefix(s.wires.handled, Stream(s) + [Sync(0, 0)]);
  }

  lemma {:induction false} OfflineIsSync(q: seq<Packet>, i: nat)
    requires i < |q| && Offline(q[i])
    ensures q[i] in Syncs(q)
  {
    if i < |q| - 1 { OfflineIsSync(q[..|q| - 1], i); }
  }

  lemma {:induction false} SyncsIn(q: seq<Packet>, p: Packet)
    requires p in Syncs(q)
    ensures p in q
  {
    if p in Syncs(q[..|q| - 1]) { SyncsIn(q[..|q| - 1], p); }
  }

  /** A beginning of the stream that has a SYNC(0) is all of it. */
  lemma WholeStream(q: seq<Packet>, stream: seq<Packet>)
    requires NoOffline(stream) && Prefix(q, stream + [Sync(0, 0)])
    ensures !NoOffline(q) <==> q == stream + [Sync(0, 0)]
  {
    var all := stream + [Sync(0, 0)];
    assert all[|stream|] == Sync(0, 0);
    if |q| <= |stream| {
      assert q == stream[..|q|];
    } else {
      assert q == all && q[|stream|] in q && Offline(q[|stream|]);
    }
  }

  lemma StreamNoOffline(s: State)
    requires NoSync(s.wires.taken)
    ensures NoOffline(Stream(s))
  {
    KeptNoSync(s.host, s.wires.taken);
  }

  /** With no SYNC from the remote, SYNC(0) is the last packet the reader puts, and it then leaves. */
  lemma HandledFarewell(s: State)
    requires Inv(s) && NoSync(s.wires.taken)
    ensures !NoOffline(s.wires.handled) <==> !NoOffline(s.wires.posted) && s.wires.toMain == []
    ensures !NoOffline(s.wires.handled) ==> !s.link.online && s.reader.Leaving?
  {
    var stream, handled, posted := Stream(s), s.wires.handled, s.wires.posted;
    StreamNoOffline(s);
    OffersPrefix(s.reader, posted, stream);
    WholeStream(posted, stream);
    PrefixOfConcat(handled, s.wires.toMain);
    PrefixTrans(handled, posted, stream + [Sync(0, 0)]);
    WholeStream(handled, stream);
    Finished(s.reader, posted, stream);
  }

  lemma Finished(r: Reader, posted: seq<Packet>, stream: seq<Packet>)
    requires Offers(r, posted, stream) && stream != []
    ensures posted == stream + [Sync(0, 0)] ==> r.Leaving?
  {
    assert r.Putting? ==> |posted + [r.p]| == |posted| + 1;
  }

  /**
   Offline precedes deletion exactly when the reader managed to put SYNC(0) and the main thread has left
   nothing unread on transport_socket. This holds at every moment, so also when the remove message is
   about to be dispatched and in the deleted transport. handle_offline has then run, and t->online stays
   false. (No SYNC comes from the remote.)
   */
  lemma OfflineExactly(host: bool, threads: bool, token: nat, run: seq<Action>)
    requires NoSync(After(host, threads, token, run).wires.taken)
    ensures var s := After(host, threads, token, run);
      && (s.link.farewells > 0 <==> s.wires.toMain == [] && exists p :: p in s.wires.posted && Offline(p))
      && (s.link.farewells > 0 ==> s.link.offlines > 0 && !s.link.online && s.reader.Leaving?)
  {
    Reachable(host, threads, token, run);
    HandledFarewell(After(host, threads, token, run));
  }

  /** Whatever the remote sends: if the writer left by reading SYNC(0), handle_offline ran for that packet before. */
  lemma OfflineBeforeDeletion(host: bool, threads: bool, token: nat, run: seq<Action>)
    requires After(host, threads, token, run).leftBySync
    ensures After(host, threads, token, run).link.farewells > 0
  {
    Reachable(host, threads, token, run);
    var s := After(host, threads, token, run);
    var n := |s.wires.consumed| - 1;
    assert s.wires.sent[n] == s.wires.consumed[n];
    OfflineIsSync(s.wires.sent, n);
    SyncsIn(s.wires.handled, s.wires.sent[n]);
  }

  lemma {:induction false} RunAppend(s: State, run: seq<Action>, more: seq<Action>)
    ensures Run(s, run + more) == Run(Run(s, run), more)
    decreases |run|
  {
    if run == [] {
      assert run + more == more;
    } else {
      assert (run + more)[1..] == run[1..] + more;
      RunAppend(if Enabled(s, run[0]) then Step(s, run[0]) else s, run[1..], more);
    }
  }

  lemma Extend(s0: State, run: seq<Action>, s: State, a: Action) returns (longer: seq<Action>, s1: State)
    requires Run(s0, run) == s && Enabled(s, a)
    ensures s1 == Step(s, a) && longer == run + [a] && Run(s0, longer) == s1
  {
    longer, s1 := run + [a], Step(s, a);
    RunAppend(s0, run, [a]);
    assert [a][1..] == [];
  }

  /** A run up to the point where SYNC(1) is on its way to the writer. */
  lemma Starting() returns (run: seq<Action>, s: State)
    ensures Run(Begin(true, true, 0), run) == s
    ensures s == State(true, true, Listed, Book(2, 0, 0, 0), 1, Reading, Waiting, false, false, Link(false, 0, 0, false, 0), s.wires)
    ensures s.wires.toMain == [] && s.wires.toWriter == [Sync(1, 1), Blank, Other(1)]
  {
    var s0 := Begin(true, true, 0);
    run, s := Extend(s0, [], s0, Main(Start));
    run, s := Extend(s0, run, s, Main(List));
    run, s := Extend(s0, run, s, Read(Announce));
    run, s := Extend(s0, run, s, Read(Put(true)));
    run, s := Extend(s0, run, s, Main(Handle([Blank, Other(1)], Keep)));
  }

  /** A run up to the point where the writer holds the first packet it is to pass on. */
  lemma Connecting() returns (run: seq<Action>, s: State)
    ensures Run(Begin(true, true, 0), run) == s
    ensures s == State(true, true, Listed, Book(2, 0, 0, 0), 1, Reading, Holding(Blank), true, false, Link(true, 0, 0, false, 0), s.wires)
    ensures s.wires.toMain == []
  {
    var s0 := Begin(true, true, 0);
    run, s := Starting();
    run, s := Extend(s0, run, s, Read(Take(Some(Other(1)))));
    run, s := Extend(s0, run, s, Read(Put(true)));
    run, s := Extend(s0, run, s, Main(Handle([], GoOnline)));
    run, s := Extend(s0, run, s, Write(Fetch(true)));
    run, s := Extend(s0, run, s, Write(Act(true)));
    run, s := Extend(s0, run, s, Write(Fetch(true)));
  }

  /**
   The condition can fail: here the remote connects and goes away
   while the writer is sending, and the transport is deleted, still online, with SYNC(0) not yet handled.
   */
  lemma DeletedWithoutOffline() returns (run: seq<Action>)
    ensures var s := After(true, true, 0, run);
      s.phase.Deleted? && s.link.offlines == 0 && s.link.online && s.wires.toMain == [Sync(0, 0)]
  {
    var s0 := Begin(true, true, 0);
    var s;
    run, s := Connecting();
    run, s := Extend(s0, run, s, Write(Act(false)));
    run, s := Extend(s0, run, s, Read(Take(None)));
    run, s := Extend(s0, run, s, Read(Put(true)));
    run, s := Extend(s0, run, s, Exit(WriterThread));
    run, s := Extend(s0, run, s, Exit(WriterThread));
    run, s := Extend(s0, run, s, Exit(ReaderThread));
    run, s := Extend(s0, run, s, Exit(ReaderThread));
    run, s := Extend(s0, run, s, Exit(ReaderThread));
    run, s := Extend(s0, run, s, Exit(ReaderThread));
    run, s := Extend(s0, run, s, Main(Remove));
  }

  // ---------------------------------------------------------------- deletion follows

  /** A step that brings the transport no new work. */
  predicate Quiet(a: Action) {
    !(a.Main? && (a.m.Send? || a.m.KickIt?))
  }

  /** A quiet step that does not depend on some read or write failing. */
  predicate Sure(a: Action) {
    Quiet(a) && a != Write(Fetch(false)) && a != Write(Act(false)) && a != Read(Put(false))
  }

  /** Every schedule of quiet steps deletes the transport, and none gets stuck before that. */
  least predicate Inevitable(s: State) {
    s.phase.Deleted? || ((exists a :: Sure(a) && Enabled(s, a)) && forall a :: Quiet(a) && Enabled(s, a) ==> Inevitable(Step(s, a)))
  }

  /** The reader has left, and the writer has too or will find a SYNC(0). */
  ghost predicate Doomed(s: State) {
    Inv(s) && Alive(s) && s.reader.Leaving? && (s.writer.Departing? || !NoOffline(s.wires.posted))
  }

  function Rank(l: Place): nat {
    match l case In => 5 case Kick => 4 case Unref => 3 case Close => 2 case Post => 1 case Gone => 0
  }

  function Work(s: State): nat {
    2 * |s.wires.toWriter|
    + (match s.writer case Holding(_) => 6 case Waiting => 5 case Departing(l) => Rank(l))
    + (match s.reader case Leaving(l) => Rank(l) case _ => 5)
    + (match s.phase case Starting => 2 case Listed => 1 case _ => 0)
  }

  /** Work gets less, or there is less for the main thread to handle. */
  predicate Shrinks(s: State, s1: State) {
    || |s1.wires.toMain| < |s.wires.toMain|
    || (|s1.wires.toMain| == |s.wires.toMain| && Work(s1) < Work(s))
  }

  lemma MainShrinks(s: State, a: MainAction, s1: State)
    requires Alive(s) && Quiet(Main(a)) && MainEnabled(s, a) && s1 == MainStep(s, a)
    ensures Shrinks(s, s1) && Alive(s1) && s1.reader == s.reader && s1.writer == s.writer && s1.wires.posted == s.wires.posted
  {}

  lemma WriterShrinks(s: State, a: WriterAction, s1: State)
    requires WriterEnabled(s, a) && s1 == WriterStep(s, a)
    ensures Shrinks(s, s1) && Alive(s1) == Alive(s) && s1.reader == s.reader && s1.wires.posted == s.wires.posted
  {}

  lemma ExitShrinks(s: State, who: Thread, s1: State)
    requires ExitEnabled(s, who) && s1 == ExitStep(s, who)
    ensures Shrinks(s, s1) && Alive(s1) == Alive(s) && s1.wires.posted == s.wires.posted
    ensures s1.reader.Leaving? == s.reader.Leaving? && s1.writer.Departing? == s.writer.Departing?
  {}

  lemma WorkShrinks(s: State, a: Action, s1: State)
    requires Doomed(s) && Quiet(a) && Enabled(s, a) && s1 == Step(s, a)
    ensures Shrinks(s, s1) && Doomed(s1)
  {
    StepKeeps(s, a);
    match a
    case Main(m) => MainShrinks(s, m, s1);
    case Write(w) => WriterShrinks(s, w, s1);
    case Exit(who) => ExitShrinks(s, who, s1);
  }

  /** Where a writer still waits, its SYNC(0) is on its way. */
  lemma OfflineUnderway(s: State)
    requires Doomed(s) && s.writer.Waiting?
    ensures s.wires.toMain != [] || s.wires.toWriter != []
  {
    if s.wires.toMain == [] {
      var p :| p in s.wires.posted && Offline(p);
      var i :| 0 <= i < |s.wires.handled| && s.wires.handled[i] == p;
      OfflineIsSync(s.wires.handled, i);
      SyncsIn(s.wires.sent, p);
      assert p !in s.wires.consumed && p in s.wires.toWriter;
    }
  }

  /** What the main thread says to p when nothing keeps it from answering. */
  function Reply(host: bool, p: Packet): (a: Action)
    ensures a.Main? && a.m.Handle? && AnswerAllowed(host, p, a.m.out, a.m.effect)
  {
    if Offline(p) then Main(Handle([], GoOffline))
    else if p.Sync? && host then Main(Handle([Blank, Other(0)], Keep))
    else Main(Handle([], Keep))
  }

  /** When both threads are gone, the remove message is in the pipe. */
  lemma RemovalPending(s: State)
    requires Counted(s.phase, s.threads, s.book, At(s, ReaderThread), At(s, WriterThread)) && Alive(s) && !s.phase.Deleted?
    requires s.reader == Leaving(Gone) && s.writer == Departing(Gone)
    ensures s.book.removal == 1
  {
    RemovedWhenGone(s.book, Gone, Gone);
  }

  lemma SomethingToDo(s: State) returns (a: Action)
    requires Counted(s.phase, s.threads, s.book, At(s, ReaderThread), At(s, WriterThread)) && Alive(s) && !s.phase.Deleted? && s.reader.Leaving?
    requires s.writer.Waiting? ==> s.wires.toMain != [] || s.wires.toWriter != []
    ensures Sure(a) && Enabled(s, a)
  {
    if s.phase.Starting? {
      a := Main(List);
    } else if s.wires.toMain != [] {
      a := Reply(s.host, s.wires.toMain[0]);
    } else if s.writer.Holding? {
      a := Write(Act(true));
    } else if s.writer.Waiting? {
      a := Write(Fetch(true));
    } else if s.reader.l != Gone {
      a := Exit(ReaderThread);
    } else if s.writer.l != Gone {
      a := Exit(WriterThread);
    } else {
      RemovalPending(s);
      a := Main(Remove);
    }
  }

  lemma DoomedIsInevitable(s: State)
    requires Doomed(s)
    ensures Inevitable(s)
    decreases |s.wires.toMain|, Work(s)
  {
    if !s.phase.Deleted? {
      if s.writer.Waiting? { OfflineUnderway(s); }
      var a := SomethingToDo(s);
      forall a | Quiet(a) && Enabled(s, a) ensures Inevitable(Step(s, a)) {
        WorkShrinks(s, a, Step(s, a));
        DoomedIsInevitable(Step(s, a));
      }
    }
  }

  /** The other case: the reader has left without a SYNC(0), and the writer goes on. */
  ghost predicate Orphaned(s: State) {
    Inv(s) && Alive(s) && s.reader.Leaving? && !s.writer.Departing? && NoOffline(s.wires.posted)
  }

  lemma OrphanNotDeleted(s: State)
    requires Orphaned(s)
    ensures !s.phase.Deleted?
  {
    if s.phase.Deleted? { AllGone(s); }
  }

  /** The writer of an orphaned transport holds no SYNC(0). */
  lemma NoFarewell(s: State)
    requires Orphaned(s) && s.writer.Holding?
    ensures !Offline(s.writer.p)
  {
    if Offline(s.writer.p) {
      var n := |s.wires.consumed| - 1;
      assert s.wires.sent[n] == s.wires.consumed[n];
      OfflineIsSync(s.wires.sent, n);
      SyncsIn(s.wires.handled, s.wires.sent[n]);
    }
  }

  /** A step without failures leaves it orphaned. */
  lemma OrphanStays(s: State, a: Action)
    requires Orphaned(s) && Sure(a) && Enabled(s, a)
    ensures Orphaned(Step(s, a))
  {
    StepKeeps(s, a);
    var s1 := Step(s, a);
    match a
    case Main(m) => MainShrinks(s, m, s1);
    case Write(w) =>
      WriterShrinks(s, w, s1);
      if w.Act? { NoFarewell(s); }
    case Exit(who) => ExitShrinks(s, who, s1);
  }

  least lemma InevitableIsNotOrphaned(s: State)
    requires Inevitable(s)
    ensures !Orphaned(s)
  {
    if Orphaned(s) {
      OrphanNotDeleted(s);
      var a :| Sure(a) && Enabled(s, a);
      OrphanStays(s, a);
    }
  }

  /**
   Deletion follows: when the reader is leaving, every schedule of the remaining steps closes and deletes
   the transport if and only if the writer is leaving too or a SYNC(0) was put for it.
   */
  lemma DeletionFollows(host: bool, token: nat, run: seq<Action>)
    requires After(host, true, token, run).reader.Leaving?
    ensures var s := After(host, true, token, run);
      Inevitable(s) <==> s.writer.Departing? || exists p :: p in s.wires.posted && Offline(p)
  {
    Reachable(host, true, token, run);
    ThreadsFixed(Begin(host, true, token), run);
    var s := After(host, true, token, run);
    if Doomed(s) {
      DoomedIsInevitable(s);
    } else if Inevitable(s) {
      InevitableIsNotOrphaned(s);
    }
  }

  lemma {:induction false} ThreadsFixed(s: State, run: seq<Action>)
    ensures Run(s, run).threads == s.threads && Run(s, run).host == s.host
    decreases |run|
  {
    if run != [] {
      ThreadsFixed(if Enabled(s, run[0]) then Step(s, run[0]) else s, run[1..]);
    }
  }

  /** The case arises: the reader's first write fails, and deletion is not inevitable, for the writer waits on for ever. */
  lemma ReaderLeavesAlone() returns (run: seq<Action>)
    ensures var s := After(true, true, 0, run); s.reader.Leaving? && NoOffline(s.wires.posted) && !Inevitable(s)
  {
    var s0 := Begin(true, true, 0);
    var s;
    run, s := Extend(s0, [], s0, Main(Start));
    run, s := Extend(s0, run, s, Main(List));
    run, s := Extend(s0, run, s, Read(Announce));
    run, s := Extend(s0, run, s, Read(Put(false)));
    DeletionFollows(true, 0, run);
  }

  predicate Idle(s: State) {
    s.writer.Waiting? && s.wires.toMain == [] && s.wires.toWriter == []
  }

  lemma IdleIsStuck(s: State, a: Action)
    requires s.phase.Listed? && s.reader == Leaving(Gone) && s.book.removal == 0 && Idle(s) && Sure(a)
    ensures !Enabled(s, a)
  {}

  lemma Unstuck(s: State) returns (a: Action)
    requires Inv(s) && Alive(s) && s.phase.Listed? && s.reader == Leaving(Gone) && !Idle(s)
    ensures Sure(a) && Enabled(s, a)
  {
    if s.wires.toMain != [] {
      a := Reply(s.host, s.wires.toMain[0]);
    } else if s.writer.Waiting? {
      a := Write(Fetch(true));
    } else if s.writer.Holding? {
      a := Write(Act(true));
    } else {
      a := SomethingToDo(s);
    }
  }

  /**
   The one way to get stuck after the reader is gone: the writer waits and there is nothing to read on
   either channel. Exactly then no step is sure; and it takes a reader whose own write failed, which left
   without putting SYNC(0).
   */
  lemma StuckExactly(host: bool, token: nat, run: seq<Action>)
    requires var s := After(host, true, token, run); s.phase.Listed? && s.reader == Leaving(Gone)
    ensures var s := After(host, true, token, run); (forall a :: Sure(a) ==> !Enabled(s, a)) <==> Idle(s)
    ensures var s := After(host, true, token, run); Idle(s) ==> NoOffline(s.wires.posted)
  {
    Reachable(host, true, token, run);
    ThreadsFixed(Begin(host, true, token), run);
    var s := After(host, true, token, run);
    if Idle(s) {
      if !NoOffline(s.wires.posted) { OfflineUnderway(s); }
      forall a | Sure(a) ensures !Enabled(s, a) { IdleIsStuck(s, a); }
    } else {
      var a := Unstuck(s);
    }
  }
}
