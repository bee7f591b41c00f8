/**
 The life of one transport (src/transport.cpp): the reader thread, the writer thread and the main thread
 as interleaved steps around a reference count, two packet channels and the registration pipe.
 */
module Transport {
  import opened Bytes

  /** A packet as the threads see it: SYNC, one with command 0, or any other. */
  datatype Packet = Sync(arg0: nat, arg1: nat) | Blank | Other(id: nat)

  /** Where a thread is: in its loop, or on its way out through kick_transport and the parts of transport_unref. */
  datatype Place = In | Kick | Unref | Close | Post | Gone
  type Leave = p: Place | p != In witness Kick

  datatype Reader = Fresh | Putting(p: Packet, last: bool) | Reading | Leaving(l: Leave)
  datatype Writer = Waiting | Holding(p: Packet) | Departing(l: Leave)

  /** Registering: the message to add it is in the pipe. Starting: threads run, not on transport_list yet. */
  datatype Phase = Registering | Starting | Listed | Deleted

  /** The packets on their way and, for the record, the packets that got somewhere. */
  datatype Wires = Wires(
    taken: seq<Packet>,       // read from the remote
    posted: seq<Packet>,      // put by the reader on t->fd
    toMain: seq<Packet>,      // those of them not yet read from transport_socket
    handled: seq<Packet>,     // those given to handle_packet
    sent: seq<Packet>,        // put by the main thread on transport_socket
    toWriter: seq<Packet>,    // those of them not yet read from t->fd
    consumed: seq<Packet>,    // those read by the writer
    remote: seq<Packet>)      // written to the remote

  /** ref_count, calls of t->close, remove messages posted, and those not yet read from the registration pipe. */
  datatype Book = Book(refs: int, closes: nat, removals: nat, removal: nat)

  datatype State = State(
    host: bool,
    threads: bool,            // the transport was accessible, so it got its two threads
    phase: Phase,
    book: Book,
    token: nat,               // sync_token
    reader: Reader,
    writer: Writer,
    active: bool,
    leftBySync: bool,         // the writer left because it read SYNC(0)
    link: Link,
    wires: Wires)

  /** t->online, runs of handle_offline, those of them for a SYNC(0), kicked_, and calls of the kick function. */
  datatype Link = Link(online: bool, offlines: nat, farewells: nat, kicked: bool, kicks: nat)

  datatype Thread = ReaderThread | WriterThread

  /** What handle_packet does to the connection besides sending. */
  datatype Effect = Keep | GoOffline | GoOnline | Reconnect

  datatype MainAction =
    | Start                              // transport_registration_func adds it
    | List                               // and moves it to transport_list
    | Remove                             // transport_registration_func removes it
    | Handle(out: seq<Packet>, effect: Effect)   // handle_packet on the next packet
    | Send(q: Packet)                    // send_packet for a socket
    | KickIt                             // kick_all_transports and the like

  datatype ReaderAction =
    | Announce                           // ++sync_token
    | Put(ok: bool)                      // write_packet
    | Take(r: Option<Packet>)            // read_from_remote

  datatype WriterAction =
    | Fetch(ok: bool)                    // read_packet
    | Act(ok: bool)                      // what it does with the packet

  datatype Action =
    | Main(m: MainAction)
    | Read(r: ReaderAction)
    | Write(w: WriterAction)
    | Exit(who: Thread)                  // either thread, one step further out

  predicate NoSync(q: seq<Packet>) {
    forall p :: p in q ==> !p.Sync?
  }

  predicate Offline(p: Packet) { p.Sync? && p.arg0 == 0 }

  predicate NoOffline(q: seq<Packet>) {
    forall p :: p in q ==> !Offline(p)
  }

  function Begin(host: bool, threads: bool, token: nat): State {
    State(host, threads, Registering, Book(0, 0, 0, 0), token, Fresh, Waiting, false, false,
          Link(false, 0, 0, false, 0), Wires([], [], [], [], [], [], [], []))
  }

  // ---------------------------------------------------------------- the main thread

  /** What handle_packet puts on the channel for p: SYNC is echoed, after the farewells of handle_offline if it is SYNC(0). */
  function Answer(p: Packet, out: seq<Packet>): seq<Packet> {
    if !p.Sync? then out else if p.arg0 != 0 then [p] + out else out + [p]
  }

  predicate AnswerAllowed(host: bool, p: Packet, out: seq<Packet>, e: Effect) {
    && NoSync(out)
    && (Offline(p) ==> e == GoOffline)
    // SendConnectOnHost
    && (p.Sync? && p.arg0 != 0 ==> e == Keep)
    && (p.Sync? && p.arg0 != 0 ==> if host then |out| == 2 && out[0] == Blank && out[1].Other? else out == [])
  }

  predicate MainEnabled(s: State, a: MainAction) {
    match a
    case Start => s.phase.Registering?
    case List => s.phase.Starting?
    case Remove => s.phase.Listed? && s.book.removal > 0
    case Handle(out, e) =>
      s.phase.Listed? && s.wires.toMain != [] && AnswerAllowed(s.host, s.wires.toMain[0], out, e)
    case Send(q) => s.phase.Listed? && s.threads && !q.Sync?
    case KickIt => s.phase.Listed?
  }

  /** kick_transport: only a transport on transport_list, and only once. */
  function Kicked(phase: Phase, k: Link): Link {
    if phase.Listed? && !k.kicked then k.(kicked := true, kicks := k.kicks + 1) else k
  }

  function Affected(k: Link, e: Effect): Link {
    match e
    case Keep => k
    case GoOffline => k.(online := false, offlines := k.offlines + 1)
    case GoOnline => k.(online := true)
    case Reconnect => k.(online := true, offlines := k.offlines + 1)
  }

  function HandledBy(k: Link, p: Packet, e: Effect): Link {
    Affected(if Offline(p) then k.(farewells := k.farewells + 1) else k, e)
  }

  function Queue(w: Wires, answer: seq<Packet>): Wires {
    w.(sent := w.sent + answer, toWriter := w.toWriter + answer)
  }

  function MainStep(s: State, a: MainAction): State
    requires MainEnabled(s, a)
  {
    match a
    case Start => s.(phase := Starting, book := s.book.(refs := if s.threads then 2 else 0))
    case List => s.(phase := Listed)
    case Remove => s.(phase := Deleted, book := s.book.(removal := s.book.removal - 1))
    case Handle(out, e) =>
      var w := s.wires.(toMain := s.wires.toMain[1..], handled := s.wires.handled + [s.wires.toMain[0]]);
      s.(link := HandledBy(s.link, s.wires.toMain[0], e), wires := Queue(w, Answer(s.wires.toMain[0], out)))
    case Send(q) => s.(wires := Queue(s.wires, [q]))
    case KickIt => s.(link := Kicked(s.phase, s.link))
  }

  // ---------------------------------------------------------------- the two threads

  predicate Alive(s: State) { !s.phase.Registering? && s.threads }

  predicate ReaderEnabled(s: State, a: ReaderAction) {
    match a
    case Announce => Alive(s) && s.reader.Fresh?
    case Put(_) => s.reader.Putting?
    case Take(_) => s.reader.Reading?
  }

  function ReaderStep(s: State, a: ReaderAction): State
    requires ReaderEnabled(s, a)
  {
    match a
    case Announce =>
      var token := (s.token + 1) % WORD;
      s.(token := token, reader := Putting(Sync(1, token), false))
    case Put(ok) =>
      if !ok then s.(reader := Leaving(Kick))
      else
        var w := s.wires.(posted := s.wires.posted + [s.reader.p], toMain := s.wires.toMain + [s.reader.p]);
        s.(wires := w, reader := if s.reader.last then Leaving(Kick) else Reading)
    case Take(r) =>
      if r.None? then s.(reader := Putting(Sync(0, 0), true))
      else
        var w := s.wires.(taken := s.wires.taken + [r.value]);
        s.(wires := w, reader := if s.host && r.value.Blank? then Reading else Putting(r.value, false))
  }

  predicate WriterEnabled(s: State, a: WriterAction) {
    match a
    case Fetch(ok) => Alive(s) && s.writer.Waiting? && (ok ==> s.wires.toWriter != [])
    case Act(ok) => s.writer.Holding?
  }

  function WriterStep(s: State, a: WriterAction): State
    requires WriterEnabled(s, a)
  {
    match a
    case Fetch(ok) =>
      if !ok then s.(writer := Departing(Kick))
      else
        var p := s.wires.toWriter[0];
        s.(wires := s.wires.(toWriter := s.wires.toWriter[1..], consumed := s.wires.consumed + [p]), writer := Holding(p))
    case Act(ok) =>
      var p := s.writer.p;
      if Offline(p) then s.(writer := Departing(Kick), leftBySync := true)
      else if p.Sync? then s.(writer := Waiting, active := s.active || p.arg1 == s.token)
      else if !s.active then s.(writer := Waiting)
      else if ok then s.(writer := Waiting, wires := s.wires.(remote := s.wires.remote + [p]))
      else s.(writer := Departing(Kick))
  }

  function At(s: State, who: Thread): Place {
    if who.ReaderThread? then (if s.reader.Leaving? then s.reader.l else In)
    else (if s.writer.Departing? then s.writer.l else In)
  }

  predicate ExitEnabled(s: State, who: Thread) {
    At(s, who) != In && At(s, who) != Gone
  }

  /** kick_transport, then transport_unref: the thread that drops the last reference closes t and has it removed. */
  function NextLeave(l: Leave, refs: int): Leave {
    match l
    case Kick => Unref
    case Unref => if refs == 1 then Close else Gone
    case Close => Post
    case Post => Gone
    case Gone => Gone
  }

  function Booked(l: Leave, b: Book): Book {
    match l
    case Unref => b.(refs := b.refs - 1)
    case Close => b.(closes := b.closes + 1)
    case Post => b.(removals := b.removals + 1, removal := b.removal + 1)
    case _ => b
  }

  function ExitStep(s: State, who: Thread): State
    requires ExitEnabled(s, who)
  {
    var l: Leave := At(s, who);
    var s1 := s.(book := Booked(l, s.book), link := if l.Kick? then Kicked(s.phase, s.link) else s.link);
    if who.ReaderThread? then s1.(reader := Leaving(NextLeave(l, s.book.refs)))
    else s1.(writer := Departing(NextLeave(l, s.book.refs)))
  }

  predicate Enabled(s: State, a: Action) {
    match a
    case Main(m) => MainEnabled(s, m)
    case Read(r) => ReaderEnabled(s, r)
    case Write(w) => WriterEnabled(s, w)
    case Exit(who) => ExitEnabled(s, who)
  }

  function Step(s: State, a: Action): State
    requires Enabled(s, a)
  {
    match a
    case Main(m) => MainStep(s, m)
    case Read(r) => ReaderStep(s, r)
    case Write(w) => WriterStep(s, w)
    case Exit(who) => ExitStep(s, who)
  }

  /** The run of the actions given, where an action that is not enabled is skipped. */
  function Run(s: State, run: seq<Action>): State
    decreases |run|
  {
    if run == [] then s else Run(if Enabled(s, run[0]) then Step(s, run[0]) else s, run[1..])
  }

  function After(host: bool, threads: bool, token: nat, run: seq<Action>): State {
    Run(Begin(host, threads, token), run)
  }

  // ---------------------------------------------------------------- the reference count

  /** A thread that has not dropped its reference. */
  predicate Holds(p: Place) { p.In? || p.Kick? || p.Unref? }

  /** The reference count, close and the remove message, given where the two threads are. */
  predicate Books(b: Book, r: Place, w: Place) {
    if Holds(r) && Holds(w) then b.refs == 2 && b.closes == 0 && b.removals == 0
    else if Holds(r) then w.Gone? && b.refs == 1 && b.closes == 0 && b.removals == 0
    else if Holds(w) then r.Gone? && b.refs == 1 && b.closes == 0 && b.removals == 0
    else
      // the first thread is gone, and the last one closes the transport and has it removed
      var last := if r.Gone? then w else r;
      && (r.Gone? || w.Gone?) && b.refs == 0
      && b.closes == (if last.Close? then 0 else 1)
      && b.removals == (if last.Gone? then 1 else 0)
  }

  predicate Counted(phase: Phase, threads: bool, b: Book, r: Place, w: Place) {
    && (if threads && !phase.Registering? then Books(b, r, w) else r == w == In && b.closes == 0 && b.removals == 0)
    && (if phase.Deleted? then b.removals == 1 && b.removal == 0 else b.removal == b.removals)
  }

  /** A transport without threads has done nothing. */
  predicate Dormant(s: State) {
    !Alive(s) ==> s.reader.Fresh? && s.writer.Waiting?
  }

  // ---------------------------------------------------------------- the packets

  /** What the writer passes on of what it reads, and whether it is active afterwards. */
  function Relay(q: seq<Packet>, token: nat): (r: (seq<Packet>, bool)) {
    if q == [] then ([], false)
    else
      var (out, on) := Relay(q[..|q| - 1], token);
      var p := q[|q| - 1];
      if p.Sync? then (out, on || (p.arg0 != 0 && p.arg1 == token))
      else (if on then out + [p] else out, on)
  }

  function Syncs(q: seq<Packet>): seq<Packet> {
    if q == [] then [] else Syncs(q[..|q| - 1]) + (if q[|q| - 1].Sync? then [q[|q| - 1]] else [])
  }

  /** The packets the reader hands on: the host drops those with command 0. */
  function Kept(host: bool, q: seq<Packet>): seq<Packet> {
    if q == [] then []
    else Kept(host, q[..|q| - 1]) + (if host && q[|q| - 1].Blank? then [] else [q[|q| - 1]])
  }

  /** What has been put, and is about to be put if the reader is at it. */
  function Offered(r: Reader, posted: seq<Packet>): seq<Packet> {
    if r.Putting? then posted + [r.p] else posted
  }

  function Stream(s: State): seq<Packet> {
    [Sync(1, s.token)] + Kept(s.host, s.wires.taken)
  }

  /** What the reader offers: SYNC(1, token), what it took, and SYNC(0) at the end. */
  ghost predicate Offers(r: Reader, posted: seq<Packet>, stream: seq<Packet>) {
    match r
    case Fresh => posted == [] && |stream| == 1
    case Reading => posted == stream
    case Putting(p, last) => posted + [p] == if last then stream + [Sync(0, 0)] else stream
    case Leaving(_) => Prefix(posted, stream + [Sync(0, 0)])
  }

  predicate Channels(w: Wires) {
    w.posted == w.handled + w.toMain && w.sent == w.consumed + w.toWriter && Syncs(w.sent) == Syncs(w.handled)
  }

  /** q without its last packet, if there is one. */
  function Front(q: seq<Packet>): seq<Packet> {
    if q == [] then [] else q[..|q| - 1]
  }

  predicate Relayed(writer: Writer, active: bool, token: nat, q: seq<Packet>, remote: seq<Packet>) {
    match writer
    case Waiting => Relay(q, token) == (remote, active)
    case Holding(p) => q != [] && q[|q| - 1] == p && Relay(Front(q), token) == (remote, active)
    case Departing(_) => remote == Relay(q, token).0 || remote == Relay(Front(q), token).0
  }

  /** SYNC(0) is the last thing the writer reads. */
  predicate Parted(writer: Writer, leftBySync: bool, q: seq<Packet>) {
    && (forall i :: 0 <= i < |q| && Offline(q[i]) ==> i == |q| - 1 && (leftBySync || writer.Holding?))
    && (leftBySync ==> writer.Departing? && q != [] && Offline(q[|q| - 1]))
  }

  predicate Outcomes(k: Link, handled: seq<Packet>) {
    && (k.farewells > 0 <==> !NoOffline(handled))
    && k.farewells <= k.offlines
    && (handled != [] && Offline(handled[|handled| - 1]) ==> !k.online)
    && k.kicks == (if k.kicked then 1 else 0)
  }

  ghost predicate Inv(s: State) {
    && Dormant(s)
    && Counted(s.phase, s.threads, s.book, At(s, ReaderThread), At(s, WriterThread))
    && Offers(s.reader, s.wires.posted, Stream(s))
    && Channels(s.wires)
    && Relayed(s.writer, s.active, s.token, s.wires.consumed, s.wires.remote)
    && Parted(s.writer, s.leftBySync, s.wires.consumed)
    && Outcomes(s.link, s.wires.handled)
  }

  // ---------------------------------------------------------------- what every step keeps

  lemma Snoc<T>(q: seq<T>, p: T)
    ensures (q + [p])[..|q|] == q && (q + [p])[|q|] == p
  {}

  lemma {:induction false} SyncsAppend(p: seq<Packet>, q: seq<Packet>)
    ensures Syncs(p + q) == Syncs(p) + Syncs(q)
  {
    if q == [] {
      assert p + q == p;
    } else {
      SyncsAppend(p, q[..|q| - 1]);
      assert p + q == p + q[..|q| - 1] + [q[|q| - 1]];
      Snoc(p + q[..|q| - 1], q[|q| - 1]);
    }
  }

  lemma {:induction false} SyncsNone(q: seq<Packet>)
    ensures Syncs(q) == [] <==> NoSync(q)
  {
    if q != [] { SyncsNone(q[..|q| - 1]); }
  }

  lemma {:induction false} RelayIdle(q: seq<Packet>, token: nat)
    requires NoSync(q)
    ensures Relay(q, token) == ([], false)
  {
    if q != [] { RelayIdle(q[..|q| - 1], token); }
  }

  /** handle_packet echoes SYNC and sends no other. */
  lemma AnswerSyncs(p: Packet, out: seq<Packet>)
    requires NoSync(out)
    ensures Syncs(Answer(p, out)) == Syncs([p])
  {
    SyncsNone(out);
    SyncsAppend([p], out);
    SyncsAppend(out, [p]);
    SyncsNone([p]);
  }

  lemma AnswerQueued(w: Wires, out: seq<Packet>, w1: Wires)
    requires Channels(w) && w.toMain != [] && NoSync(out)
    requires w1 == Queue(w.(toMain := w.toMain[1..], handled := w.handled + [w.toMain[0]]), Answer(w.toMain[0], out))
    ensures Channels(w1)
  {
    var p, answer := w.toMain[0], Answer(w.toMain[0], out);
    AnswerSyncs(p, out);
    SyncsAppend(w.sent, answer);
    SyncsAppend(w.handled, [p]);
    ConcatAssoc(w.handled, [p], w1.toMain);
    assert w.toMain == [p] + w1.toMain;
    ConcatAssoc(w.consumed, w.toWriter, answer);
  }

  lemma SendQueued(w: Wires, q: Packet, w1: Wires)
    requires Channels(w) && !q.Sync? && w1 == Queue(w, [q])
    ensures Channels(w1)
  {
    Snoc(w.sent, q);
  }

  /** Before the reader's first packet there is no SYNC anywhere, so the writer does not depend on the token. */
  lemma Renumbered(w: Wires, t: nat, t1: nat)
    requires Channels(w) && w.posted == []
    ensures Relay(w.consumed, t) == Relay(w.consumed, t1) && Relay(Front(w.consumed), t) == Relay(Front(w.consumed), t1)
  {
    SyncsAppend(w.consumed, w.toWriter);
    SyncsNone(w.consumed);
    RelayIdle(w.consumed, t);
    RelayIdle(w.consumed, t1);
    RelayIdle(Front(w.consumed), t);
    RelayIdle(Front(w.consumed), t1);
  }

  lemma BooksTurn(b: Book, r: Place, w: Place)
    requires Books(b, r, w)
    ensures Books(b, w, r)
  {}

  /** A thread that starts to leave still holds its reference. */
  lemma BooksLeave(b: Book, m: Place)
    requires Books(b, In, m)
    ensures Books(b, Kick, m) && Books(b, m, Kick)
  {}

  /** The stream grows with what the reader takes. */
  lemma StreamGrows(host: bool, q: seq<Packet>, p: Packet)
    ensures Kept(host, q + [p]) == if host && p.Blank? then Kept(host, q) else Kept(host, q) + [p]
  {
    Snoc(q, p);
  }

  lemma OfferMore(posted: seq<Packet>, head: Packet, kept: seq<Packet>, p: Packet)
    requires Offers(Reading, posted, [head] + kept)
    ensures Offers(Putting(p, false), posted, [head] + (kept + [p]))
  {
    ConcatAssoc([head], kept, [p]);
  }

  /** What is offered is a beginning of the whole stream. */
  lemma OffersPrefix(r: Reader, posted: seq<Packet>, stream: seq<Packet>)
    requires Offers(r, posted, stream)
    ensures Prefix(Offered(r, posted), stream + [Sync(0, 0)]) && Prefix(posted, stream + [Sync(0, 0)])
  {
    PrefixOfConcat(stream, [Sync(0, 0)]);
    if r.Putting? {
      PrefixOfConcat(posted, [r.p]);
      PrefixTrans(posted, Offered(r, posted), stream + [Sync(0, 0)]);
    }
  }

  lemma Announced(s: State, s1: State)
    requires Inv(s) && ReaderEnabled(s, Announce) && s1 == ReaderStep(s, Announce)
    ensures Inv(s1)
  {
    Renumbered(s.wires, s.token, s1.token);
  }

  lemma PutKeeps(s: State, ok: bool, s1: State)
    requires Inv(s) && ReaderEnabled(s, Put(ok)) && s1 == ReaderStep(s, Put(ok))
    ensures Inv(s1)
  {
    OffersPrefix(s.reader, s.wires.posted, Stream(s));
    BooksLeave(s.book, At(s, WriterThread));
  }

  lemma TakeKeeps(s: State, r: Option<Packet>, s1: State)
    requires Inv(s) && ReaderEnabled(s, Take(r)) && s1 == ReaderStep(s, Take(r))
    ensures Inv(s1)
  {
    if r.Some? {
      StreamGrows(s.host, s.wires.taken, r.value);
      OfferMore(s.wires.posted, Sync(1, s.token), Kept(s.host, s.wires.taken), r.value);
    }
  }

  lemma FetchRelayed(s: State, s1: State)
    requires Relayed(s.writer, s.active, s.token, s.wires.consumed, s.wires.remote) && WriterEnabled(s, Fetch(true)) && s1 == WriterStep(s, Fetch(true))
    ensures Relayed(s1.writer, s1.active, s1.token, s1.wires.consumed, s1.wires.remote)
  {
    Snoc(s.wires.consumed, s.wires.toWriter[0]);
  }

  lemma FetchParted(s: State, s1: State)
    requires Parted(s.writer, s.leftBySync, s.wires.consumed) && WriterEnabled(s, Fetch(true)) && s1 == WriterStep(s, Fetch(true))
    ensures Parted(s1.writer, s1.leftBySync, s1.wires.consumed)
  {
    assert |s1.wires.consumed| == |s.wires.consumed| + 1;
  }

  lemma FetchChannels(s: State, s1: State)
    requires Channels(s.wires) && WriterEnabled(s, Fetch(true)) && s1 == WriterStep(s, Fetch(true))
    ensures Channels(s1.wires)
  {
    ConcatAssoc(s.wires.consumed, [s.wires.toWriter[0]], s1.wires.toWriter);
    assert [s.wires.toWriter[0]] + s1.wires.toWriter == s.wires.toWriter;
  }

  lemma Fetched(s: State, s1: State)
    requires Inv(s) && WriterEnabled(s, Fetch(true)) && s1 == WriterStep(s, Fetch(true))
    ensures Inv(s1)
  {
    FetchRelayed(s, s1);
    FetchParted(s, s1);
    FetchChannels(s, s1);
  }

  lemma FetchFailed(s: State, s1: State)
    requires Inv(s) && WriterEnabled(s, Fetch(false)) && s1 == WriterStep(s, Fetch(false))
    ensures Inv(s1)
  {
    BooksTurn(s.book, At(s, ReaderThread), In);
    BooksLeave(s.book, At(s, ReaderThread));
  }

  lemma ActRelayed(s: State, ok: bool, s1: State)
    requires Relayed(s.writer, s.active, s.token, s.wires.consumed, s.wires.remote) && WriterEnabled(s, Act(ok)) && s1 == WriterStep(s, Act(ok))
    ensures Relayed(s1.writer, s1.active, s1.token, s1.wires.consumed, s1.wires.remote)
  {
    var q, p := s.wires.consumed, s.writer.p;
    assert Relay(q, s.token) == if p.Sync?
      then (s.wires.remote, s.active || (p.arg0 != 0 && p.arg1 == s.token))
      else (if s.active then s.wires.remote + [p] else s.wires.remote, s.active);
  }

  lemma ActParted(s: State, ok: bool, s1: State)
    requires Relayed(s.writer, s.active, s.token, s.wires.consumed, s.wires.remote) && Parted(s.writer, s.leftBySync, s.wires.consumed) && WriterEnabled(s, Act(ok)) && s1 == WriterStep(s, Act(ok))
    ensures Parted(s1.writer, s1.leftBySync, s1.wires.consumed)
  {
    var q := s.wires.consumed;
    assert s1.wires.consumed == q;
  }

  lemma Acted(s: State, ok: bool, s1: State)
    requires Inv(s) && WriterEnabled(s, Act(ok)) && s1 == WriterStep(s, Act(ok))
    ensures Inv(s1)
  {
    ActRelayed(s, ok, s1);
    ActParted(s, ok, s1);
    BooksTurn(s.book, At(s, ReaderThread), In);
    BooksLeave(s.book, At(s, ReaderThread));
  }

  lemma KickedOnce(phase: Phase, k: Link, handled: seq<Packet>)
    requires Outcomes(k, handled)
    ensures Outcomes(Kicked(phase, k), handled)
  {}

  /** A thread on its way out changes the books, the kick and its own place. */
  lemma ReaderMoves(s: State, b: Book, k: Link, l: Leave)
    requires Inv(s) && s.reader.Leaving?
    requires Counted(s.phase, s.threads, b, l, At(s, WriterThread)) && Outcomes(k, s.wires.handled)
    ensures Inv(s.(book := b, link := k, reader := Leaving(l)))
  {}

  lemma WriterMoves(s: State, b: Book, k: Link, l: Leave)
    requires Inv(s) && s.writer.Departing?
    requires Counted(s.phase, s.threads, b, At(s, ReaderThread), l) && Outcomes(k, s.wires.handled)
    ensures Inv(s.(book := b, link := k, writer := Departing(l)))
  {}

  /** One thread, at l, takes its next step; the other is at m. */
  lemma CountedStep(phase: Phase, threads: bool, b: Book, l: Leave, m: Place)
    requires l != Gone
    ensures Counted(phase, threads, b, l, m) ==> Counted(phase, threads, Booked(l, b), NextLeave(l, b.refs), m)
    ensures Counted(phase, threads, b, m, l) ==> Counted(phase, threads, Booked(l, b), m, NextLeave(l, b.refs))
  {}

  lemma ReaderExits(s: State, s1: State)
    requires Inv(s) && ExitEnabled(s, ReaderThread) && s1 == ExitStep(s, ReaderThread)
    ensures Inv(s1)
  {
    CountedStep(s.phase, s.threads, s.book, s.reader.l, At(s, WriterThread));
    KickedOnce(s.phase, s.link, s.wires.handled);
    ReaderMoves(s, s1.book, s1.link, s1.reader.l);
  }

  lemma WriterExits(s: State, s1: State)
    requires Inv(s) && ExitEnabled(s, WriterThread) && s1 == ExitStep(s, WriterThread)
    ensures Inv(s1)
  {
    CountedStep(s.phase, s.threads, s.book, s.writer.l, At(s, ReaderThread));
    KickedOnce(s.phase, s.link, s.wires.handled);
    WriterMoves(s, s1.book, s1.link, s1.writer.l);
  }

  lemma HandleKeeps(s: State, out: seq<Packet>, e: Effect, s1: State)
    requires Inv(s) && MainEnabled(s, Handle(out, e)) && s1 == MainStep(s, Handle(out, e))
    ensures Inv(s1)
  {
    AnswerQueued(s.wires, out, s1.wires);
  }

  lemma SendKeeps(s: State, q: Packet, s1: State)
    requires Inv(s) && MainEnabled(s, Send(q)) && s1 == MainStep(s, Send(q))
    ensures Inv(s1)
  {
    SendQueued(s.wires, q, s1.wires);
  }

  /** The other steps of the main thread leave the packets and the threads alone. */
  lemma RegistrationKeeps(s: State, a: MainAction, s1: State)
    requires Inv(s) && MainEnabled(s, a) && s1 == MainStep(s, a) && !a.Handle? && !a.Send?
    ensures Inv(s1)
  {
    assert s1 == s.(phase := s1.phase, book := s1.book, link := s1.link);
    assert Counted(s1.phase, s1.threads, s1.book, At(s1, ReaderThread), At(s1, WriterThread));
    assert Outcomes(s1.link, s1.wires.handled);
  }

  /** Every step of every thread keeps the invariant. */
  lemma StepKeeps(s: State, a: Action)
    requires Inv(s) && Enabled(s, a)
    ensures Inv(Step(s, a))
  {
    match a
    case Main(Handle(out, e)) => HandleKeeps(s, out, e, Step(s, a));
    case Main(Send(q)) => SendKeeps(s, q, Step(s, a));
    case Main(m) => RegistrationKeeps(s, m, Step(s, a));
    case Read(Announce) => Announced(s, Step(s, a));
    case Read(Put(ok)) => PutKeeps(s, ok, Step(s, a));
    case Read(Take(r)) => TakeKeeps(s, r, Step(s, a));
    case Write(Fetch(ok)) => if ok { Fetched(s, Step(s, a)); } else { FetchFailed(s, Step(s, a)); }
    case Write(Act(ok)) => Acted(s, ok, Step(s, a));
    case Exit(who) => if who.ReaderThread? { ReaderExits(s, Step(s, a)); } else { WriterExits(s, Step(s, a)); }
  }

  lemma {:induction false} RunKeeps(s: State, run: seq<Action>)
    requires Inv(s)
    ensures Inv(Run(s, run))
    decreases |run|
  {
    if run != [] {
      if Enabled(s, run[0]) { StepKeeps(s, run[0]); }
      RunKeeps(if Enabled(s, run[0]) then Step(s, run[0]) else s, run[1..]);
    }
  }

  lemma Reachable(host: bool, threads: bool, token: nat, run: seq<Action>)
    ensures Inv(After(host, threads, token, run))
  {
    RunKeeps(Begin(host, threads, token), run);
  }
}
