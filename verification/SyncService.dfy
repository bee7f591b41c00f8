/** The device's end of a file push (src/file_sync_service.cpp): handle_sync_command, do_send and the two receivers. */
module SyncService {
  import opened Bytes
  import opened AdbIo
  import opened Hex
  import opened SyncWire

  /** What a path may name; a device takes what is written to it after what it has. */
  datatype Entry =
    | File(perm: bv16, mtime: Option<nat>, content: Data)
    | Link(target: Data)
    | Device(perm: bv16, mtime: Option<nat>, content: Data)
    | Directory

  type Files = map<Data, Entry>

  /** do_send copies the user's permission bits to group and others. */
  function Permissions(mode: nat): bv16 {
    var m := ((mode % 512) as bv16) & 0x1ff;
    var m1 := m | ((m >> 3) & 0x38);
    m1 | ((m1 >> 3) & 0x07)
  }

  /**
   The user's bits are as sent, nothing sent is dropped, and whatever the user may, group and others may. Nobody
   gets more: the group what it was sent and the user's, others what they were sent, the group's and the user's.
   */
  lemma PermissionsSpread(mode: nat)
    ensures var m, p := (mode % 512) as bv16, Permissions(mode);
      && p & 0x1c0 == m & 0x1c0 && p & m == m
      && (p >> 6) & 7 & (p >> 3) == (p >> 6) & 7
      && (p >> 3) & 7 & p == (p >> 3) & 7
      && p >> 6 == m >> 6 && (p >> 3) & 7 == ((m >> 3) | (m >> 6)) & 7 && p & 7 == (m | (m >> 3) | (m >> 6)) & 7
  {
    SpreadBits((mode % 512) as bv16);
  }

  lemma SpreadBits(m: bv16)
    requires m < 0x200
    ensures var m1 := (m & 0x1ff) | (((m & 0x1ff) >> 3) & 0x38);
      var p := m1 | ((m1 >> 3) & 0x07);
      && p & 0x1c0 == m & 0x1c0 && p & m == m
      && (p >> 6) & 7 & (p >> 3) == (p >> 6) & 7
      && (p >> 3) & 7 & p == (p >> 3) & 7
      && p >> 6 == m >> 6 && (p >> 3) & 7 == ((m >> 3) | (m >> 6)) & 7 && p & 7 == (m | (m >> 3) | (m >> 6)) & 7
  {}

  /** Stored, refused with the session over, caught in the drain at end of stream; QUIT, and the commands not modelled. */
  datatype Outcome = Stored | Refused | Spins | Quit | Other(id: nat)

  /** lstat finds something at path that do_send does not unlink. */
  predicate Special(files: Files, path: Data) {
    path in files && (files[path].Device? || files[path].Directory?)
  }

  /** A push to path cannot succeed: a file cannot replace a directory, nor a link that or a device. */
  predicate Blocked(files: Files, path: Data, mode: nat) {
    Special(files, path) && (IsLink(mode) || files[path].Directory?)
  }

  /** What handle_send_file leaves at path. */
  function Written(files: Files, path: Data, perm: bv16, mtime: nat, content: Data): Entry {
    if path in files && files[path].Device? then Device(perm, Some(mtime), files[path].content + content)
    else File(perm, Some(mtime), content)
  }

  /** What path names after a push was stored; a link's target ends at its first NUL. */
  function EntryFor(r: Received, buffer: Data, files: Files): Entry {
    if IsLink(r.mode) then Link(UpToNul(Overlaid(r.body.content, buffer)))
    else Written(files, r.path, Permissions(r.mode), r.body.mtime, r.body.content)
  }

  lemma PutOver(free: Files, files: Files, path: Data, e: Entry)
    requires free - {path} == files - {path}
    ensures free[path := e] == files[path := e]
  {
    assert free[path := e] == (free - {path})[path := e] && files[path := e] == (files - {path})[path := e];
  }

  /** A push that was received whole and whose path nothing blocks. */
  predicate Acceptable(r: Option<Received>, files: Files) {
    r.Some? && !Blocked(files, r.value.path, r.value.mode)
  }

  /** Where reception starts does not matter to what is received. */
  lemma {:induction false} ParseBodyFrom(d: Data, start: Data, acc: Data)
    ensures var b, c := ParseBody(d, acc), ParseBody(d, start + acc);
      c == match b case None => None case Some(x) => Some(x.(content := start + x.content))
    decreases |d|
  {
    if |d| >= 8 && HeadId(d) == ID_DATA && HeadLen(d) <= SYNC_DATA_MAX && HeadLen(d) <= |d| - 8 {
      var n := HeadLen(d);
      ConcatAssoc(start, acc, d[8..8 + n]);
      ParseBodyFrom(d[8 + n..], start, acc + d[8..8 + n]);
    }
  }

  /** The receive buffer after reading s into it. */
  function Overlaid(s: Data, buffer: Data): (r: Data)
    ensures |s| <= |buffer| ==> |r| == |buffer| && r[..|s|] == s && r[|s|..] == buffer[|s|..]
  {
    if |s| <= |buffer| then s + buffer[|s|..] else s
  }

  function Ascii(s: string): Data {
    seq(|s|, i requires 0 <= i < |s| => s[i] as int % 256)
  }

  /** The first eight bytes and what they leave. */
  lemma ReadHead(head: Data, d: Data, rest: Data)
    requires |head| == 8 && head + rest == d
    ensures |d| >= 8 && HeadId(head) == HeadId(d) && HeadLen(head) == HeadLen(d) && rest == d[8..]
  {
    assert head[..4] == d[..4] && head[4..8] == d[4..8];
  }

  /** Parsing past a DATA message. */
  lemma ParseChunk(d: Data, acc: Data)
    requires |d| >= 8 && HeadId(d) == ID_DATA && HeadLen(d) <= SYNC_DATA_MAX
    ensures var n := HeadLen(d);
      ParseBody(d, acc) == if n <= |d[8..]| then ParseBody(d[8..][n..], acc + d[8..][..n]) else None
  {
    var n := HeadLen(d);
    if n <= |d[8..]| {
      assert d[8..][n..] == d[8 + n..] && d[8..][..n] == d[8..8 + n];
    }
  }

  /** Nothing but whole DATA messages, and perhaps a piece of a header, up to the end. */
  predicate Endless(d: Data)
    decreases |d|
  {
    if |d| < 8 then true
    else if HeadId(d) != ID_DATA || HeadLen(d) > SYNC_DATA_MAX || |d| - 8 < HeadLen(d) then false
    else Endless(d[8 + HeadLen(d)..])
  }

  /** One message of such a stream. */
  lemma EndlessNext(d: Data)
    requires |d| >= 8
    ensures var n := HeadLen(d);
      Endless(d) <==> HeadId(d) == ID_DATA && n <= SYNC_DATA_MAX && n <= |d[8..]| && Endless(d[8..][n..])
  {
    var n := HeadLen(d);
    assert n <= |d[8..]| ==> d[8..][n..] == d[8 + n..];
  }

  /** A push on which handle_send_file fails and never returns: d is what follows the specification. */
  predicate HangsIn(spec: Data, d: Data) {
    ParseSpec(spec).Some? && !IsLink(ParseSpec(spec).value.1) && Endless(d)
  }

  /** The same of a whole command, after its header. */
  predicate Hangs(id: nat, n: nat, d: Data) {
    id == ID_SEND && n <= PATH_LIMIT && n <= |d| && HangsIn(UpToNul(d[..n]), d[n..])
  }

  lemma {:induction false} CutIsEndless(cs: seq<Data>, stub: Data)
    requires |stub| < 8 && forall i :: 0 <= i < |cs| ==> |cs[i]| <= SYNC_DATA_MAX
    ensures Endless(Chunks(cs) + stub)
  {
    if cs != [] {
      var rest := Chunks(cs[1..]) + stub;
      ConcatAssoc(ChunkBytes(cs[0]), Chunks(cs[1..]), stub);
      ChunkRead(cs[0], rest);
      assert (ChunkBytes(cs[0]) + rest)[8 + |cs[0]|..] == rest;
      CutIsEndless(cs[1..], stub);
    } else {
      assert Chunks(cs) + stub == stub;
    }
  }

  /** Whole DATA messages, none of them oversize, and then a piece of a header or nothing. */
  ghost predicate CutOff(d: Data) {
    exists cs: seq<Data>, stub: Data :: |stub| < 8 && (forall i :: 0 <= i < |cs| ==> |cs[i]| <= SYNC_DATA_MAX) && d == Chunks(cs) + stub
  }

  /** The bytes of a DATA message, taken apart. */
  lemma MessageOf(d: Data)
    requires |d| >= 8 && HeadId(d) == ID_DATA && HeadLen(d) <= |d| - 8
    ensures var n := HeadLen(d); d == ChunkBytes(d[8..8 + n]) + d[8 + n..]
  {
    var n := HeadLen(d);
    LeInverse(d[..4]);
    LeInverse(d[4..8]);
    assert d[..8] == Header(ID_DATA, n) by { assert d[..8] == d[..4] + d[4..8]; }
    assert d == d[..8] + d[8..8 + n] + d[8 + n..];
  }

  lemma {:induction false} EndlessIsCut(d: Data) returns (cs: seq<Data>, stub: Data)
    requires Endless(d)
    ensures |stub| < 8 && (forall i :: 0 <= i < |cs| ==> |cs[i]| <= SYNC_DATA_MAX) && d == Chunks(cs) + stub
    decreases |d|
  {
    if |d| < 8 {
      cs, stub := [], d;
    } else {
      var n := HeadLen(d);
      var c := d[8..8 + n];
      MessageOf(d);
      cs, stub := EndlessIsCut(d[8 + n..]);
      ConcatAssoc(ChunkBytes(c), Chunks(cs), stub);
      assert ([c] + cs)[0] == c && ([c] + cs)[1..] == cs;
      cs := [c] + cs;
    }
  }

  /** The streams on which the drain never ends. */
  lemma EndlessExactly(d: Data)
    ensures Endless(d) <==> CutOff(d)
  {
    if Endless(d) {
      var cs, stub := EndlessIsCut(d);
    } else if CutOff(d) {
      var cs: seq<Data>, stub: Data :|
        |stub| < 8 && (forall i :: 0 <= i < |cs| ==> |cs[i]| <= SYNC_DATA_MAX) && d == Chunks(cs) + stub;
      CutIsEndless(cs, stub);
    }
  }

  /**
   A client that is gone before its DONE: a push of a regular file, cut off after any number of DATA messages
   or within the header of the next, hangs the service.
   */
  lemma CutPushHangs(path: Data, mode: nat, cs: seq<Data>, stub: Data)
    requires 0 !in path && mode < WORD && !IsLink(mode) && |Spec(path, mode)| <= PATH_LIMIT
    requires |stub| < 8 && forall i :: 0 <= i < |cs| ==> |cs[i]| <= SYNC_DATA_MAX
    ensures Hangs(ID_SEND, |Spec(path, mode)|, Spec(path, mode) + (Chunks(cs) + stub))
  {
    var spec, cut := Spec(path, mode), Chunks(cs) + stub;
    SpecParses(path, mode);
    CutIsEndless(cs, stub);
    assert (spec + cut)[..|spec|] == spec && (spec + cut)[|spec|..] == cut;
  }

  /** Such a stream has no DONE. */
  lemma {:induction false} EndlessHasNoBody(d: Data, acc: Data)
    ensures Endless(d) ==> ParseBody(d, acc).None?
    decreases |d|
  {
    if |d| >= 8 && HeadId(d) == ID_DATA && HeadLen(d) <= SYNC_DATA_MAX && HeadLen(d) <= |d| - 8 {
      EndlessHasNoBody(d[8 + HeadLen(d)..], acc + d[8..8 + HeadLen(d)]);
    }
  }

  lemma QuitHead(d: Data)
    ensures Prefix(Header(ID_QUIT, 0), d) ==> |d| >= 8 && HeadId(d) == ID_QUIT && HeadLen(d) == 0
  {
    if Prefix(Header(ID_QUIT, 0), d) {
      HeaderRead(ID_QUIT, 0, d[8..]);
      assert d == Header(ID_QUIT, 0) + d[8..];
    }
  }

  class Service {
    const fd: InFd
    const out: OutFd
    var entries: Files
    var buffer: Data
    var faults: seq<bool>   // whether the next file operations fail; later ones do not

    constructor (fd: InFd, out: OutFd, entries: Files)
      ensures Valid() && NoFaults()
      ensures this.fd == fd && this.out == out && this.entries == entries
    {
      this.fd, this.out, this.entries := fd, out, entries;
      buffer, faults := seq(SYNC_DATA_MAX, _ => 0), [];
    }

    predicate Valid()
      reads this
    {
      |buffer| == SYNC_DATA_MAX
    }

    ghost predicate NoFaults()
      reads this
    {
      forall k :: 0 <= k < |faults| ==> !faults[k]
    }

    /** Neither the socket nor the file system will fail. */
    ghost predicate Good()
      reads this, fd, out
    {
      fd.Sound() && out.Sound() && NoFaults()
    }

    method Attempt() returns (ok: bool)
      modifies `faults
      ensures old(NoFaults()) ==> ok && NoFaults()
    {
      ok := true;
      if faults != [] {
        ok := !faults[0];
        faults := faults[1..];
      }
    }

    /** SendSyncFail */
    method SendSyncFail(reason: Data) returns (ok: bool)
      modifies out
      ensures old(out.Sound()) ==> ok && out.Sound() && out.sent == old(out.sent) + (Header(ID_FAIL, |reason|) + reason)
    {
      ConcatAssoc(out.sent, Header(ID_FAIL, |reason|), reason);
      ok := WriteFdExactly(out, Header(ID_FAIL, |reason|));
      if ok {
        ok := WriteFdExactly(out, reason);
      }
    }

    /** The message after a header that was read; `more` when it was a whole DATA message. */
    method DrainBody(head: Data, ghost d: Data) returns (more: bool)
      requires Valid() && |head| == 8 && head + fd.data == d
      modifies `buffer, fd
      ensures Valid() && fd.Left() <= old(fd.Left())
      ensures old(fd.Sound()) ==> fd.Sound() && (Endless(d) <==> more && Endless(fd.data))
    {
      ReadHead(head, d, fd.data);
      EndlessNext(d);
      if HeadId(head) != ID_DATA || HeadLen(head) > SYNC_DATA_MAX {
        return false;
      }
      var b;
      more, b := ReadFdExactly(fd, HeadLen(head));
      buffer := Overlaid(b, buffer);
      assert more ==> fd.data == d[8..][HeadLen(d)..];
    }

    /** One turn of the drain: a header, unless none can be read, and what follows it. */
    method DrainOne() returns (got: bool, more: bool)
      requires Valid()
      modifies `buffer, fd
      ensures Valid() && (fd.Left() < old(fd.Left()) || (fd.Left() == 0 && !got))
      ensures old(fd.Sound()) && !got ==> fd.Sound() && Endless(old(fd.data)) && Endless(fd.data)
      ensures old(fd.Sound()) && got ==> fd.Sound() && (Endless(old(fd.data)) <==> more && Endless(fd.data))
    {
      ghost var d := fd.data;
      var head;
      got, head := ReadFdExactly(fd, 8);
      more := false;
      if got {
        more := DrainBody(head, d);
      }
    }

    /**
     The drain after a failed push: DATA messages are thrown away up to one of another kind, an oversize
     one or a truncated one. A header that cannot be read is tried again; at end of stream that never ends.
     */
    method Drain() returns (spins: bool)
      requires Valid()
      modifies `buffer, fd
      ensures Valid() && (spins ==> fd.Left() == 0)
      ensures old(fd.Sound()) ==> (spins <==> Endless(old(fd.data)))
    {
      while true
        invariant Valid()
        invariant old(fd.Sound()) ==> fd.Sound() && Endless(fd.data) == Endless(old(fd.data))
        decreases fd.Left()
      {
        var got, more := DrainOne();
        if !got {
          if fd.data == [] && fd.sizes == [] {
            return true;
          }
        } else if !more {
          return false;
        }
      }
    }

    /** The labels fail and abort: no half-received file stays behind, unless the drain never ends. */
    method Fail(path: Data, doUnlink: bool) returns (r: Outcome)
      requires Valid()
      modifies `entries, `buffer, fd
      ensures Valid() && (r == Refused || r == Spins)
      ensures entries == if r == Refused && doUnlink then old(entries) - {path} else old(entries)
      ensures r == Spins ==> fd.Left() == 0
      ensures old(fd.Sound()) ==> (r == Spins <==> Endless(old(fd.data)))
    {
      var spins := Drain();
      if spins {
        return Spins;
      }
      if doUnlink {
        entries := entries - {path};
      }
      r := Refused;
    }

    /** The end of handle_send_file: the times, and the answer. */
    method Finish(path: Data, timestamp: nat) returns (r: Outcome)
      requires path in entries && Holding(path)
      modifies `entries, out
      ensures entries == old(entries)[path := old(entries)[path].(mtime := Some(timestamp))]
      ensures r == Stored ==> out.sent == old(out.sent) + Header(ID_OKAY, 0)
      ensures r == Stored || r == Refused
      ensures old(out.Sound()) ==> r == Stored && out.Sound()
    {
      entries := entries[path := entries[path].(mtime := Some(timestamp))];
      var ok := WriteFdExactly(out, Header(ID_OKAY, 0));
      r := if ok then Stored else Refused;
    }

    /** path names something that bytes can be written to. */
    predicate Holding(path: Data)
      requires path in entries
      reads this
    {
      entries[path].File? || entries[path].Device?
    }

    /**
     The whole file, or no file: what is left under path, where e was begun, when a push was stored or refused.
     Only a device keeps what it got.
     */
    ghost predicate AllOrNothing(r: Outcome, path: Data, e: Entry, b: Option<Body>)
      requires e.File? || e.Device?
      reads this
    {
      && (r == Stored ==> b.Some?)
      && (r == Stored || (r == Refused && e.File? && path in entries) ==>
           b.Some? && path in entries && entries[path] == e.(mtime := Some(b.value.mtime), content := b.value.content))
    }

    /** A directory e at path is still there; a device still is one, and has all it had. */
    ghost predicate Outlasts(e: Entry, path: Data)
      reads this
    {
      && (e.Directory? ==> path in entries && entries[path] == e)
      && (e.Device? ==> path in entries && entries[path].Device? && Prefix(e.content, entries[path].content))
    }

    /** Read one msg.data, or a request. */
    method ReadMessage() returns (got: bool, id: nat, n: nat)
      modifies fd
      ensures got ==> var d := old(fd.data); |d| >= 8 && id == HeadId(d) && n == HeadLen(d) && fd.data == d[8..]
      ensures old(fd.Sound()) ==> fd.Sound() && (got <==> |old(fd.data)| >= 8) && (!got ==> fd.data == [])
    {
      var head;
      got, head := ReadFdExactly(fd, 8);
      if !got {
        return false, 0, 0;
      }
      ReadHead(head, old(fd.data), fd.data);
      id, n := HeadId(head), HeadLen(head);
    }

    /** One message of handle_send_file's loop; more if it was DATA and is on file. */
    method NextMessage(path: Data, doUnlink: bool) returns (r: Outcome, more: bool)
      requires Valid() && path in entries && (if doUnlink then entries[path].File? else entries[path].Device?)
      modifies `entries, `buffer, `faults, fd, out
      ensures Valid() && (r == Stored || r == Refused || r == Spins)
      ensures more ==>
        && r == Stored && |fd.data| < |old(fd.data)| && out.sent == old(out.sent)
        && path in entries && Holding(path) && entries[path] == old(entries)[path].(content := entries[path].content)
        && ParseBody(fd.data, entries[path].content) == ParseBody(old(fd.data), old(entries)[path].content)
      ensures !more ==> AllOrNothing(r, path, old(entries)[path], ParseBody(old(fd.data), old(entries)[path].content))
      ensures !more && r == Stored ==>
        && fd.data == ParseBody(old(fd.data), old(entries)[path].content).value.rest
        && out.sent == old(out.sent) + Header(ID_OKAY, 0)
      ensures entries - {path} == old(entries) - {path}
      ensures !doUnlink ==> Outlasts(old(entries)[path], path)
      ensures old(Good()) ==> (r == Stored <==> more || ParseBody(old(fd.data), old(entries)[path].content).Some?)
      ensures old(Good()) && r == Stored ==> Good()
      ensures old(Good()) ==> if more then Endless(fd.data) == Endless(old(fd.data)) else r == Spins <==> Endless(old(fd.data))
    {
      more := false;
      var got, id, n := ReadMessage();
      if !got {
        r := Fail(path, doUnlink);
      } else if id == ID_DONE {
        r := Finish(path, n);
      } else if id != ID_DATA {
        r := Abort(path, Ascii("invalid data message"), doUnlink);
      } else if n > SYNC_DATA_MAX {
        r := Abort(path, Ascii("oversize data message"), doUnlink);
      } else {
        ParseChunk(old(fd.data), entries[path].content);
        assert n <= |fd.data| ==> old(fd.data)[8 + n..] == fd.data[n..];
        r := TakeChunk(path, n, doUnlink);
        more := r == Stored;
      }
    }

    /** The loop of handle_send_file, into the entry that was opened. */
    method ReceiveFile(path: Data, doUnlink: bool) returns (r: Outcome)
      requires Valid() && path in entries && (if doUnlink then entries[path].File? else entries[path].Device?)
      modifies `entries, `buffer, `faults, fd, out
      ensures Valid() && (r == Stored || r == Refused || r == Spins)
      ensures AllOrNothing(r, path, old(entries)[path], ParseBody(old(fd.data), old(entries)[path].content))
      ensures entries - {path} == old(entries) - {path}
      ensures !doUnlink ==> Outlasts(old(entries)[path], path)
      ensures r == Stored ==>
        && fd.data == ParseBody(old(fd.data), old(entries)[path].content).value.rest && out.sent == old(out.sent) + Header(ID_OKAY, 0)
      ensures old(Good()) ==> (r == Stored <==> ParseBody(old(fd.data), old(entries)[path].content).Some?) && (r == Stored ==> Good())
      ensures old(Good()) ==> (r == Spins <==> Endless(old(fd.data)))
    {
      ghost var e := entries[path];
      ghost var body := ParseBody(fd.data, e.content);
      var more := true;
      r := Stored;
      while more
        invariant Valid() && entries - {path} == old(entries) - {path} && (!doUnlink ==> Outlasts(e, path))
        invariant more ==> r == Stored && path in entries && Holding(path) && entries[path] == e.(content := entries[path].content)
        invariant more ==> ParseBody(fd.data, entries[path].content) == body
        invariant more ==> out.sent == old(out.sent) && (old(Good()) ==> Good())
        invariant !more ==> AllOrNothing(r, path, e, body)
        invariant r == Stored || r == Refused || r == Spins
        invariant !more && r == Stored ==> fd.data == body.value.rest && out.sent == old(out.sent) + Header(ID_OKAY, 0)
        invariant old(Good()) && !more ==> (r == Stored <==> body.Some?) && (r == Stored ==> Good())
        invariant old(Good()) ==> if more then Endless(fd.data) == Endless(old(fd.data)) else r == Spins <==> Endless(old(fd.data))
        decreases more, |fd.data|
      {
        r, more := NextMessage(path, doUnlink);
      }
    }

    /**
     handle_send_file, for a path that do_send has freed, or that names a device or a directory. A push that
     succeeds stores the whole content; one that is refused leaves no file behind.
     */
    method HandleSendFile(path: Data, perm: bv16, doUnlink: bool) returns (r: Outcome)
      requires Valid() && (if doUnlink then path !in entries else Special(entries, path))
      modifies `entries, `buffer, `faults, fd, out
      ensures Valid() && (r == Stored || r == Refused || r == Spins)
      ensures r == Stored ==>
        var b := ParseBody(old(fd.data), []);
        && b.Some? && fd.data == b.value.rest && out.sent == old(out.sent) + Header(ID_OKAY, 0)
        && entries == old(entries)[path := Written(old(entries), path, perm, b.value.mtime, b.value.content)]
      ensures r == Refused && doUnlink && path in entries ==>
        var b := ParseBody(old(fd.data), []); b.Some? && entries[path] == File(perm, Some(b.value.mtime), b.value.content)
      ensures entries - {path} == old(entries) - {path}
      ensures !doUnlink ==> Outlasts(old(entries)[path], path)
      ensures old(Good()) ==>
        (r == Stored <==> ParseBody(old(fd.data), []).Some? && !old(Blocked(entries, path, 0))) && (r == Stored ==> Good())
      ensures old(Good()) ==> (r == Spins <==> Endless(old(fd.data)))
    {
      ghost var before := if Special(entries, path) && entries[path].Device? then entries[path].content else [];
      ParseBodyFrom(fd.data, before, []);
      assert before + [] == before;
      EndlessHasNoBody(fd.data, []);
      var ok := OpenFile(path, perm, doUnlink);
      if !ok {
        var sent := SendSyncFail(Ascii("couldn't create file"));
        r := Fail(path, doUnlink);
        return;
      }
      r := ReceiveFile(path, doUnlink);
      assert r == Stored ==> entries == (entries - {path})[path := entries[path]];
    }

    /** A new file, or the device that is there, which gets the new mode. */
    method OpenFile(path: Data, perm: bv16, doUnlink: bool) returns (ok: bool)
      requires if doUnlink then path !in entries else Special(entries, path)
      modifies `entries, `faults
      ensures ok ==> path in entries && entries - {path} == old(entries) - {path}
      ensures ok && doUnlink ==> entries[path] == File(perm, None, [])
      ensures ok && !doUnlink ==>
        var e := old(entries)[path]; e.Device? && entries[path] == Device(perm, e.mtime, e.content)
      ensures !ok ==> entries == old(entries)
      ensures old(NoFaults()) ==> NoFaults() && (ok <==> doUnlink || entries[path].Device?)
    {
      ok := Attempt();
      if !ok || (!doUnlink && entries[path].Directory?) {
        return false;
      }
      entries := entries[path := if doUnlink then File(perm, None, []) else Device(perm, entries[path].mtime, entries[path].content)];
    }

    /** A complaint, and the label abort. */
    method Abort(path: Data, reason: Data, doUnlink: bool) returns (r: Outcome)
      modifies `entries, out
      ensures r == Refused && entries == if doUnlink then old(entries) - {path} else old(entries)
    {
      var sent := SendSyncFail(reason);
      if doUnlink {
        entries := entries - {path};
      }
      r := Refused;
    }

    /** The payload of one DATA message, appended to the file. */
    method TakeChunk(path: Data, n: nat, doUnlink: bool) returns (r: Outcome)
      requires Valid() && n <= SYNC_DATA_MAX && path in entries && Holding(path)
      modifies `entries, `buffer, `faults, fd, out
      ensures Valid() && (r == Stored || r == Refused || r == Spins)
      ensures r == Stored ==>
        && n <= |old(fd.data)| && fd.data == old(fd.data)[n..] && out.sent == old(out.sent)
        && entries == old(entries)[path := old(entries)[path].(content := old(entries)[path].content + old(fd.data)[..n])]
      ensures r == Refused ==> entries == if doUnlink then old(entries) - {path} else old(entries)
      ensures r == Spins ==> entries == old(entries)
      ensures old(Good()) ==> r != Spins && (r == Stored <==> n <= |old(fd.data)|) && (r == Stored ==> Good())
    {
      var got, b := ReadFdExactly(fd, n);
      buffer := Overlaid(b, buffer);
      if !got {
        if doUnlink {
          entries := entries - {path};
        }
        return Refused;
      }
      assert b == old(fd.data)[..n] && fd.data == old(fd.data)[n..];
      var written := Attempt();
      if !written {
        var sent := SendSyncFail(Ascii("write failed"));
        r := Fail(path, doUnlink);
        return;
      }
      entries := entries[path := entries[path].(content := entries[path].content + buffer[..n])];
      r := Stored;
    }

    /**
     handle_send_link: the link is made from the receive buffer, up to its first NUL, and before DONE is seen.
     symlink does not replace what is there.
     */
    method HandleSendLink(path: Data) returns (r: Outcome)
      requires Valid()
      modifies `entries, `buffer, `faults, fd, out
      ensures Valid() && (r == Stored || r == Refused)
      ensures entries - {path} == old(entries) - {path} && (path in old(entries) ==> entries == old(entries))
      ensures r == Stored ==>
        var b := ParseLink(old(fd.data));
        && b.Some? && fd.data == b.value.rest && out.sent == old(out.sent) + Header(ID_OKAY, 0)
        && entries == old(entries)[path := Link(UpToNul(Overlaid(b.value.content, old(buffer))))]
      ensures old(Good()) ==>
        (r == Stored <==> ParseLink(old(fd.data)).Some? && path !in old(entries)) && (r == Stored ==> Good())
    {
      var got, id, n := ReadMessage();
      if !got {
        return Refused;
      }
      if id != ID_DATA {
        var sent := SendSyncFail(Ascii("invalid data message: expected ID_DATA"));
        return Refused;
      }
      if n > SYNC_DATA_MAX {
        var sent := SendSyncFail(Ascii("oversize data message"));
        return Refused;
      }
      ghost var d := fd.data;
      var ok, b := ReadFdExactly(fd, n);
      buffer := Overlaid(b, buffer);
      if !ok {
        return Refused;
      }
      assert b == d[..n] == old(fd.data)[8..8 + n] && fd.data == d[n..] == old(fd.data)[8 + n..];
      var made := Attempt();
      if !made || path in entries {
        var sent := SendSyncFail(Ascii("symlink failed"));
        return Refused;
      }
      entries := entries[path := Link(UpToNul(buffer))];
      r := FinishLink();
    }

    /** The end of handle_send_link: DONE, and the answer. */
    method FinishLink() returns (r: Outcome)
      modifies fd, out
      ensures r == Stored || r == Refused
      ensures var d := old(fd.data);
        && (r == Stored ==> |d| >= 8 && HeadId(d) == ID_DONE && fd.data == d[8..] && out.sent == old(out.sent) + Header(ID_OKAY, 0))
        && (old(fd.Sound() && out.Sound()) ==> (r == Stored <==> |d| >= 8 && HeadId(d) == ID_DONE))
      ensures old(fd.Sound() && out.Sound()) ==> fd.Sound() && out.Sound()
    {
      var got, id, n := ReadMessage();
      if !got {
        return Refused;
      }
      if id == ID_DONE {
        var ok := WriteFdExactly(out, Header(ID_OKAY, 0));
        r := if ok then Stored else Refused;
      } else {
        var sent := SendSyncFail(Ascii("invalid data message: expected ID_DONE"));
        r := Refused;
      }
    }

    /** What do_send does once it has path and mode. */
    ghost function Body(mode: nat): Option<SyncWire.Body>
      reads fd
    {
      if IsLink(mode) then ParseLink(fd.data) else ParseBody(fd.data, [])
    }

    /** Where only path was touched, what is special lasts. */
    lemma SpecialStay(before: Files, path: Data)
      requires entries - {path} == before - {path} && (path in before ==> Outlasts(before[path], path))
      ensures forall x :: x in before && before[x] == Directory ==> x in entries && entries[x] == Directory
      ensures forall x :: x in before && before[x].Device? ==> x in entries && entries[x].Device? && Prefix(before[x].content, entries[x].content)
    {
      forall x | x in before && x != path ensures x in entries && entries[x] == before[x] {
        assert x in before - {path} && (before - {path})[x] == before[x] && (entries - {path})[x] == entries[x];
      }
    }

    /** do_send: a file or a link that is in the way is unlinked first. */
    method DoSend(spec: Data) returns (r: Outcome)
      requires Valid()
      modifies `entries, `buffer, `faults, fd, out
      ensures Valid() && (r == Stored || r == Refused || r == Spins)
      ensures r == Stored ==>
        && ParseSpec(spec).Some? && var (path, mode) := ParseSpec(spec).value;
          var b := old(Body(mode));
          && b.Some? && fd.data == b.value.rest && out.sent == old(out.sent) + Header(ID_OKAY, 0)
          && entries == old(entries)[path := EntryFor(Received(path, mode, b.value), old(buffer), old(entries))]
      ensures r != Stored && ParseSpec(spec).None? ==> entries == old(entries)
      ensures r != Stored && ParseSpec(spec).Some? ==> var path := ParseSpec(spec).value.0; entries - {path} == old(entries) - {path}
      ensures old(Good()) ==>
        (r == Stored <==> ParseSpec(spec).Some? && var (path, mode) := ParseSpec(spec).value;
          old(Body(mode)).Some? && !Blocked(old(entries), path, mode))
      ensures old(Good()) && r == Stored ==> Good()
      ensures old(Good()) ==> (r == Spins <==> HangsIn(spec, old(fd.data)))
      // A directory stays; a device stays one and takes what is written after what it had.
      ensures forall path :: path in old(entries) && old(entries)[path] == Directory ==> path in entries && entries[path] == Directory
      ensures forall path :: path in old(entries) && old(entries)[path].Device? ==>
        path in entries && entries[path].Device? && Prefix(old(entries)[path].content, entries[path].content)
    {
      var comma := LastComma(spec);
      if comma.None? {
        var sent := SendSyncFail(Ascii("missing , in ID_SEND"));
        return Refused;
      }
      var path := spec[..comma.value];
      var mode := ParseMode(spec[comma.value + 1..]);
      if mode.None? {
        var sent := SendSyncFail(Ascii("bad mode"));
        return Refused;
      }
      r := Replace(path, mode.value);
      SpecialStay(old(entries), path);
    }

    /** A file or a link that is in the way is unlinked. */
    method Unlink(path: Data) returns (doUnlink: bool)
      modifies `entries
      ensures doUnlink <==> !old(Special(entries, path))
      ensures entries == if doUnlink then old(entries) - {path} else old(entries)
    {
      doUnlink := !Special(entries, path);
      if doUnlink {
        entries := entries - {path};
      }
    }

    /** do_send once it has path and mode, for a link. */
    method ReplaceByLink(path: Data) returns (r: Outcome)
      requires Valid()
      modifies `entries, `buffer, `faults, fd, out
      ensures Valid() && (r == Stored || r == Refused) && entries - {path} == old(entries) - {path}
      ensures path in old(entries) ==> Outlasts(old(entries)[path], path)
      ensures r == Stored ==>
        var b := ParseLink(old(fd.data));
        && b.Some? && fd.data == b.value.rest && out.sent == old(out.sent) + Header(ID_OKAY, 0)
        && entries == old(entries)[path := Link(UpToNul(Overlaid(b.value.content, old(buffer))))]
      ensures old(Good()) ==>
        (r == Stored <==> ParseLink(old(fd.data)).Some? && !Special(old(entries), path)) && (r == Stored ==> Good())
    {
      var doUnlink := Unlink(path);
      ghost var free := entries;
      r := HandleSendLink(path);
      if r == Stored { PutOver(free, old(entries), path, entries[path]); }
    }

    /** For a file. */
    method ReplaceByFile(path: Data, perm: bv16) returns (r: Outcome)
      requires Valid()
      modifies `entries, `buffer, `faults, fd, out
      ensures Valid() && (r == Stored || r == Refused || r == Spins) && entries - {path} == old(entries) - {path}
      ensures path in old(entries) ==> Outlasts(old(entries)[path], path)
      ensures r == Stored ==>
        var b := ParseBody(old(fd.data), []);
        && b.Some? && fd.data == b.value.rest && out.sent == old(out.sent) + Header(ID_OKAY, 0)
        && entries == old(entries)[path := Written(old(entries), path, perm, b.value.mtime, b.value.content)]
      ensures old(Good()) ==>
        (r == Stored <==> ParseBody(old(fd.data), []).Some? && !Blocked(old(entries), path, 0)) && (r == Stored ==> Good())
      ensures old(Good()) ==> (r == Spins <==> Endless(old(fd.data)))
    {
      var doUnlink := Unlink(path);
      ghost var free := entries;
      r := HandleSendFile(path, perm, doUnlink);
      if r == Stored { PutOver(free, old(entries), path, entries[path]); }
    }

    /** do_send once it has path and mode. */
    method Replace(path: Data, mode: nat) returns (r: Outcome)
      requires Valid()
      modifies `entries, `buffer, `faults, fd, out
      ensures Valid() && (r == Stored || r == Refused || r == Spins)
      ensures r == Stored ==>
        var b := old(Body(mode));
        && b.Some? && fd.data == b.value.rest && out.sent == old(out.sent) + Header(ID_OKAY, 0)
        && entries == old(entries)[path := EntryFor(Received(path, mode, b.value), old(buffer), old(entries))]
      ensures entries - {path} == old(entries) - {path}
      ensures path in old(entries) ==> Outlasts(old(entries)[path], path)
      ensures old(Good()) ==> (r == Stored <==> old(Body(mode)).Some? && !Blocked(old(entries), path, mode))
      ensures old(Good()) && r == Stored ==> Good()
      ensures old(Good()) ==> (r == Spins <==> !IsLink(mode) && Endless(old(fd.data)))
    {
      if IsLink(mode) {
        r := ReplaceByLink(path);
      } else {
        r := ReplaceByFile(path, Permissions(mode));
      }
    }

    /** handle_sync_command after the header: the name, and the command, for SEND and QUIT. */
    method HandleRequest(id: nat, n: nat) returns (r: Outcome)
      requires Valid() && n <= PATH_LIMIT
      modifies `entries, `buffer, `faults, fd, out
      ensures Valid()
      ensures r == Stored ==>
        var x := ParseRequest(id, n, old(fd.data));
        && x.Some? && fd.data == x.value.body.rest && out.sent == old(out.sent) + Header(ID_OKAY, 0)
        && entries == old(entries)[x.value.path := EntryFor(x.value, old(buffer), old(entries))]
      ensures old(Good()) && r != Stored ==> !Acceptable(ParseRequest(id, n, old(fd.data)), old(entries))
      ensures old(Good()) ==> (r == Spins <==> Hangs(id, n, old(fd.data)))
      ensures old(Good()) && r == Stored ==> Good()
      ensures r == Quit ==> id == ID_QUIT
      ensures r == Quit || r.Other? ==> entries == old(entries) && out.sent == old(out.sent)
      ensures old(Good()) && id == ID_QUIT && n == 0 ==> r == Quit && fd.data == old(fd.data)
    {
      ghost var e := fd.data;
      var ok, b := ReadFdExactly(fd, n);
      if !ok {
        var sent := SendSyncFail(Ascii("filename read failure"));
        return Refused;
      }
      assert b == e[..n] && fd.data == e[n..];
      if id == ID_SEND {
        r := DoSend(UpToNul(b));
      } else if id == ID_QUIT {
        r := Quit;
      } else {
        r := Other(id);
      }
    }

    /** handle_sync_command; a command other than SEND and QUIT is handed back before it is carried out. */
    method HandleSyncCommand() returns (r: Outcome)
      requires Valid()
      modifies `entries, `buffer, `faults, fd, out
      ensures Valid()
      ensures r == Stored ==>
        var x := ParseSend(old(fd.data));
        && x.Some? && fd.data == x.value.body.rest && out.sent == old(out.sent) + Header(ID_OKAY, 0)
        && entries == old(entries)[x.value.path := EntryFor(x.value, old(buffer), old(entries))]
      ensures old(Good()) && r != Stored ==> !Acceptable(ParseSend(old(fd.data)), old(entries))
      ensures old(Good()) ==> (r == Spins <==> var d := old(fd.data); |d| >= 8 && Hangs(HeadId(d), HeadLen(d), d[8..]))
      ensures old(Good()) && r == Stored ==> Good()
      ensures r == Quit ==> |old(fd.data)| >= 8 && HeadId(old(fd.data)) == ID_QUIT
      ensures r == Quit || r.Other? ==> entries == old(entries) && out.sent == old(out.sent)
      ensures old(Good()) && Prefix(Header(ID_QUIT, 0), old(fd.data)) ==> r == Quit && fd.data == old(fd.data)[8..]
    {
      QuitHead(fd.data);
      var got, id, n := ReadMessage();
      if !got {
        var sent := SendSyncFail(Ascii("command read failure"));
        return Refused;
      }
      if n > PATH_LIMIT {
        var sent := SendSyncFail(Ascii("path too long"));
        return Refused;
      }
      r := HandleRequest(id, n);
    }

    /**
     file_sync_service, which serves until a command fails or is QUIT. Given the bytes of a sequence of
     proper pushes and a QUIT, it stores them all in order, reads no byte too few or too many, and answers
     OKAY once for each.
     */
    method FileSyncService(ghost ps: seq<Push>) returns (r: Outcome)
      requires Valid()
      modifies `entries, `buffer, `faults, fd, out
      ensures old(Good()) && AllProper(ps) && Clear(old(entries), ps) && old(fd.data) == Wires(ps) + Header(ID_QUIT, 0) ==>
        && r == Quit && fd.data == []
        && entries == Applied(old(entries), ps) && out.sent == old(out.sent) + Okays(|ps|)
    {
      ghost var asked := Good() && AllProper(ps) && Clear(entries, ps) && fd.data == Wires(ps) + Header(ID_QUIT, 0);
      ghost var i := 0;
      r := Stored;
      assert ps[..0] == [] && ps[0..] == ps && out.sent + Okays(0) == out.sent;
      while r == Stored
        invariant Valid()
        invariant asked && r == Stored ==> Good()
        invariant asked ==> i <= |ps| && entries == Applied(old(entries), ps[..i])
        invariant asked ==> out.sent == old(out.sent) + Okays(i)
        invariant asked ==> if r == Stored then fd.data == Wires(ps[i..]) + Header(ID_QUIT, 0) else r == Quit && fd.data == [] && i == |ps|
        decreases r == Stored, |fd.data|
      {
        if asked {
          AppliedClear(old(entries), ps, i);
          Upcoming(fd.data, entries, buffer, ps, i);
        }
        r := HandleSyncCommand();
        if asked && i < |ps| {
          ApplyNext(old(entries), ps, i);
          ConcatAssoc(old(out.sent), Okays(i), Header(ID_OKAY, 0));
          i := i + 1;
        }
      }
      assert ps[..|ps|] == ps;
    }
  }

  function Wires(ps: seq<Push>): Data {
    if ps == [] then [] else Wire(ps[0]) + Wires(ps[1..])
  }

  function Okays(n: nat): Data {
    if n == 0 then [] else Okays(n - 1) + Header(ID_OKAY, 0)
  }

  ghost predicate AllProper(ps: seq<Push>) {
    forall i :: 0 <= i < |ps| ==> Proper(ps[i])
  }

  /** What a push is meant to leave behind. */
  function Meant(p: Push): Entry {
    if IsLink(p.mode) then Link(UpToNul(Flat(p.chunks))) else File(Permissions(p.mode), Some(p.mtime), Flat(p.chunks))
  }

  /** The files after all these pushes, the last one winning. */
  function Applied(files: Files, ps: seq<Push>): Files {
    if ps == [] then files else Applied(files, ps[..|ps| - 1])[ps[|ps| - 1].path := Meant(ps[|ps| - 1])]
  }

  /** None of the paths names a directory or a device. */
  ghost predicate Clear(files: Files, ps: seq<Push>) {
    forall i :: 0 <= i < |ps| ==> !Special(files, ps[i].path)
  }

  /** Pushing makes no directory or device. */
  lemma {:induction false} AppliedClear(files: Files, ps: seq<Push>, i: nat)
    requires i <= |ps|
    ensures forall path :: Special(Applied(files, ps[..i]), path) ==> Special(files, path)
    decreases i
  {
    if i > 0 {
      ApplyNext(files, ps, i - 1);
      AppliedClear(files, ps, i - 1);
    } else {
      assert ps[..0] == [];
    }
  }

  lemma ApplyNext(files: Files, ps: seq<Push>, i: nat)
    requires i < |ps|
    ensures Applied(files, ps[..i + 1]) == Applied(files, ps[..i])[ps[i].path := Meant(ps[i])]
  {
    assert ps[..i + 1][..i] == ps[..i];
  }

  lemma {:induction false} UpToNulStops(s: Data, t: Data)
    requires 0 in s
    ensures UpToNul(s + t) == UpToNul(s)
  {
    if s[0] != 0 {
      assert (s + t)[1..] == s[1..] + t;
      assert 0 in s[1..];
      UpToNulStops(s[1..], t);
    }
  }

  /** What the service stores for a proper push is what was meant, whatever its buffer held before. */
  lemma StoredAsMeant(p: Push, buffer: Data, rest: Data, files: Files)
    requires Proper(p) && !Special(files, p.path)
    ensures EntryFor(Received(p.path, p.mode, Body(Flat(p.chunks), p.mtime, rest)), buffer, files) == Meant(p)
  {
    if IsLink(p.mode) {
      var c := p.chunks[0];
      OneChunk(p.chunks);
      if |c| <= |buffer| {
        UpToNulStops(c, buffer[|c|..]);
      }
    }
  }

  /** What is at the head of the stream after i of the pushes: the next one, or QUIT. */
  lemma Upcoming(d: Data, files: Files, buffer: Data, ps: seq<Push>, i: nat)
    requires i <= |ps| && AllProper(ps) && Clear(files, ps) && d == Wires(ps[i..]) + Header(ID_QUIT, 0)
    ensures i == |ps| ==> Prefix(Header(ID_QUIT, 0), d) && d[8..] == [] && ParseSend(d).None?
    ensures i < |ps| ==>
      var x := ParseSend(d);
      && x.Some? && x.value.path == ps[i].path && EntryFor(x.value, buffer, files) == Meant(ps[i])
      && x.value.body.rest == Wires(ps[i + 1..]) + Header(ID_QUIT, 0)
  {
    if i == |ps| {
      HeaderRead(ID_QUIT, 0, []);
      assert d == Header(ID_QUIT, 0) + [] == Header(ID_QUIT, 0);
    } else {
      var rest := Wires(ps[i + 1..]) + Header(ID_QUIT, 0);
      assert ps[i..][0] == ps[i] && ps[i..][1..] == ps[i + 1..];
      ConcatAssoc(Wire(ps[i]), Wires(ps[i + 1..]), Header(ID_QUIT, 0));
      PushRoundTrip(ps[i], rest);
      StoredAsMeant(ps[i], buffer, rest, files);
    }
  }
}
