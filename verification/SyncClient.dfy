/**
 The client's end of a file push (src/file_sync_client.cpp): SendRequest, SendSmallFile, SendLargeFile,
 CopyDone and sync_send, and whole sessions of both ends.
 */
module SyncClient {
  import opened Bytes
  import opened AdbIo
  import opened Hex
  import opened SyncWire
  import opened SyncService

  /**
   What there is under the local path. `size` is what stat says, `content` what reading yields, which may
   have changed since; `sizes` are the sizes of the single reads as for InFd.
   */
  datatype Local =
    | Missing
    | Regular(size: nat, content: Data, sizes: seq<int>)
    | Symlink(target: Data)

  /** A WriteOrDie that fails ends the process. */
  datatype Sent = Yes | No | Died | Skipped

  const PATH_MAX: nat := 4096

  lemma OnePieceMore(sent: Data, cs: seq<Data>, b: Data, rest: Data)
    ensures sent + Chunks(cs) + ChunkBytes(b) == sent + Chunks(cs + [b])
    ensures Flat(cs + [b]) == Flat(cs) + b && Flat(cs) + (b + rest) == Flat(cs + [b]) + rest
  {
    ChunksAppend(cs, b);
    ConcatAssoc(sent, Chunks(cs), ChunkBytes(b));
    FlatAppend(cs, [b]);
    FlatOne(b);
    ConcatAssoc(Flat(cs), b, rest);
  }

  class SyncConnection {
    const up: OutFd
    const down: InFd
    var expectDone: bool
    var files: nat     // files_transferred of the ledger
    var skipped: nat   // files_skipped
    var bytes: nat     // bytes_transferred

    constructor (up: OutFd, down: InFd)
      ensures this.up == up && this.down == down && !expectDone && files == 0 && skipped == 0 && bytes == 0
    {
      this.up, this.down, expectDone, files, skipped, bytes := up, down, false, 0, 0, 0;
    }

    /** SendRequest */
    method SendRequest(id: nat, name: Data) returns (ok: bool)
      modifies up
      ensures ok ==> |name| <= PATH_LIMIT && up.sent == old(up.sent) + (Header(id, |name|) + name)
      ensures old(up.Sound()) ==> up.Sound() && (ok <==> |name| <= 1024) && (!ok ==> up.sent == old(up.sent))
    {
      if |name| > PATH_LIMIT {
        return false;
      }
      ok := WriteFdExactly(up, Header(id, |name|) + name);
    }

    /** SendSmallFile: header, payload and footer in one write. */
    method SendSmallFile(name: Data, mtime: nat, data: Data) returns (r: Sent)
      modifies `expectDone, `bytes, up
      ensures r != Skipped
      ensures r == Yes ==>
        && up.sent == old(up.sent) + (Header(ID_SEND, |name|) + name + Chunks([data]) + Header(ID_DONE, mtime))
        && expectDone && bytes == old(bytes) + |data| && |name| <= PATH_LIMIT
      ensures old(up.Sound()) ==> up.Sound() && (r == Yes || r == No) && (r == Yes <==> |name| <= PATH_LIMIT)
    {
      if |name| > PATH_LIMIT {
        return No;
      }
      OneChunk([data]);
      var buf := Header(ID_SEND, |name|) + name;
      buf := buf + ChunkBytes(data);
      buf := buf + Header(ID_DONE, mtime);
      var ok := WriteFdExactly(up, buf);
      if !ok {
        return Died;
      }
      expectDone, bytes := true, bytes + |data|;
      r := Yes;
    }

    /**
     The copy loop of SendLargeFile. `errors` says after which pieces the service turns out to have
     complained already; then the rest of the file is not sent.
     */
    method SendPieces(lfd: InFd, errors: seq<bool>) returns (r: Sent, ghost cs: seq<Data>)
      requires lfd != down
      modifies `bytes, up, lfd
      ensures r != Skipped
      ensures r == Yes ==>
        && up.sent == old(up.sent) + Chunks(cs) && Flat(cs) + lfd.data == old(lfd.data) && bytes == old(bytes) + |Flat(cs)|
        && (forall i :: 0 <= i < |cs| ==> 0 < |cs[i]| <= SYNC_DATA_MAX)
        && ((forall k :: 0 <= k < |errors| ==> !errors[k]) ==> lfd.data == [])
      ensures old(up.Sound()) ==> up.Sound() && (r == Yes || r == No)
      ensures old(lfd.Sound()) ==> r != No
    {
      cs := [];
      var k := 0;
      while true
        invariant up.sent == old(up.sent) + Chunks(cs) && Flat(cs) + lfd.data == old(lfd.data) && bytes == old(bytes) + |Flat(cs)|
        invariant forall i :: 0 <= i < |cs| ==> 0 < |cs[i]| <= SYNC_DATA_MAX
        invariant old(up.Sound()) ==> up.Sound()
        invariant old(lfd.Sound()) ==> lfd.Sound()
        decreases |lfd.data|
      {
        var b := lfd.AdbRead(SYNC_DATA_MAX);
        if !b.Got? {
          return No, cs;
        }
        if b.b == [] {
          break;
        }
        OnePieceMore(old(up.sent), cs, b.b, lfd.data);
        var ok := WriteFdExactly(up, ChunkBytes(b.b));
        if !ok {
          return Died, cs;
        }
        bytes, cs := bytes + |b.b|, cs + [b.b];
        if k < |errors| && errors[k] {
          break;
        }
        k := k + 1;
      }
      r := Yes;
    }

    /** SendLargeFile */
    method SendLargeFile(name: Data, mtime: nat, local: Local, errors: seq<bool>) returns (r: Sent, ghost cs: seq<Data>)
      modifies `expectDone, `bytes, up
      ensures r != Skipped
      ensures r == Yes ==>
        && up.sent == old(up.sent) + (Header(ID_SEND, |name|) + name + Chunks(cs) + Header(ID_DONE, mtime))
        && local.Regular? && Prefix(Flat(cs), local.content) && expectDone && bytes == old(bytes) + |Flat(cs)|
        && |name| <= PATH_LIMIT && (forall i :: 0 <= i < |cs| ==> 0 < |cs[i]| <= SYNC_DATA_MAX)
        && ((forall k :: 0 <= k < |errors| ==> !errors[k]) ==> Flat(cs) == local.content)
      ensures old(up.Sound()) ==> up.Sound() && (r == Yes || r == No)
      ensures old(up.Sound()) && local.Regular? && |name| <= PATH_LIMIT && (forall k :: 0 <= k < |local.sizes| ==> local.sizes[k] > 0) ==> r == Yes
    {
      cs := [];
      var ok := SendRequest(ID_SEND, name);
      if !ok || !local.Regular? {
        return No, cs;
      }
      var lfd := new InFd(local.content, local.sizes);
      r, cs := SendPieces(lfd, errors);
      if r != Yes {
        return;
      }
      PrefixOfConcat(Flat(cs), lfd.data);
      ghost var head := Header(ID_SEND, |name|) + name;
      ConcatAssoc(old(up.sent), head, Chunks(cs));
      ConcatAssoc(old(up.sent), head + Chunks(cs), Header(ID_DONE, mtime));
      expectDone := true;
      ok := WriteFdExactly(up, Header(ID_DONE, mtime));
      if !ok {
        return Died, cs;
      }
    }

    /** CopyDone: one file counts as transferred exactly when an expected OKAY arrives. */
    method CopyDone() returns (ok: bool)
      modifies `expectDone, `files, down
      ensures var d := old(down.data);
        if |d| >= 8 && HeadId(d) == ID_OKAY && ok then files == old(files) + (if old(expectDone) then 1 else 0) && down.data == d[8..] && !expectDone
        else files == old(files) && !ok
      ensures old(down.Sound()) ==> down.Sound() && (ok <==> |old(down.data)| >= 8 && HeadId(old(down.data)) == ID_OKAY)
    {
      var got, head := ReadFdExactly(down, 8);
      if !got {
        return false;
      }
      ReadHead(head, old(down.data), down.data);
      if HeadId(head) == ID_OKAY {
        if expectDone {
          expectDone, files := false, files + 1;
        }
        return true;
      }
      if HeadId(head) == ID_FAIL {
        var read, reason := ReadFdExactly(down, HeadLen(head));
      }
      ok := false;
    }

    /**
     sync_send up to CopyDone, without the comparison of timestamps: what it sends is the wire form of a push
     p of the local file. A link target is read into a buffer of PATH_MAX bytes; a file of less than
     SYNC_DATA_MAX bytes, as stat has it, goes in one piece.
     */
    method SendFile(local: Local, rpath: Data, mtime: nat, mode: nat, errors: seq<bool>) returns (r: Sent, ghost p: Push)
      requires 0 !in rpath && mode < WORD && mtime < WORD
      modifies `expectDone, `bytes, up
      ensures r != Skipped
      ensures p.path == rpath && p.mode == mode && p.mtime == mtime
      ensures r == Yes ==>
        && up.sent == old(up.sent) + Wire(p) && expectDone && |Spec(rpath, mode)| <= PATH_LIMIT
        && bytes == old(bytes) + |Flat(p.chunks)|
        && (IsLink(mode) ==> local.Symlink? && p.chunks == [local.target[..Min(|local.target|, PATH_MAX - 1)] + [0]])
        && (!IsLink(mode) ==> local.Regular? && Prefix(Flat(p.chunks), local.content))
        && (!IsLink(mode) && Undisturbed(errors) ==> Flat(p.chunks) == local.content)
        && (!IsLink(mode) && local.size < SYNC_DATA_MAX ==> p.chunks == [local.content])
      ensures r == Yes && Sendable(local, mode) ==> Proper(p)
      ensures old(up.Sound()) ==> up.Sound() && (r == Yes || r == No)
      ensures old(up.Sound()) && Sendable(local, mode) && |Spec(rpath, mode)| <= PATH_LIMIT ==> r == Yes
    {
      var name := Spec(rpath, mode);
      p := Push(rpath, mode, mtime, []);
      if IsLink(mode) {
        if !local.Symlink? {
          return No, p;
        }
        var buf := local.target[..Min(|local.target|, PATH_MAX - 1)] + [0];
        p := p.(chunks := [buf]);
        OneChunk([buf]);
        assert buf[|buf| - 1] == 0;
        r := SendSmallFile(name, mtime, buf);
        return;
      }
      if !local.Regular? {
        return No, p;
      }
      if local.size < SYNC_DATA_MAX {
        var whole := Readable(local.sizes);
        if !whole {
          return No, p;
        }
        p := p.(chunks := [local.content]);
        OneChunk([local.content]);
        r := SendSmallFile(name, mtime, local.content);
      } else {
        ghost var cs;
        r, cs := SendLargeFile(name, mtime, local, errors);
        p := p.(chunks := cs);
      }
    }

    /**
     sync_send; remote is what sync_lstat found at rpath, if it was asked (on a sync) and found something. On a
     connection that does not fail, with a file to send and the service's OKAY to come, it succeeds.
     */
    method SyncSend(local: Local, rpath: Data, mtime: nat, mode: nat, remote: Option<Stat>, errors: seq<bool>)
      returns (r: Sent, ghost p: Push)
      requires 0 !in rpath && mode < WORD && mtime < WORD
      modifies `expectDone, `bytes, `files, `skipped, up, down
      ensures r == Skipped <==> UpToDate(mode, mtime, remote)
      ensures r == Skipped ==> skipped == old(skipped) + 1 && up.sent == old(up.sent) && down.data == old(down.data)
      ensures r != Skipped ==> skipped == old(skipped)
      ensures files == old(files) + if r == Yes then 1 else 0
      ensures r == Yes ==> up.sent == old(up.sent) + Wire(p) && p.path == rpath && p.mode == mode && p.mtime == mtime
      ensures r == Yes && Sendable(local, mode) ==> Proper(p) && (Undisturbed(errors) ==> Carries(p, local))
      ensures r == Yes ==> |old(down.data)| >= 8 && HeadId(old(down.data)) == ID_OKAY && down.data == old(down.data)[8..]
      ensures old(up.Sound() && down.Sound()) ==> up.Sound() && down.Sound()
      ensures old(up.Sound() && down.Sound()) && !UpToDate(mode, mtime, remote) && Sendable(local, mode) ==>
        (r == Yes <==> |Spec(rpath, mode)| <= PATH_LIMIT && |old(down.data)| >= 8 && HeadId(old(down.data)) == ID_OKAY)
    {
      p := Push(rpath, mode, mtime, []);
      if UpToDate(mode, mtime, remote) {
        skipped := skipped + 1;
        return Skipped, p;
      }
      r, p := SendFile(local, rpath, mtime, mode, errors);
      if r == Yes {
        var ok := CopyDone();
        if !ok {
          r := No;
        }
      }
    }
  }

  /** What the push of a local file is to contain. */
  predicate Carries(p: Push, local: Local) {
    match local
    case Missing => false
    case Symlink(target) => p.chunks == [target[..Min(|target|, PATH_MAX - 1)] + [0]]
    case Regular(_, content, _) => Flat(p.chunks) == content
  }

  /** st_mode and st_mtime of a remote file. */
  datatype Stat = Stat(mode: nat, mtime: nat)

  /** The file type bits that two modes have in common. */
  function CommonType(a: nat, b: nat): bv8 {
    ((a / 4096 % 16) as bv8) & ((b / 4096 % 16) as bv8)
  }

  /** The remote file is a regular file of the same age, or a link that is no older: nothing needs to be sent. */
  predicate UpToDate(mode: nat, mtime: nat, remote: Option<Stat>) {
    match remote
    case None => false
    case Some(st) =>
      var common := CommonType(mode, st.mode);
      (common == 8 && st.mtime == mtime) || (common == 10 && st.mtime >= mtime)
  }

  /** The bit of a regular file in a type nibble. */
  lemma RegularBit(b: nat)
    requires b < 16
    ensures (8 as bv8) & (b as bv8) == if b >= 8 then 8 else 0
  {
    if b < 8 {
      assert b == 0 || b == 1 || b == 2 || b == 3 || b == 4 || b == 5 || b == 6 || b == 7;
    } else {
      assert b == 8 || b == 9 || b == 10 || b == 11 || b == 12 || b == 13 || b == 14 || b == 15;
    }
  }

  /**
   The types of S_IFMT are ANDed, and 8 is a regular file. So the push of a regular file is skipped for a remote file
   of the same time whose type has that bit: a regular file, but a symbolic link (10) and a socket (12) as well.
   */
  lemma RegularUpToDate(mode: nat, mtime: nat, st: Stat)
    requires mode / 0x1000 % 16 == 8
    ensures UpToDate(mode, mtime, Some(st)) <==> st.mode / 0x1000 % 16 >= 8 && st.mtime == mtime
  {
    RegularBit(st.mode / 0x1000 % 16);
  }

  /** Two links compare by the remote being no older, and a directory with nothing. */
  lemma LinkUpToDate(mode: nat, mtime: nat, st: Stat)
    requires mode / 0x1000 % 16 == 10
    ensures IsLink(st.mode) ==> (UpToDate(mode, mtime, Some(st)) <==> st.mtime >= mtime)
    ensures st.mode / 0x1000 % 16 == 4 ==> !UpToDate(mode, mtime, Some(st))
  {
    assert (10 as bv8) & 10 == 10 && (10 as bv8) & 4 == 0;
  }

  /** A remote link in the way of a regular file, of the same time: nothing is sent. */
  lemma LinkCountsAsCopy()
    ensures UpToDate(0x81A4, 7, Some(Stat(0xA1FF, 7)))
  {
    RegularUpToDate(0x81A4, 7, Stat(0xA1FF, 7));
  }

  /** ReadFileToString succeeds if no read fails. */
  method Readable(sizes: seq<int>) returns (ok: bool)
    ensures ok <==> forall k :: 0 <= k < |sizes| ==> sizes[k] > 0
  {
    ok := forall k :: 0 <= k < |sizes| ==> sizes[k] > 0;
  }

  /** No complaint arrives while a file is being sent. */
  ghost predicate Undisturbed(errors: seq<bool>) {
    forall k :: 0 <= k < |errors| ==> !errors[k]
  }

  /** A local file of the kind the mode says that can be read, and that did not outgrow a single message after stat. */
  ghost predicate Sendable(local: Local, mode: nat) {
    match local
    case Missing => false
    case Symlink(_) => IsLink(mode)
    case Regular(size, content, sizes) =>
      && !IsLink(mode) && (forall k :: 0 <= k < |sizes| ==> sizes[k] > 0)
      && (size < SYNC_DATA_MAX ==> |content| <= SYNC_DATA_MAX)
  }

  // ---------------------------------------------------------------- a session of both ends

  /** One file to push. */
  datatype Job = Job(local: Local, rpath: Data, mtime: nat, mode: nat)

  /** Nothing is in the way of a job: a C string for a path, in bounds, and a file that can be sent. */
  ghost predicate Feasible(j: Job) {
    && 0 !in j.rpath && j.mode < WORD && j.mtime < WORD && |Spec(j.rpath, j.mode)| <= PATH_LIMIT
    && Sendable(j.local, j.mode)
  }

  /** The entry a job should leave: a link to the same place, or the same bytes with the time and the spread permissions. */
  function Copy(j: Job): Entry {
    match j.local
    case Missing => File(0, None, [])
    case Symlink(target) => Link(UpToNul(target[..Min(|target|, PATH_MAX - 1)]))
    case Regular(_, content, _) => File(Permissions(j.mode), Some(j.mtime), content)
  }

  function Copied(files: Files, jobs: seq<Job>): Files {
    if jobs == [] then files else Copied(files, jobs[..|jobs| - 1])[jobs[|jobs| - 1].rpath := Copy(jobs[|jobs| - 1])]
  }

  lemma {:induction false} UpToNulAppend(s: Data)
    ensures UpToNul(s + [0]) == UpToNul(s)
  {
    if s == [] {
      assert s + [0] == [0];
    } else if s[0] != 0 {
      assert (s + [0])[1..] == s[1..] + [0];
      UpToNulAppend(s[1..]);
    }
  }

  /** What the push of a job is meant to leave is the copy. */
  lemma MeantIsCopy(p: Push, j: Job)
    requires p.path == j.rpath && p.mode == j.mode && p.mtime == j.mtime && Feasible(j) && Carries(p, j.local)
    ensures Meant(p) == Copy(j)
  {
    if j.local.Symlink? {
      OneChunk(p.chunks);
      UpToNulAppend(j.local.target[..Min(|j.local.target|, PATH_MAX - 1)]);
    }
  }

  /** A file that by stat is small goes in one piece, and is accepted only if it still is when it is read. */
  lemma GrownFileIsRefused(p: Push, content: Data, rest: Data)
    requires 0 !in p.path && p.mode < WORD && p.mtime < WORD && |Spec(p.path, p.mode)| <= PATH_LIMIT && !IsLink(p.mode)
    requires p.chunks == [content] && |content| < WORD
    ensures ParseSend(Wire(p) + rest).Some? <==> |content| <= 65536
  {
    OversizeIsRefused(p, rest);
    assert p.chunks[0] == content;
  }

  /** The connection: what one end has sent reaches the other. */
  method Carry(o: OutFd, i: InFd)
    modifies o, i
    ensures o.sent == [] && i.data == old(i.data) + old(o.sent)
    ensures old(i.data) == [] ==> i.data == old(o.sent)
    ensures old(o.Sound()) ==> o.Sound()
    ensures old(i.Sound()) ==> i.Sound()
  {
    i.data, o.sent := i.data + o.sent, [];
  }

  /** Both ends of a connection on which nothing will fail. */
  ghost predicate Sound(c: SyncConnection, s: Service)
    reads c, c.up, c.down, s, s.fd, s.out
  {
    c.down != s.fd && c.up != s.out && s.Valid() && s.Good() && c.up.Sound() && c.down.Sound()
  }

  /** And what is under way: from the client, not yet carried, and to it. */
  ghost predicate Underway(c: SyncConnection, s: Service, up: Data, down: Data)
    reads c, c.up, c.down, s, s.fd, s.out
  {
    c.up.sent == up && c.down.data == down && s.fd.data == [] && s.out.sent == []
  }

  /** What the service makes of the push of a job, when nothing else is under way. */
  lemma ServedAlone(p: Push, j: Job, buffer: Data, files: Files)
    requires Proper(p) && p.path == j.rpath && Meant(p) == Copy(j) && !Special(files, j.rpath)
    ensures var x := ParseSend(Wire(p));
      x.Some? && x.value.path == j.rpath && x.value.body.rest == [] && EntryFor(x.value, buffer, files) == Copy(j)
  {
    assert Wire(p) == Wire(p) + [];
    PushRoundTrip(p, []);
    StoredAsMeant(p, buffer, [], files);
  }

  lemma OkayAlone()
    ensures HeadId(Header(ID_OKAY, 0)) == ID_OKAY && Header(ID_OKAY, 0)[8..] == []
  {
    assert Header(ID_OKAY, 0) == Header(ID_OKAY, 0) + [];
    HeaderRead(ID_OKAY, 0, []);
  }

  /** The client's half, given that the answer is going to be OKAY. */
  method Upload(c: SyncConnection, j: Job) returns (ghost p: Push)
    requires c.up.Sound() && c.down.Sound() && Feasible(j) && c.down.data == Header(ID_OKAY, 0)
    modifies c`expectDone, c`bytes, c`files, c`skipped, c.up, c.down
    ensures c.up.Sound() && c.down.Sound() && c.up.sent == old(c.up.sent) + Wire(p) && c.down.data == []
    ensures c.files == old(c.files) + 1
    ensures Proper(p) && p.path == j.rpath && Meant(p) == Copy(j)
  {
    OkayAlone();
    var sent;
    sent, p := c.SyncSend(j.local, j.rpath, j.mtime, j.mode, None, []);
    assert sent == Yes;
    MeantIsCopy(p, j);
  }

  /** The service's half: it gives that answer. */
  method Serve(s: Service, j: Job, ghost p: Push)
    requires s.Valid() && s.Good() && s.fd.data == Wire(p) && s.out.sent == [] && !Special(s.entries, j.rpath)
    requires Proper(p) && p.path == j.rpath && Meant(p) == Copy(j)
    modifies s, s.fd, s.out
    ensures s.Valid() && s.Good() && s.fd.data == [] && s.out.sent == Header(ID_OKAY, 0)
    ensures s.entries == old(s.entries)[j.rpath := Copy(j)]
  {
    ServedAlone(p, j, s.buffer, s.entries);
    var r := s.HandleSyncCommand();
    assert r == Stored;
    assert [] + Header(ID_OKAY, 0) == Header(ID_OKAY, 0);
  }

  /**
   One file from end to end. What a descriptor will deliver is its data from the start, so the answer the
   client waits for is there when sync_send runs; the service then gives exactly that answer.
   */
  method PushOne(c: SyncConnection, s: Service, j: Job)
    requires Sound(c, s) && Underway(c, s, [], []) && Feasible(j) && !Special(s.entries, j.rpath)
    modifies c, c.up, c.down, s, s.fd, s.out
    ensures Sound(c, s) && Underway(c, s, [], [])
    ensures c.files == old(c.files) + 1 && s.entries == old(s.entries)[j.rpath := Copy(j)]
  {
    c.down.data := Header(ID_OKAY, 0);
    ghost var answer := c.down.data;
    ghost var p := Upload(c, j);
    Carry(c.up, s.fd);
    Serve(s, j, p);
    assert s.out.sent == answer;
    s.out.sent := [];
  }

  /**
   Any sequence of pushes without errors, however the bytes are cut up on the way: the device ends up with a
   copy of each file, later ones over earlier ones, and the client has counted each file once.
   */
  method PushAll(c: SyncConnection, s: Service, jobs: seq<Job>)
    requires Sound(c, s) && Underway(c, s, [], []) && forall i :: 0 <= i < |jobs| ==> Feasible(jobs[i]) && !Special(s.entries, jobs[i].rpath)
    modifies c, c.up, c.down, s, s.fd, s.out
    ensures Sound(c, s) && Underway(c, s, [], [])
    ensures c.files == old(c.files) + |jobs| && s.entries == Copied(old(s.entries), jobs)
  {
    var i := 0;
    while i < |jobs|
      invariant i <= |jobs| && Sound(c, s) && Underway(c, s, [], [])
      invariant c.files == old(c.files) + i && s.entries == Copied(old(s.entries), jobs[..i])
      invariant forall k :: 0 <= k < |jobs| ==> !Special(s.entries, jobs[k].rpath)
    {
      PushOne(c, s, jobs[i]);
      i := i + 1;
      assert jobs[..i][..i - 1] == jobs[..i - 1];
    }
    assert jobs[..i] == jobs;
  }
}
