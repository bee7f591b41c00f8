/**
 Reading and writing whole buffers (src/adb_io.cpp) over descriptors that move as many bytes as they
 please, and the length-prefixed strings of the smart socket protocol.
 */
module AdbIo {
  import opened Bytes

  type Data = seq<byte>

  /** What one adb_read comes to; no bytes mean end of file. */
  datatype ReadResult = Got(b: Data) | Again | Failed

  /**
   A descriptor to read from. `data` is what will still arrive before end of file; each entry of
   `sizes` limits one read; 0 means EAGAIN, a negative one an error; later reads are not limited.
   */
  class InFd {
    var data: Data
    var sizes: seq<int>

    constructor (data: Data, sizes: seq<int>)
      ensures this.data == data && this.sizes == sizes
    {
      this.data, this.sizes := data, sizes;
    }

    /** No read will fail. */
    ghost predicate Sound()
      reads this
    {
      forall k :: 0 <= k < |sizes| ==> sizes[k] > 0
    }

    /** What reading can still use up; at 0 every further read reports end of file. */
    ghost function Left(): nat
      reads this
    {
      |data| + |sizes|
    }

    /** adb_read of up to n bytes. */
    method AdbRead(n: nat) returns (r: ReadResult)
      requires n > 0
      modifies this
      ensures r.Got? ==> r.b + data == old(data) && |r.b| <= n && (r.b == [] ==> old(data) == [])
      ensures !r.Got? ==> data == old(data) && !old(Sound())
      ensures r.Again? <==> old(sizes) != [] && old(sizes)[0] == 0
      ensures r.Failed? <==> old(sizes) != [] && old(sizes)[0] < 0
      ensures old(Sound()) ==> Sound()
      ensures Left() < old(Left()) || Left() == 0
      ensures r.Got? ==> Left() + |r.b| <= old(Left())
    {
      var k := n;
      if sizes != [] {
        k := sizes[0];
        sizes := sizes[1..];
        if k <= 0 {
          return if k == 0 then Again else Failed;
        }
      }
      k := Min(Min(k, n), |data|);
      r := Got(data[..k]);
      data := data[k..];
    }
  }

  /** ReadFdExactly: all or nothing, whatever the sizes of the single reads. */
  method ReadFdExactly(fd: InFd, len: nat) returns (ok: bool, buf: Data)
    modifies fd
    ensures ok ==> |buf| == len && buf + fd.data == old(fd.data)
    ensures old(fd.Sound()) ==> fd.Sound() && (ok <==> len <= |old(fd.data)|)
    ensures buf + fd.data == old(fd.data) && |buf| <= len
    ensures old(fd.Sound()) && !ok ==> fd.data == []
    ensures fd.Left() + |buf| <= old(fd.Left()) && (!ok ==> fd.Left() < old(fd.Left()) || fd.Left() == 0)
  {
    buf := [];
    while |buf| < len
      invariant |buf| <= len && buf + fd.data == old(fd.data) && fd.Left() + |buf| <= old(fd.Left())
      invariant old(fd.Sound()) ==> fd.Sound()
      decreases len - |buf|
    {
      var r := fd.AdbRead(len - |buf|);
      if !r.Got? || r.b == [] {
        assert r.Got? ==> fd.data == [];
        return false, buf;
      }
      ConcatAssoc(buf, r.b, fd.data);
      buf := buf + r.b;
    }
    ok := true;
  }

  /**
   A descriptor to write to. Each entry of `sizes` limits one write; 0 means EAGAIN, a negative one an
   error; later writes take everything.
   */
  class OutFd {
    var sent: Data
    var sizes: seq<int>

    constructor (sizes: seq<int>)
      ensures sent == [] && this.sizes == sizes
    {
      sent, this.sizes := [], sizes;
    }

    ghost predicate Sound()
      reads this
    {
      forall k :: 0 <= k < |sizes| ==> sizes[k] >= 0
    }

    /** adb_write: an error, or the first n bytes of b are gone; n is 0 for EAGAIN. */
    method AdbWrite(b: Data) returns (failed: bool, n: nat)
      requires b != []
      modifies this
      ensures n <= |b| && sent == old(sent) + b[..n]
      ensures failed ==> n == 0 && !old(Sound())
      ensures failed <==> old(sizes) != [] && old(sizes)[0] < 0
      ensures !failed && n == 0 ==> |sizes| < |old(sizes)|
      ensures |sizes| <= |old(sizes)| && (old(Sound()) ==> Sound())
    {
      var k := |b|;
      if sizes != [] {
        k := sizes[0];
        sizes := sizes[1..];
        if k < 0 {
          return true, 0;
        }
      }
      n := if k < |b| then k else |b|;
      sent := sent + b[..n];
      failed := false;
    }
  }

  /** WriteFdExactly: everything, in order, or an error after a prefix. */
  method WriteFdExactly(fd: OutFd, b: Data) returns (ok: bool)
    modifies fd
    ensures ok ==> fd.sent == old(fd.sent) + b
    ensures !ok ==> Prefix(old(fd.sent), fd.sent) && Prefix(fd.sent, old(fd.sent) + b)
    ensures old(fd.Sound()) ==> ok && fd.Sound()
  {
    var left := b;
    ghost var k := 0;
    assert b[..0] == [];
    while left != []
      invariant k <= |b| && left == b[k..] && fd.sent == old(fd.sent) + b[..k]
      invariant old(fd.Sound()) ==> fd.Sound()
      decreases |left|, |fd.sizes|
    {
      var failed, n := fd.AdbWrite(left);
      if failed {
        return false;
      }
      assert b[..k] + left[..n] == b[..k + n];
      ConcatAssoc(old(fd.sent), b[..k], left[..n]);
      left, k := left[n..], k + n;
    }
    ok := true;
  }
}
