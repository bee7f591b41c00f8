/**
 The data pump of a shell service (class Subprocess in src/shell_service.cpp): packets from the client
 to the child's stdin, the child's stdout and stderr to the client, around a select loop that stops
 reading packets while the child does not take its input.
 */
module ShellPump {
  import opened Bytes
  import opened AdbIo
  import opened ShellPackets

  const STDIN: byte := 0
  const STDOUT: byte := 1
  const STDERR: byte := 2
  const CLOSE_STDIN: byte := 4

  /** The ids of shell packets. */
  lemma Ids()
    ensures STDIN == 0 && STDOUT == 1 && STDERR == 2 && CLOSE_STDIN == 4
  {}

  /** The child's two output streams. */
  datatype Stream = Stdout | Stderr

  /** What the invariant speaks of: packets and buffers, stdin data, output that is lost, stdin data that is dumped. */
  datatype Aspect = Listening | Pumping | Losing | Dumping

  /** The descriptor that died, for SelectLoop's caller to close. */
  datatype Dead = NoFd | ProtocolFd | StdinoutFd | StderrFd

  /** What select reports: the readable descriptors and whether stdin is writable, EINTR, or another error. */
  datatype Selected = Ready(protocol: bool, stdout: bool, stderr: bool, stdin: bool) | Interrupted | SelectFailed

  /** Who is served when select reports him ready: one of the child's streams, either, or the child's input. */
  datatype Party = FromStdout | FromStderr | FromEither | ToChild

  /** Select finds p ready, whatever it awaits of p: a packet of the client or room in stdin is input for the child. */
  predicate Meets(sel: Selected, p: Party) {
    sel.Ready? && match p
      case FromStdout => sel.stdout
      case FromStderr => sel.stderr
      case FromEither => sel.stdout && sel.stderr
      case ToChild => sel.protocol && sel.stdin
  }

  /** What the child's output and the child's input still need. */
  datatype Work = Work(output: int, input: int) {
    /** What p can still be served with; input may have to wait for output. */
    function For(p: Party): int { output + if p == ToChild then input else 0 }
  }

  /** How often a script does. */
  function Served(script: seq<(Selected, bool)>, p: Party): nat {
    if script == [] then 0 else (if Meets(script[0].0, p) then 1 else 0) + Served(script[1..], p)
  }

  /** The bytes of the packets with this id. */
  function PayloadsOf(ps: seq<Packet>, id: byte): Data {
    if ps == [] then [] else (if ps[0].id == id then ps[0].data else []) + PayloadsOf(ps[1..], id)
  }

  lemma {:induction false} PayloadsAppend(ps: seq<Packet>, p: Packet, id: byte)
    ensures PayloadsOf(ps + [p], id) == PayloadsOf(ps, id) + if p.id == id then p.data else []
  {
    if ps == [] {
      assert (ps + [p])[1..] == [];
    } else {
      PayloadsAppend(ps[1..], p, id);
      assert (ps + [p])[0] == ps[0] && (ps + [p])[1..] == ps[1..] + [p];
      ConcatAssoc(if ps[0].id == id then ps[0].data else [], PayloadsOf(ps[1..], id), if p.id == id then p.data else []);
    }
  }

  /** The stdin bytes a reader has not delivered yet. */
  function StdinLeft(r: Reading): Data {
    (if r.id == STDIN then r.rest else []) + PayloadsOf(r.packets, STDIN)
  }

  function StdinSize(f: Packet): nat {
    if f.id == STDIN then |f.data| else 0
  }

  /** Fragments still to be read, and stdin bytes in them. */
  function Load(r: Reading, cap: nat): nat
    requires cap > 0
  {
    |r.ToCome(cap)| + |StdinLeft(r)|
  }

  /** A fragment takes its bytes off the front. */
  lemma FragmentTakes(r: Reading, cap: nat)
    requires !r.Done()
    ensures var f := r.Fragment(cap);
      StdinLeft(r) == (if f.id == STDIN then f.data else []) + StdinLeft(r.After(cap))
  {
    var b := r.Begun();
    assert StdinLeft(r) == StdinLeft(b);
    var k := Min(|b.rest|, cap);
    assert b.rest == b.rest[..k] + b.rest[k..];
    ConcatAssoc(b.rest[..k], b.rest[k..], PayloadsOf(b.packets, STDIN));
  }

  lemma FragmentLoad(r: Reading, cap: nat)
    requires cap > 0 && !r.Done()
    ensures Load(r, cap) == 1 + StdinSize(r.Fragment(cap)) + Load(r.After(cap), cap)
  {
    FragmentTakes(r, cap);
    NextToCome(r, cap);
  }

  /** The next fragment moves from what is to come to what was delivered. */
  lemma HearNext(ps: seq<Packet>, fs: seq<Packet>, r: Reading, cap: nat)
    requires cap > 0 && !r.Done() && AllFragments(ps, cap) == fs + r.ToCome(cap)
    ensures AllFragments(ps, cap) == fs + [r.Fragment(cap)] + r.After(cap).ToCome(cap)
  {
    NextToCome(r, cap);
    ConcatAssoc(fs, [r.Fragment(cap)], r.After(cap).ToCome(cap));
  }

  class Subprocess {
    const raw: bool               // type_ == SubprocessType::kRaw
    const input: ShellProtocol
    const output: ShellProtocol
    const childIn: OutFd
    const childOut: InFd
    const childErr: InFd
    var protocolOpen: bool        // protocol_sfd_ != -1
    var stdinoutOpen: bool
    var stderrOpen: bool
    var inputBytesLeft: nat
    var readProtocol: bool        // the master sets of select
    var readStdout: bool
    var readStderr: bool
    var writeStdin: bool
    var hangups: nat              // kill(pid_, SIGHUP)
    ghost const packets: seq<Packet>   // all the client sends
    ghost const stdin: Data       // the stdin data in them
    ghost const stdout: Data      // all the child will ever write
    ghost const stderr: Data
    ghost var reading: Reading    // what the client's packets still contain
    ghost var fragments: seq<Packet>   // what Read has delivered of them
    ghost var stdinGone: bool     // stdin was shut down or closed, and its data is dumped
    ghost var outs: seq<Packet>   // packets written to the client
    ghost var fromOut: Data
    ghost var fromErr: Data
    ghost var outBroken: bool     // a packet could not be written

    /** The part of the current fragment the child has not taken yet. */
    ghost function Unsent(): Data
      requires inputBytesLeft <= |input.data|
      reads `inputBytesLeft, input
    {
      input.data[|input.data| - inputBytesLeft..]
    }

    /** Five different descriptors, two different packet buffers. */
    predicate Distinct() {
      && input != output && input.input != childOut && input.input != childErr && childOut != childErr
      && output.output != childIn && input.capacity > 0 && 0 < output.capacity < WORD
    }

    ghost predicate Reader()
      reads `inputBytesLeft, `protocolOpen, `reading, input, input.input
    {
      inputBytesLeft <= |input.data| && (protocolOpen ==> input.Expects(reading))
    }

    /** Fragments are delivered in order, and none is skipped. */
    ghost predicate Heard()
      reads `reading, `fragments
    {
      input.capacity > 0 && AllFragments(packets, input.capacity) == fragments + reading.ToCome(input.capacity)
    }

    /** The client has asked for stdin to be closed, where that is possible. */
    ghost predicate ShutDown()
      reads `fragments
    {
      raw && exists f :: f in fragments && f.id == CLOSE_STDIN
    }

    /** The child has taken all stdin data but what is left of the current fragment and of the packets. */
    ghost predicate Pumped()
      reads `inputBytesLeft, `reading, `stdinGone, input, childIn
    {
      inputBytesLeft <= |input.data| && (!stdinGone ==> stdin == childIn.sent + (Unsent() + StdinLeft(reading)))
    }

    /**
     Back-pressure: packets are awaited exactly when nothing is left to write, stdin exactly when something
     is. The child's output is awaited as long as its descriptors are open.
     */
    predicate Waiting()
      reads `inputBytesLeft, `protocolOpen, `stdinoutOpen, `stderrOpen, `readProtocol, `readStdout, `readStderr, `writeStdin
    {
      && (protocolOpen ==> (readProtocol <==> inputBytesLeft == 0))
      && (stdinoutOpen ==> readStdout && (writeStdin <==> inputBytesLeft > 0))
      && (stderrOpen ==> readStderr)
    }

    /** What the child wrote to a stream has been passed on, in order, each read as one packet. */
    ghost predicate Passed(k: Stream)
      reads `outs, `fromOut, `fromErr, `outBroken, output.output, childOut, childErr
    {
      && (!outBroken ==> output.output.sent == EncodeAll(outs))
      && match k
         case Stdout => stdout == fromOut + childOut.data && (!outBroken ==> PayloadsOf(outs, STDOUT) == fromOut)
         case Stderr => stderr == fromErr + childErr.data && (!outBroken ==> PayloadsOf(outs, STDERR) == fromErr)
    }

    ghost predicate Reported()
      reads `outs, `fromOut, `fromErr, `outBroken, output.output, childOut, childErr
    {
      forall k: Stream :: Passed(k)
    }

    /** Select's sets, and that a dead descriptor is one that was open. */
    predicate Awaited(dead: Dead)
      reads `inputBytesLeft, `protocolOpen, `stdinoutOpen, `stderrOpen, `readProtocol, `readStdout, `readStderr, `writeStdin
    {
      Waiting() && (dead == StdinoutFd ==> stdinoutOpen) && (dead == StderrFd ==> stderrOpen)
    }

    /**
     dead is the descriptor that was found dead and is about to be closed. Stdin data is dumped only after
     the client asked for that or the child's descriptor died; output is lost only with the client.
     */
    ghost predicate Fits(a: Aspect, dead: Dead)
      reads `inputBytesLeft, `protocolOpen, `stdinoutOpen, `reading, `fragments, `stdinGone, `outBroken
      reads input, input.input, childIn
    {
      match a
      case Listening => Distinct() && inputBytesLeft <= |input.data| && (dead != ProtocolFd ==> Reader())
      case Pumping => Heard() && Pumped()
      case Losing => outBroken && protocolOpen ==> dead == ProtocolFd
      case Dumping => if stdinoutOpen then stdinGone ==> ShutDown() || dead == StdinoutFd else protocolOpen ==> stdinGone
    }

    ghost predicate Invariant(dead: Dead)
      reads this, input, input.input, output.output, childIn, childOut, childErr
    {
      Reported() && Awaited(dead) && forall a: Aspect :: Fits(a, dead)
    }

    /** The invariant while SelectLoop runs, and once it has found a dead descriptor. */
    ghost predicate Running(dead: Dead)
      reads this, input, input.input, output.output, childIn, childOut, childErr
    {
      protocolOpen && Invariant(dead)
    }

    ghost predicate Valid()
      reads this, input, input.input, output.output, childIn, childOut, childErr
    {
      Invariant(NoFd)
    }

    /** No read or write will fail. */
    ghost predicate Sound()
      reads input.input, output.output, childIn, childOut, childErr
    {
      input.input.Sound() && output.output.Sound() && childIn.Sound() && childOut.Sound() && childErr.Sound()
    }

    /** No descriptor has died, or is about to be closed, but at the end of what comes from it. */
    ghost predicate Ended(a: Aspect, dead: Dead)
      reads `inputBytesLeft, `protocolOpen, `stdinoutOpen, `stderrOpen, `reading, `fragments, `stdinGone, `outBroken
      reads input.input, output.output, childIn, childOut, childErr
    {
      match a
      case Listening => !protocolOpen || dead == ProtocolFd ==> reading.Done()
      case Pumping => !protocolOpen || dead == ProtocolFd ==> inputBytesLeft == 0
      case Losing =>
        && !outBroken
        && (protocolOpen && (!stdinoutOpen || dead == StdinoutFd) ==> childOut.data == [])
        && (protocolOpen && (!stderrOpen || dead == StderrFd) ==> childErr.data == [])
      case Dumping => stdinGone ==> ShutDown() || childOut.data == []
    }

    /**
     Nothing has failed and nothing will: a descriptor has died only at the end of what comes from it, and
     stdin data is dumped only if the client asked for that or the child has ended its output.
     */
    ghost predicate Clean(dead: Dead)
      reads `inputBytesLeft, `protocolOpen, `stdinoutOpen, `stderrOpen, `reading, `fragments, `stdinGone, `outBroken
      reads input.input, output.output, childIn, childOut, childErr
    {
      Sound() && forall a: Aspect :: Ended(a, dead)
    }

    /** Opening the two. */
    lemma Aspects(dead: Dead)
      requires forall a: Aspect :: Fits(a, dead)
      ensures Fits(Listening, dead) && Fits(Pumping, dead) && Fits(Losing, dead) && Fits(Dumping, dead)
      ensures Clean(dead) ==> Ended(Listening, dead) && Ended(Pumping, dead) && Ended(Losing, dead) && Ended(Dumping, dead)
    {}

    /** Reads and closings of the child's output descriptors that are still to come. */
    ghost function OutputWork(dead: Dead): int
      reads `stdinoutOpen, `stderrOpen, childOut, childErr
    {
      childOut.Left() + childErr.Left()
      + (if stdinoutOpen && dead != StdinoutFd then 1 else 0) + (if stderrOpen && dead != StderrFd then 1 else 0)
    }

    /** Fragments to be read, stdin bytes to be written, and failing attempts at that, that are still to come. */
    ghost function InputWork(): nat
      requires input.capacity > 0
      reads `inputBytesLeft, `reading, childIn
    {
      Load(reading, input.capacity) + inputBytesLeft + |childIn.sizes|
    }

    ghost function ToDo(dead: Dead): Work
      requires input.capacity > 0
      reads `stdinoutOpen, `stderrOpen, `inputBytesLeft, `reading, childIn, childOut, childErr
    {
      Work(OutputWork(dead), InputWork() + if dead != ProtocolFd then 1 else 0)
    }

    predicate Open(p: Party)
      reads `stdinoutOpen, `stderrOpen
    {
      match p
      case FromStdout => stdinoutOpen
      case FromStderr => stderrOpen
      case FromEither => stdinoutOpen || stderrOpen
      case ToChild => stdinoutOpen
    }

    /** Nothing is left to pump between. */
    predicate Over()
      reads `protocolOpen, `stdinoutOpen, `stderrOpen
    {
      !protocolOpen || !Open(FromEither)
    }

    /** A subprocess ready to run: the client is going to send the packets ps. */
    constructor (raw: bool, input: ShellProtocol, output: ShellProtocol, childIn: OutFd, childOut: InFd, childErr: InFd,
                 ghost ps: seq<Packet>)
      requires input != output && input.input != childOut && input.input != childErr && childOut != childErr
      requires output.output != childIn && input.capacity > 0 && 0 < output.capacity < WORD
      requires input.Expects(Reading(255, [], ps))
      requires childIn.sent == [] && output.output.sent == []
      ensures Valid() && this.input == input && this.output == output && this.raw == raw
      ensures this.childIn == childIn && this.childOut == childOut && this.childErr == childErr
      ensures packets == ps && stdin == PayloadsOf(ps, STDIN) && stdout == childOut.data && stderr == childErr.data
      ensures !stdinGone && !outBroken && protocolOpen && stdinoutOpen && stderrOpen
      ensures Sound() ==> Clean(NoFd)
    {
      this.raw, this.input, this.output := raw, input, output;
      this.childIn, this.childOut, this.childErr := childIn, childOut, childErr;
      protocolOpen, stdinoutOpen, stderrOpen := true, true, true;
      inputBytesLeft, hangups := 0, 0;
      readProtocol, readStdout, readStderr, writeStdin := true, true, true, false;
      packets, fragments := ps, [];
      stdin, reading, stdinGone := PayloadsOf(ps, STDIN), Reading(255, [], ps), false;
      stdout, stderr := childOut.data, childErr.data;
      outs, fromOut, fromErr, outBroken := [], [], [], false;
    }

    /** The part of PassInput that writes. */
    method WriteChild() returns (dead: Dead)
      requires Distinct() && Reader() && Pumped() && stdinoutOpen && inputBytesLeft > 0
      modifies this`inputBytesLeft, this`stdinGone, childIn
      ensures Reader() && Pumped()
      ensures dead == NoFd || (dead == StdinoutFd && inputBytesLeft == 0 && stdinGone)
      ensures dead == NoFd ==> stdinGone == old(stdinGone) && inputBytesLeft <= old(inputBytesLeft)
      ensures dead == NoFd ==> childIn.sent == old(childIn.sent) + old(Unsent())[..old(inputBytesLeft) - inputBytesLeft]
      ensures old(childIn.Sound()) ==> dead == NoFd && childIn.Sound()
      ensures dead == StdinoutFd <==> old(childIn.sizes) != [] && old(childIn.sizes)[0] < 0
      // No progress only after EAGAIN.
      ensures inputBytesLeft < old(inputBytesLeft) || |childIn.sizes| < |old(childIn.sizes)|
      ensures inputBytesLeft <= old(inputBytesLeft) && |childIn.sizes| <= |old(childIn.sizes)|
    {
      var index := |input.data| - inputBytesLeft;
      ghost var unsent := input.data[index..];
      var failed, bytes := childIn.AdbWrite(input.data[index..]);
      if failed {
        inputBytesLeft := 0;
        stdinGone := true;
        return StdinoutFd;
      }
      assert unsent == unsent[..bytes] + unsent[bytes..];
      assert input.data[index + bytes..] == unsent[bytes..];
      ConcatAssoc(unsent[..bytes], unsent[bytes..], StdinLeft(reading));
      ConcatAssoc(old(childIn.sent), unsent[..bytes], unsent[bytes..] + StdinLeft(reading));
      inputBytesLeft := inputBytesLeft - bytes;
      dead := NoFd;
    }

    /** Read the next fragment. */
    method ReadFragment() returns (ok: bool)
      requires Distinct() && Reader() && protocolOpen && inputBytesLeft == 0
      modifies this`reading, input, input.input
      ensures ok ==> Reader() && !old(reading).Done() && reading == old(reading).After(input.capacity)
      ensures ok ==> Packet(input.id, input.data) == old(reading).Fragment(input.capacity)
      ensures !ok ==> reading == old(reading)
      ensures old(input.input.Sound()) ==> input.input.Sound() && (ok <==> !old(reading).Done())
    {
      ok := input.Read(reading);
      if ok {
        reading := reading.After(input.capacity);
      }
    }

    /** With nothing unsent, the stdin data that is missing is in the packets. */
    lemma NothingUnsent()
      requires inputBytesLeft == 0
      ensures Pumped() <==> (!stdinGone ==> stdin == childIn.sent + StdinLeft(reading))
    {
      assert Unsent() + StdinLeft(reading) == StdinLeft(reading);
    }

    /** The stdin data of the fragment just read, if that is what it is, is now due to the child. */
    ghost predicate Owed(a: Aspect)
      reads `inputBytesLeft, `reading, `stdinGone, input, childIn
    {
      a.Pumping? ==>
        if input.id == STDIN then !stdinGone ==> stdin == childIn.sent + (input.data + StdinLeft(reading)) else Pumped()
    }

    ghost predicate FragmentDue()
      reads `inputBytesLeft, `reading, `stdinGone, input, childIn
    {
      forall a: Aspect :: Owed(a)
    }

    /** Read it. */
    method NextFragment() returns (ok: bool)
      requires Distinct() && Reader() && Heard() && Pumped() && protocolOpen && inputBytesLeft == 0
      modifies this`reading, this`fragments, input, input.input
      ensures if ok then FragmentDue() else Pumped()
      ensures Heard()
      ensures ok ==> Reader() && !old(reading).Done() && reading == old(reading).After(input.capacity)
      ensures ok ==> Packet(input.id, input.data) == old(reading).Fragment(input.capacity)
      ensures fragments == if ok then old(fragments) + [Packet(input.id, input.data)] else old(fragments)
      ensures !ok ==> reading == old(reading)
      ensures ok && input.id == CLOSE_STDIN && raw ==> ShutDown()
      ensures old(ShutDown()) ==> ShutDown()
      ensures old(input.input.Sound()) ==> input.input.Sound() && (ok <==> !old(reading).Done())
    {
      NothingUnsent();
      if !reading.Done() {
        FragmentTakes(reading, input.capacity);
        HearNext(packets, fragments, reading, input.capacity);
      }
      ok := ReadFragment();
      if ok {
        Record();
      }
      NothingUnsent();
    }

    /** The fragment just read is on record. */
    ghost method Record()
      modifies this`fragments
      ensures fragments == old(fragments) + [Packet(input.id, input.data)]
      ensures input.id == CLOSE_STDIN && raw ==> ShutDown()
      ensures old(ShutDown()) ==> ShutDown()
    {
      fragments := fragments + [Packet(input.id, input.data)];
      assert fragments[|fragments| - 1] == Packet(input.id, input.data);
    }

    /** What PassInput does with a fragment just read. */
    method TakeFragment(shutdownFails: bool) returns (dead: Dead, go: bool)
      requires inputBytesLeft == 0 && FragmentDue() && (!stdinoutOpen ==> stdinGone)
      requires input.id == CLOSE_STDIN && raw ==> ShutDown()
      modifies this`inputBytesLeft, this`stdinGone
      ensures Pumped() && (dead == NoFd || (dead == StdinoutFd && stdinGone && stdinoutOpen && shutdownFails))
      ensures inputBytesLeft == if dead == NoFd && stdinoutOpen && input.id == STDIN then |input.data| else 0
      ensures go <==> !(stdinoutOpen && input.id == CLOSE_STDIN && raw)
      ensures dead == StdinoutFd ==> !go
      ensures stdinGone <==> old(stdinGone) || !go
      ensures stdinGone ==> old(stdinGone) || ShutDown()
    {
      dead, go := NoFd, true;
      assert Owed(Pumping);
      if stdinoutOpen {
        if input.id == STDIN {
          inputBytesLeft := |input.data|;
          assert Unsent() == input.data;
        } else if input.id == CLOSE_STDIN && raw {
          go := false;
          stdinGone := true;
          if shutdownFails {
            dead := StdinoutFd;
          }
        }
      }
    }

    /** The part of PassInput that reads a packet; `go` when what follows is to try to write. */
    method ReadPacket(shutdownFails: bool) returns (dead: Dead, go: bool)
      requires Distinct() && Reader() && Heard() && Pumped() && protocolOpen && inputBytesLeft == 0 && (!stdinoutOpen ==> stdinGone)
      modifies this`inputBytesLeft, this`reading, this`fragments, this`stdinGone, input, input.input
      ensures inputBytesLeft <= |input.data| && Heard() && Pumped()
      ensures dead != ProtocolFd ==> Reader()
      ensures dead != NoFd ==> inputBytesLeft == 0 && !go
      ensures dead == StdinoutFd ==> stdinGone && stdinoutOpen && shutdownFails
      ensures dead == NoFd || dead == ProtocolFd || dead == StdinoutFd
      ensures inputBytesLeft > 0 ==> stdinoutOpen && go
      ensures old(stdinGone) ==> stdinGone
      // Stdin goes only at the client's request.
      ensures stdinGone ==> old(stdinGone) || ShutDown()
      ensures old(ShutDown()) ==> ShutDown()
      // A fragment was read, and stdin data is there to be written.
      ensures dead != ProtocolFd ==> !old(reading).Done() && reading == old(reading).After(input.capacity)
      ensures dead != ProtocolFd ==> fragments == old(fragments) + [old(reading).Fragment(input.capacity)]
      ensures dead == ProtocolFd ==> fragments == old(fragments) && reading == old(reading)
      ensures dead == NoFd ==> inputBytesLeft == if stdinoutOpen && input.id == STDIN then |input.data| else 0
      ensures old(input.input.Sound()) ==> input.input.Sound() && (dead == ProtocolFd <==> old(reading).Done())
      ensures dead != ProtocolFd ==> Packet(input.id, input.data) == old(reading).Fragment(input.capacity)
    {
      var ok := NextFragment();
      if !ok {
        return ProtocolFd, false;
      }
      dead, go := TakeFragment(shutdownFails);
    }

    /** PassInput */
    method PassInput(shutdownFails: bool) returns (dead: Dead)
      requires Distinct() && Reader() && Heard() && Pumped() && (inputBytesLeft == 0 ==> protocolOpen)
      requires if stdinoutOpen then true else stdinGone && inputBytesLeft == 0
      modifies this`inputBytesLeft, this`reading, this`fragments, this`stdinGone, input, input.input, childIn
      ensures inputBytesLeft <= |input.data| && Heard() && Pumped()
      ensures dead != ProtocolFd ==> Reader()
      ensures dead != NoFd ==> inputBytesLeft == 0
      ensures dead == NoFd || dead == ProtocolFd || (dead == StdinoutFd && stdinGone && stdinoutOpen)
      ensures inputBytesLeft > 0 ==> stdinoutOpen
      ensures old(stdinGone) ==> stdinGone
      // Stdin goes only at the client's request, or with its descriptor.
      ensures stdinGone ==> old(stdinGone) || dead == StdinoutFd || ShutDown()
      ensures old(ShutDown()) ==> ShutDown()
      // With something left to write, no packet is read; otherwise exactly one fragment, unless the client is gone.
      ensures old(inputBytesLeft) > 0 ==> input.data == old(input.data) && input.input.data == old(input.input.data)
      ensures old(inputBytesLeft) > 0 ==> dead != ProtocolFd && reading == old(reading) && fragments == old(fragments)
      ensures old(inputBytesLeft) == 0 && dead != ProtocolFd ==>
        && !old(reading).Done() && reading == old(reading).After(input.capacity)
        && fragments == old(fragments) + [old(reading).Fragment(input.capacity)]
      ensures dead == ProtocolFd ==> reading == old(reading) && fragments == old(fragments) && old(inputBytesLeft) == 0
      // Where there is something to write, some of it is written, unless the child is not ready or gone.
      ensures old(inputBytesLeft) > 0 ==> inputBytesLeft < old(inputBytesLeft) || |childIn.sizes| < |old(childIn.sizes)|
      ensures inputBytesLeft <= if old(inputBytesLeft) > 0 || dead == ProtocolFd then old(inputBytesLeft) else StdinSize(old(reading).Fragment(input.capacity))
      ensures |childIn.sizes| <= |old(childIn.sizes)|
      ensures old(input.input.Sound()) ==> input.input.Sound() && (dead == ProtocolFd ==> reading.Done())
      ensures old(childIn.Sound()) ==> childIn.Sound() && (dead == StdinoutFd ==> shutdownFails)
    {
      dead := NoFd;
      var go := true;
      if inputBytesLeft == 0 {
        dead, go := ReadPacket(shutdownFails);
      }
      if go && inputBytesLeft > 0 {
        dead := WriteChild();
      }
    }

    /** The bytes b, just read from fd, become one packet to the client. */
    method Report(fd: InFd, id: byte, b: Data) returns (ok: bool)
      requires Distinct() && |b| <= output.capacity
      requires (fd == childOut && id == STDOUT) || (fd == childErr && id == STDERR)
      requires stdout == fromOut + (if id == STDOUT then b + childOut.data else childOut.data)
      requires stderr == fromErr + (if id == STDERR then b + childErr.data else childErr.data)
      requires !outBroken ==> output.output.sent == EncodeAll(outs)
      requires !outBroken ==> PayloadsOf(outs, STDOUT) == fromOut && PayloadsOf(outs, STDERR) == fromErr
      modifies this`outs, this`fromOut, this`fromErr, this`outBroken, output, output.output
      ensures Reported() && (outBroken <==> old(outBroken) || !ok)
      ensures ok && !outBroken ==> outs == old(outs) + [Packet(id, b)]
      ensures old(output.output.Sound()) ==> output.output.Sound() && ok
    {
      output.data := b;
      ConcatAssoc(if id == STDOUT then fromOut else fromErr, b, fd.data);
      if id == STDOUT { fromOut := fromOut + b; } else { fromErr := fromErr + b; }
      ok := Write(output, id);
      outBroken := outBroken || !ok;
      if ok {
        PayloadsAppend(outs, Packet(id, b), STDOUT);
        PayloadsAppend(outs, Packet(id, b), STDERR);
        EncodeAppend(outs, Packet(id, b));
        outs := outs + [Packet(id, b)];
      }
    }

    /** PassOutput: one read from the child becomes one packet to the client. */
    method PassOutput(fd: InFd, id: byte) returns (dead: Dead)
      requires Distinct() && Reported()
      requires (fd == childOut && id == STDOUT) || (fd == childErr && id == STDERR)
      modifies this`outs, this`fromOut, this`fromErr, this`outBroken, fd, output, output.output
      ensures Reported()
      ensures dead == NoFd || dead == ProtocolFd || dead == (if id == STDOUT then StdinoutFd else StderrFd)
      ensures outBroken <==> old(outBroken) || dead == ProtocolFd
      ensures fd.Left() < old(fd.Left()) || (fd.Left() == old(fd.Left()) && dead == (if id == STDOUT then StdinoutFd else StderrFd))
      ensures old(fd.Sound()) ==> fd.Sound() && (dead == (if id == STDOUT then StdinoutFd else StderrFd) ==> fd.data == [])
      ensures old(output.output.Sound()) ==> output.output.Sound() && dead != ProtocolFd
      // EAGAIN is no end, and an error is.
      ensures old(fd.sizes) != [] && old(fd.sizes)[0] == 0 ==> dead == NoFd && fd.data == old(fd.data)
      ensures old(fd.sizes) != [] && old(fd.sizes)[0] < 0 ==> dead == if id == STDOUT then StdinoutFd else StderrFd
    {
      assert Passed(Stdout) && Passed(Stderr);
      var r := fd.AdbRead(output.capacity);
      if r.Failed? || (r.Got? && r.b == []) {
        return if id == STDOUT then StdinoutFd else StderrFd;
      }
      if r.Again? {
        return NoFd;
      }
      var ok := Report(fd, id, r.b);
      dead := if ok then NoFd else ProtocolFd;
    }

    /** Read stdout, write to the protocol descriptor. */
    method TryStdout() returns (dead: Dead)
      requires Running(NoFd) && stdinoutOpen
      modifies this`outs, this`fromOut, this`fromErr, this`outBroken, childOut, output, output.output
      ensures Running(dead) && (old(Clean(NoFd)) ==> Clean(dead))
      ensures OutputWork(dead) < old(OutputWork(NoFd))
    {
      Aspects(NoFd);
      dead := PassOutput(childOut, STDOUT);
    }

    /** Read stderr, write to the protocol descriptor. */
    method TryStderr() returns (dead: Dead)
      requires Running(NoFd) && stderrOpen
      modifies this`outs, this`fromOut, this`fromErr, this`outBroken, childErr, output, output.output
      ensures Running(dead) && (old(Clean(NoFd)) ==> Clean(dead))
      ensures OutputWork(dead) < old(OutputWork(NoFd))
    {
      Aspects(NoFd);
      dead := PassOutput(childErr, STDERR);
    }

    /** PassInput, as far as all but select's sets go. */
    method MoveInput(shutdownFails: bool) returns (dead: Dead)
      requires Running(NoFd) && (inputBytesLeft > 0 ==> stdinoutOpen)
      modifies this`inputBytesLeft, this`reading, this`fragments, this`stdinGone, input, input.input, childIn
      ensures Reported() && forall a: Aspect :: Fits(a, dead)
      ensures dead == NoFd || dead == ProtocolFd || (dead == StdinoutFd && stdinoutOpen)
      ensures inputBytesLeft > 0 ==> stdinoutOpen
      ensures old(Clean(NoFd)) && !shutdownFails ==> Clean(dead)
      ensures old(inputBytesLeft) > 0 ==>
        && input.data == old(input.data) && input.input.data == old(input.input.data)
        && reading == old(reading) && fragments == old(fragments)
        && (inputBytesLeft < old(inputBytesLeft) || |childIn.sizes| < |old(childIn.sizes)|)
        && inputBytesLeft <= old(inputBytesLeft)
      ensures old(inputBytesLeft) == 0 && dead != ProtocolFd ==>
        && !old(reading).Done() && reading == old(reading).After(input.capacity)
        && fragments == old(fragments) + [old(reading).Fragment(input.capacity)]
        && inputBytesLeft <= StdinSize(old(reading).Fragment(input.capacity))
      ensures dead == ProtocolFd ==> reading == old(reading) && inputBytesLeft <= old(inputBytesLeft)
      ensures |childIn.sizes| <= |old(childIn.sizes)|
    {
      Aspects(NoFd);
      dead := PassInput(shutdownFails);
    }

    /** Read the protocol descriptor, write to stdin; if that is not finished, wait for stdin instead. */
    method TryProtocol(shutdownFails: bool) returns (dead: Dead)
      requires Running(NoFd) && readProtocol
      modifies this`inputBytesLeft, this`reading, this`fragments, this`stdinGone, this`readProtocol, this`writeStdin
      modifies input, input.input, childIn
      ensures Running(dead) && (old(Clean(NoFd)) && !shutdownFails ==> Clean(dead))
      // The next fragment is taken in.
      ensures dead == ProtocolFd ||
        (!old(reading).Done() && reading == old(reading).After(input.capacity)
         && fragments == old(fragments) + [old(reading).Fragment(input.capacity)]
         && inputBytesLeft <= StdinSize(old(reading).Fragment(input.capacity)))
      ensures dead == ProtocolFd ==> reading == old(reading) && inputBytesLeft <= old(inputBytesLeft)
      ensures old(inputBytesLeft) == 0 && |childIn.sizes| <= |old(childIn.sizes)|
    {
      dead := MoveInput(shutdownFails);
      if inputBytesLeft > 0 {
        readProtocol := false;
        writeStdin := true;
      }
    }

    /** Continue writing to stdin; if that is finished, go back to waiting for packets. */
    method TryStdin(shutdownFails: bool) returns (dead: Dead)
      requires Running(NoFd) && stdinoutOpen && writeStdin
      modifies this`inputBytesLeft, this`reading, this`fragments, this`stdinGone, this`readProtocol, this`writeStdin
      modifies input, input.input, childIn
      ensures Running(dead) && (old(Clean(NoFd)) && !shutdownFails ==> Clean(dead))
      // No packet is read, and no unsent data overwritten; some is written, unless stdin would block again.
      ensures input.input.data == old(input.input.data) && input.data == old(input.data)
      ensures reading == old(reading) && fragments == old(fragments)
      ensures inputBytesLeft < old(inputBytesLeft) || |childIn.sizes| < |old(childIn.sizes)|
      ensures inputBytesLeft <= old(inputBytesLeft) && |childIn.sizes| <= |old(childIn.sizes)|
    {
      assert inputBytesLeft > 0;
      dead := MoveInput(shutdownFails);
      if inputBytesLeft == 0 {
        readProtocol := true;
        writeStdin := false;
      }
    }

    /** The half of a turn that reads the child. */
    method HandleOutput(stdoutReady: bool, stderrReady: bool) returns (dead: Dead)
      requires Running(NoFd)
      modifies this`outs, this`fromOut, this`fromErr, this`outBroken, childOut, childErr, output, output.output
      ensures Running(dead) && (old(Clean(NoFd)) ==> Clean(dead))
      ensures OutputWork(dead) <= old(OutputWork(NoFd))
      ensures dead != NoFd || (stdinoutOpen && stdoutReady) || (stderrOpen && stderrReady) ==> OutputWork(dead) < old(OutputWork(NoFd))
    {
      dead := NoFd;
      if stdinoutOpen && stdoutReady && readStdout {
        dead := TryStdout();
      }
      if dead == NoFd && stderrOpen && stderrReady && readStderr {
        dead := TryStderr();
      }
    }

    /** A fragment read makes the load lighter by itself and by the stdin data in it. */
    twostate lemma FragmentRead()
      requires input.capacity > 0 && !old(reading).Done() && reading == old(reading).After(input.capacity)
      requires old(inputBytesLeft) == 0 && inputBytesLeft <= StdinSize(old(reading).Fragment(input.capacity))
      requires |childIn.sizes| <= |old(childIn.sizes)|
      ensures InputWork() < old(InputWork())
    {
      FragmentLoad(old(reading), input.capacity);
    }

    /** The half that writes to it; packets and stdin are never awaited together. */
    method HandleInput(protocolReady: bool, stdinReady: bool, shutdownFails: bool) returns (dead: Dead)
      requires Running(NoFd) && (protocolReady ==> readProtocol) && (stdinReady ==> writeStdin)
      requires stdinReady && stdinoutOpen ==> !protocolReady
      modifies this`inputBytesLeft, this`reading, this`fragments, this`stdinGone, this`readProtocol, this`writeStdin
      modifies input, input.input, childIn
      ensures Running(dead) && (old(Clean(NoFd)) && !shutdownFails ==> Clean(dead))
      ensures OutputWork(dead) <= old(OutputWork(NoFd)) && input.capacity > 0 && InputWork() <= old(InputWork())
      ensures dead != ProtocolFd && (protocolReady || (stdinReady && stdinoutOpen)) ==> InputWork() < old(InputWork())
      ensures protocolReady && dead != ProtocolFd ==> !old(reading).Done() && reading == old(reading).After(input.capacity)
      ensures stdinReady && stdinoutOpen ==> inputBytesLeft < old(inputBytesLeft) || |childIn.sizes| < |old(childIn.sizes)|
    {
      assert Fits(Listening, NoFd);
      dead := NoFd;
      if protocolReady {
        dead := TryProtocol(shutdownFails);
        if dead != ProtocolFd {
          FragmentRead();
        }
      }
      if dead == NoFd && stdinoutOpen && stdinReady {
        dead := TryStdin(shutdownFails);
      }
    }

    /** Serving p uses up some of what there was to do; nothing adds to it. */
    ghost predicate Paid(p: Party, was: Work, sel: Selected, dead: Dead)
      requires input.capacity > 0
      reads `stdinoutOpen, `stderrOpen, `inputBytesLeft, `reading, childIn, childOut, childErr
    {
      ToDo(dead).For(p) + (if Open(p) && Meets(sel, p) then 1 else 0) <= was.For(p)
    }

    /** What SelectLoop does after one select, for the descriptors reported among those asked for. */
    method Handle(sel: Selected, shutdownFails: bool) returns (dead: Dead)
      requires Running(NoFd) && sel.Ready?
      modifies this, input, input.input, output, output.output, childIn, childOut, childErr
      ensures Running(dead) && hangups == old(hangups)
      ensures stdinoutOpen == old(stdinoutOpen) && stderrOpen == old(stderrOpen)
      ensures old(Clean(NoFd)) && !shutdownFails ==> Clean(dead)
      // Whoever is ready is served, or there is less to serve him with.
      ensures OutputWork(dead) <= old(OutputWork(NoFd)) && input.capacity > 0 && InputWork() <= old(InputWork())
      ensures (stdinoutOpen && sel.stdout) || (stderrOpen && sel.stderr) ==> OutputWork(dead) < old(OutputWork(NoFd))
      ensures stdinoutOpen && sel.protocol && sel.stdin ==>
        OutputWork(dead) < old(OutputWork(NoFd)) || InputWork() < old(InputWork()) || dead == ProtocolFd
      // When nothing else has died, a ready client is read, and a ready child is written to.
      ensures dead == NoFd && sel.protocol && old(readProtocol) ==> !old(reading).Done() && reading == old(reading).After(input.capacity)
      ensures dead == NoFd && sel.stdin && old(writeStdin) && stdinoutOpen ==>
        inputBytesLeft < old(inputBytesLeft) || |childIn.sizes| < |old(childIn.sizes)|
    {
      assert Fits(Listening, NoFd);
      var protocolReady, stdinReady := sel.protocol && readProtocol, sel.stdin && writeStdin;
      dead := HandleOutput(sel.stdout, sel.stderr);
      if dead == NoFd {
        dead := HandleInput(protocolReady, stdinReady, shutdownFails);
      }
    }

    /** One turn of SelectLoop, unless select failed. */
    method Turn(sel: Selected, shutdownFails: bool) returns (dead: Dead)
      requires Running(NoFd) && !sel.SelectFailed?
      modifies this, input, input.input, output, output.output, childIn, childOut, childErr
      ensures Running(dead) && hangups == old(hangups)
      ensures stdinoutOpen == old(stdinoutOpen) && stderrOpen == old(stderrOpen)
      ensures old(Clean(NoFd)) && !shutdownFails ==> Clean(dead)
      ensures input.capacity > 0 && forall p: Party :: Paid(p, old(ToDo(NoFd)), sel, dead)
    {
      assert Fits(Listening, NoFd);
      dead := NoFd;
      if sel.Ready? {
        dead := Handle(sel, shutdownFails);
      }
    }

    /** select failed: the child's descriptors are closed. */
    method GiveUp()
      requires Running(NoFd)
      modifies this`stdinoutOpen, this`stderrOpen, this`stdinGone
      ensures Running(NoFd) && !stdinoutOpen && !stderrOpen
    {
      assert Fits(Listening, NoFd) && Fits(Pumping, NoFd) && Fits(Losing, NoFd);
      stdinoutOpen, stderrOpen, stdinGone := false, false, true;
    }

    /** What p was served with is gone, one for each select between script and rest that found p ready. */
    ghost predicate UsedUp(p: Party, was: Work, script: seq<(Selected, bool)>, rest: seq<(Selected, bool)>, dead: Dead)
      requires input.capacity > 0
      reads `protocolOpen, `stdinoutOpen, `stderrOpen, `inputBytesLeft, `reading, childIn, childOut, childErr
    {
      && Served(rest, p) <= Served(script, p)
      && (Over() || ToDo(dead).For(p) + (if Open(p) then Served(script, p) - Served(rest, p) else 0) <= was.For(p))
    }

    /** SelectLoop: until a descriptor dies, select fails, or nothing more happens. */
    method SelectLoop(script: seq<(Selected, bool)>) returns (dead: Dead, rest: seq<(Selected, bool)>)
      requires Running(NoFd)
      modifies this, input, input.input, output, output.output, childIn, childOut, childErr
      ensures Running(dead) && |rest| <= |script| && (script != [] ==> |rest| < |script|) && hangups == old(hangups)
      ensures Smooth(script) ==> Smooth(rest) && (old(Clean(NoFd)) ==> Clean(dead))
      ensures input.capacity > 0 && forall p: Party :: UsedUp(p, old(ToDo(NoFd)), script, rest, dead)
      ensures Over() || (stdinoutOpen == old(stdinoutOpen) && stderrOpen == old(stderrOpen))
    {
      assert Fits(Listening, NoFd);
      ghost var was := ToDo(NoFd);
      dead, rest := NoFd, script;
      while dead == NoFd && rest != []
        invariant Running(dead) && hangups == old(hangups) && |rest| <= |script| && (dead != NoFd ==> |rest| < |script|)
        invariant Smooth(script) ==> Smooth(rest) && (old(Clean(NoFd)) ==> Clean(dead))
        invariant stdinoutOpen == old(stdinoutOpen) && stderrOpen == old(stderrOpen)
        invariant forall p: Party :: UsedUp(p, was, script, rest, dead)
        decreases |rest|
      {
        var (sel, shutdownFails) := rest[0];
        ghost var before, now := rest, ToDo(NoFd);
        rest := rest[1..];
        label Asked:
        if sel.SelectFailed? {
          GiveUp();
          forall p: Party ensures UsedUp(p, was, script, rest, dead) {
            assert old@Asked(UsedUp(p, was, script, before, NoFd));
          }
          return;
        }
        dead := Turn(sel, shutdownFails);
        forall p: Party ensures UsedUp(p, was, script, rest, dead) {
          assert old@Asked(UsedUp(p, was, script, before, NoFd)) && Paid(p, now, sel, dead);
        }
      }
    }

    method ShutProtocol()
      requires Running(ProtocolFd)
      modifies this`protocolOpen, this`stdinoutOpen, this`stderrOpen
      ensures !protocolOpen && !stdinoutOpen && !stderrOpen && Reported() && forall a: Aspect :: Fits(a, NoFd)
      ensures old(Clean(ProtocolFd)) ==> Clean(NoFd)
    {
      Aspects(ProtocolFd);
      stdinoutOpen, stderrOpen, protocolOpen := false, false, false;
    }

    /** The protocol descriptor died: hang up on the child, and close everything. */
    method CloseProtocol()
      requires Running(ProtocolFd)
      modifies this`readProtocol, this`hangups, this`protocolOpen, this`stdinoutOpen, this`stderrOpen
      ensures Valid() && !protocolOpen && !stdinoutOpen && !stderrOpen && hangups == old(hangups) + 1
      ensures old(Clean(ProtocolFd)) ==> Clean(NoFd)
    {
      ShutProtocol();
      readProtocol := false;
      hangups := hangups + 1;
    }

    /** What closing the child's stdin and stdout does to the counts and to the ends. */
    method ShutStdinout()
      requires Running(StdinoutFd)
      modifies this`stdinGone, this`stdinoutOpen
      ensures !stdinoutOpen && Reported() && forall a: Aspect :: Fits(a, NoFd)
      ensures old(Clean(StdinoutFd)) ==> Clean(NoFd)
      ensures OutputWork(NoFd) == old(OutputWork(StdinoutFd))
    {
      Aspects(StdinoutFd);
      stdinoutOpen, stdinGone := false, true;
    }

    method CloseStdinout()
      requires Running(StdinoutFd)
      modifies this`readStdout, this`writeStdin, this`stdinGone, this`stdinoutOpen
      ensures Valid() && !stdinoutOpen
      ensures old(Clean(StdinoutFd)) ==> Clean(NoFd)
      ensures OutputWork(NoFd) == old(OutputWork(StdinoutFd))
      ensures protocolOpen && stderrOpen == old(stderrOpen) && stdinoutOpen == false
    {
      ShutStdinout();
      readStdout, writeStdin := false, false;
    }

    method CloseStderr()
      requires Running(StderrFd)
      modifies this`readStderr, this`stderrOpen
      ensures Valid() && !stderrOpen
      ensures old(Clean(StderrFd)) ==> Clean(NoFd)
      ensures OutputWork(NoFd) == old(OutputWork(StderrFd))
      ensures protocolOpen && stderrOpen == false && stdinoutOpen == old(stdinoutOpen)
    {
      Aspects(StderrFd);
      readStderr := false;
      stderrOpen := false;
    }

    /** Close the descriptor that died. */
    method CloseDead(dead: Dead)
      requires Running(dead)
      modifies this`readProtocol, this`readStdout, this`readStderr, this`writeStdin, this`stdinGone
      modifies this`hangups, this`protocolOpen, this`stdinoutOpen, this`stderrOpen
      ensures Valid() && hangups == old(hangups) + (if protocolOpen then 0 else 1) && (old(Clean(dead)) ==> Clean(NoFd))
      ensures !protocolOpen ==> !stdinoutOpen && !stderrOpen
      ensures (stdinoutOpen ==> old(stdinoutOpen)) && (stderrOpen ==> old(stderrOpen))
      ensures protocolOpen ==> dead != ProtocolFd && OutputWork(NoFd) == old(OutputWork(dead))
    {
      match dead {
        case NoFd =>
        case ProtocolFd => CloseProtocol();
        case StdinoutFd => CloseStdinout();
        case StderrFd => CloseStderr();
      }
    }

    /** One round of PassDataStreams. */
    method Round(script: seq<(Selected, bool)>) returns (rest: seq<(Selected, bool)>)
      requires Valid() && protocolOpen && script != []
      modifies this, input, input.input, output, output.output, childIn, childOut, childErr
      ensures Valid() && |rest| < |script| && hangups == old(hangups) + if protocolOpen then 0 else 1
      ensures !protocolOpen ==> !stdinoutOpen && !stderrOpen
      ensures Smooth(script) ==> Smooth(rest) && (old(Clean(NoFd)) ==> Clean(NoFd))
      ensures (stdinoutOpen ==> old(stdinoutOpen)) && (stderrOpen ==> old(stderrOpen))
      ensures input.capacity > 0 && forall p: Party :: UsedUp(p, old(ToDo(NoFd)), script, rest, NoFd)
    {
      assert Fits(Listening, NoFd);
      ghost var was := ToDo(NoFd);
      var dead;
      dead, rest := SelectLoop(script);
      label Left:
      CloseDead(dead);
      forall p: Party ensures UsedUp(p, was, script, rest, NoFd) {
        assert old@Left(UsedUp(p, was, script, rest, dead));
      }
    }

    /**
     PassDataStreams: every stop of SelectLoop closes what died. On a run on which nothing fails all comes
     through (see EndOfRun). Whatever happens, each select that finds a party ready uses up some of what there
     was to do for it, so that with enough of them the run ends, or the party's descriptor is closed.
     */
    method PassDataStreams(script: seq<(Selected, bool)>)
      requires Valid()
      modifies this, input, input.input, output, output.output, childIn, childOut, childErr
      ensures Valid()
      ensures hangups == old(hangups) + if old(protocolOpen) && !protocolOpen then 1 else 0
      ensures old(protocolOpen) && !protocolOpen ==> !stdinoutOpen && !stderrOpen
      ensures old(Clean(NoFd)) && Smooth(script) ==> Clean(NoFd)
      ensures input.capacity > 0 && forall p: Party :: UsedUp(p, old(ToDo(NoFd)), script, [], NoFd)
      ensures Keen(script) && |script| >= old(OutputWork(NoFd)) ==> Over()
    {
      assert Fits(Listening, NoFd);
      if !protocolOpen {
        return;
      }
      ghost var was := ToDo(NoFd);
      var rest := script;
      while protocolOpen && (stdinoutOpen || stderrOpen) && rest != []
        invariant Valid()
        invariant hangups == old(hangups) + if protocolOpen then 0 else 1
        invariant !protocolOpen ==> !stdinoutOpen && !stderrOpen
        invariant Smooth(script) ==> Smooth(rest) && (old(Clean(NoFd)) ==> Clean(NoFd))
        invariant forall p: Party :: UsedUp(p, was, script, rest, NoFd)
        decreases |rest|
      {
        ghost var before, now := rest, ToDo(NoFd);
        label Entered:
        rest := Round(rest);
        forall p: Party ensures UsedUp(p, was, script, rest, NoFd) {
          assert old@Entered(UsedUp(p, was, script, before, NoFd)) && UsedUp(p, now, before, rest, NoFd);
        }
      }
      KeenServed(script);
      assert UsedUp(FromEither, was, script, [], NoFd);
    }
  }

  /** Neither select nor a shutdown fails. */
  predicate Smooth(script: seq<(Selected, bool)>) {
    forall k :: 0 <= k < |script| ==> !script[k].0.SelectFailed? && !script[k].1
  }

  /** Every select finds the child's output readable, which it also is at end of file. */
  predicate Keen(script: seq<(Selected, bool)>) {
    forall k :: 0 <= k < |script| ==> script[k].0.Ready? && script[k].0.stdout && script[k].0.stderr
  }

  lemma {:induction false} KeenServed(script: seq<(Selected, bool)>)
    ensures Keen(script) ==> Served(script, FromEither) == |script|
  {
    if script != [] && Keen(script) { KeenServed(script[1..]); }
  }

  /**
   What a run without failures has achieved when it is over. Either both output descriptors are closed and
   the client has been sent all the child wrote, or the client is gone and the child has all its stdin data,
   unless the client had stdin closed or the child had ended its output before.
   */
  lemma EndOfRun(s: Subprocess)
    requires s.Valid() && s.Clean(NoFd)
    ensures s.output.output.sent == EncodeAll(s.outs)
    ensures s.protocolOpen && !s.stdinoutOpen ==> PayloadsOf(s.outs, STDOUT) == s.stdout
    ensures s.protocolOpen && !s.stderrOpen ==> PayloadsOf(s.outs, STDERR) == s.stderr
    ensures !s.protocolOpen ==> s.input.capacity > 0 && s.fragments == AllFragments(s.packets, s.input.capacity)
    ensures !s.protocolOpen ==> s.childIn.sent == s.stdin || s.ShutDown() || PayloadsOf(s.outs, STDOUT) == s.stdout
  {
    s.Aspects(NoFd);
    assert s.Passed(Stdout) && s.Passed(Stderr);
    if !s.protocolOpen {
      assert s.reading.ToCome(s.input.capacity) == [];
      assert s.fragments + [] == s.fragments;
      assert StdinLeft(s.reading) == [];
      if !s.stdinGone {
        assert s.Unsent() == [];
        assert s.childIn.sent + ([] + []) == s.childIn.sent;
      }
    }
  }
}
