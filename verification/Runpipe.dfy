/**
 The operations of runpipe on its own fields. System calls are nondeterministic methods or appear as
 the results they returned; every operation is specified by a function of RunpipeProgram.
 */
module Runpipe {
  import opened Transcript
  import opened RunpipeProgram
  import opened RunpipeEvents

  /** The write end of a pipe to a process, blocking: a write may be short, and once it fails it fails forever. */
  class Pipe {
    var received: string
    var broken: bool

    constructor ()
      ensures received == "" && !broken
    {
      received, broken := "", false;
    }

    method Write(data: string) returns (nwrite: int)
      requires data != ""
      modifies this
      ensures nwrite < 0 || 0 < nwrite <= |data|
      ensures old(broken) ==> nwrite < 0
      ensures broken <==> nwrite < 0
      ensures received == if nwrite < 0 then old(received) else old(received) + data[..nwrite]
    {
      var n: nat :| n <= |data|;
      if broken || n == 0 {
        nwrite, broken := -1, true;
      } else {
        nwrite, received := n, received + data[..n];
      }
    }
  }

  /** Writes until everything is accepted or a write fails; reports how much was accepted. */
  method WriteAll(fd: Pipe, data: string) returns (index: nat)
    modifies fd
    ensures index <= |data| && fd.received == old(fd.received) + data[..index]
    ensures index < |data| ==> fd.broken
    ensures old(fd.broken) ==> index == 0 && fd.broken
    ensures fd.broken ==> old(fd.broken) || index < |data|
  {
    index := 0;
    while index < |data|
      invariant index <= |data| && fd.received == old(fd.received) + data[..index]
      invariant old(fd.broken) ==> index == 0
      invariant fd.broken == old(fd.broken)
    {
      var nwrite := fd.Write(data[index..]);
      if nwrite < 0 {
        break;
      }
      assert data[..index] + data[index..][..nwrite] == data[..index + nwrite];
      index := index + nwrite;
    }
  }

  /** The output file; its contents are always the encoding of the records written so far. */
  class OutputFile {
    var contents: string
    ghost var records: seq<Record>

    ghost predicate Valid()
      reads this
    {
      (forall r :: r in records ==> Writable(r)) && contents == EncodeAll(records)
    }

    constructor ()
      ensures Valid() && records == []
    {
      contents, records := "", [];
    }

    method Write(buffer: string, from: Id, sec: nat, millis: nat)
      requires Valid() && buffer != "" && millis < 1000
      modifies this
      ensures Valid() && records == old(records) + [Data(sec, millis, from, buffer)]
    {
      EncodeAllAppend(records, Data(sec, millis, from, buffer));
      var header := Header(sec, millis, |buffer|, from);
      assert (contents + header) + (buffer + "\n") == contents + (header + (buffer + "\n"));
      contents := contents + header;
      contents := contents + (buffer + "\n");
      records := records + [Data(sec, millis, from, buffer)];
    }

    method WriteEof(from: Id, sec: nat, millis: nat)
      requires Valid() && millis < 1000
      modifies this
      ensures Valid() && records == old(records) + [Eof(sec, millis, from)]
    {
      EncodeAllAppend(records, Eof(sec, millis, from));
      contents := contents + (Stamp(sec, millis, 0) + EofMark(from));
      records := records + [Eof(sec, millis, from)];
    }
  }

  class Process {
    const index: Id
    const pid: int
    const input: Pipe
    var exited: bool
    var exitInfo: ExitInfo
    var inOpen: bool
    var outOpen: bool

    constructor (index: Id, pid: int, input: Pipe)
      ensures Value() == Proc(pid, false, Unknown, true, true)
      ensures this.index == index && this.input == input
    {
      this.index, this.pid, this.input := index, pid, input;
      exited, exitInfo, inOpen, outOpen := false, Unknown, true, true;
    }

    function Value(): Proc
      reads this
    {
      Proc(pid, exited, exitInfo, inOpen, outOpen)
    }

    method OnExit(status: ExitInfo)
      modifies this
      ensures Value() == old(Value()).(exited := true, exitInfo := status)
    {
      exited := true;
      exitInfo := status;
    }

    method CloseInputFd()
      modifies this
      ensures Value() == old(Value()).(inOpen := false)
    {
      inOpen := false;
    }

    method CloseOutputFd()
      modifies this
      ensures Value() == old(Value()).(outOpen := false)
    {
      outOpen := false;
    }

    method CloseFds()
      modifies this
      ensures Value() == RunpipeProgram.CloseFds(old(Value()))
    {
      CloseInputFd();
      if exited {
        CloseOutputFd();
      }
    }
  }

  datatype Meta = Meta(exitcode: int, bytesTransferred: nat, validatorExitedFirst: bool)

  /** What a pipe has received since start: all that was copied, or a prefix of it once a write failed. */
  ghost predicate Delivered(start: string, copied: string, to: Pipe)
    reads to
  {
    && start <= to.received <= start + copied
    && (!to.broken ==> to.received == start + copied)
  }

  lemma DeliveredOn(copied: string, bytes: string, more: string)
    ensures copied + (bytes + more) == (copied + bytes) + more
  {
  }

  lemma DeliveredMore(start: string, copied: string, received: string, bytes: string, accepted: nat)
    requires start <= received <= start + copied && accepted <= |bytes|
    requires accepted > 0 ==> received == start + copied
    ensures start <= received + bytes[..accepted] <= start + (copied + bytes)
    ensures accepted == |bytes| && received == start + copied ==>
              received + bytes[..accepted] == start + (copied + bytes)
  {
    assert start + (copied + bytes) == (start + copied) + bytes;
    if accepted == |bytes| {
      assert bytes[..accepted] == bytes;
    }
  }

  class State {
    const p0: Process
    const p1: Process
    const output: OutputFile
    var firstProcessExitId: int
    var childIndicatedTimelimit: bool
    var totalBytesTransferred: nat

    ghost predicate Valid()
      reads this, p0, p1, output
    {
      && p0 != p1 && p0.input != p1.input && p0.pid > 0 && p1.pid > 0 && p0.pid != p1.pid
      && p0.index == 0 && p1.index == 1
      && (p0.exited ==> !p0.outOpen) && (p1.exited ==> !p1.outOpen)
      && output.Valid()
    }

    ghost function Value(): Program
      reads this, p0, p1, output
    {
      Program(p0.Value(), p1.Value(), firstProcessExitId, childIndicatedTimelimit, totalBytesTransferred,
          output.records)
    }

    constructor (pid0: int, pid1: int)
      requires pid0 > 0 && pid1 > 0 && pid0 != pid1
      ensures Valid() && Value() == Start(pid0, pid1)
    {
      var in0 := new Pipe();
      var in1 := new Pipe();
      p0 := new Process(0, pid0, in0);
      p1 := new Process(1, pid1, in1);
      output := new OutputFile();
      firstProcessExitId, childIndicatedTimelimit, totalBytesTransferred := -1, false, 0;
    }

    method HandleChildExit(result: WaitResult) returns (reaped: bool)
      requires Valid()
      requires result.Child? ==> result.pid == p0.pid || result.pid == p1.pid
      modifies this, p0, p1
      ensures Valid() && reaped == result.Child?
      ensures Value() == if reaped then Reaped(old(Value()), result.pid, result.status) else old(Value())
    {
      match result
      case NoneReady => reaped := false;
      case Child(pid, status) =>
        if firstProcessExitId == -1 && !childIndicatedTimelimit {
          firstProcessExitId := pid;
        }
        if p0.pid == pid {
          p0.OnExit(status);
        } else {
          p1.OnExit(status);
        }
        p0.CloseFds();
        p1.CloseFds();
        reaped := true;
    }

    method HasEveryoneExited() returns (all: bool)
      requires Valid()
      ensures all == Value().EveryoneExited()
    {
      var processes := [p0, p1];
      var i := 0;
      while i < |processes|
        invariant 0 <= i <= |processes|
        invariant forall k :: 0 <= k < i ==> processes[k].exited
      {
        if !processes[i].exited {
          return false;
        }
        i := i + 1;
      }
      assert processes[0].exited && processes[1].exited;
      return true;
    }

    /** The exit event: consume all exited children; done tells the main loop to finish. */
    method ConsumeExits(results: seq<WaitResult>) returns (done: bool)
      requires Valid()
      requires forall r :: r in results && r.Child? ==> r.pid == p0.pid || r.pid == p1.pid
      modifies this, p0, p1
      ensures Valid() && (Value(), done) == ReapedAll(old(Value()), results)
    {
      done := false;
      var k := 0;
      while k < |results|
        invariant 0 <= k <= |results| && Valid()
        invariant ReapedAll(old(Value()), results) == ReapedAll(Value(), results[k..])
      {
        var reaped := HandleChildExit(results[k]);
        if !reaped {
          return;
        }
        var all := HasEveryoneExited();
        if all {
          done := true;
          return;
        }
        assert results[k..][1..] == results[k + 1..];
        k := k + 1;
      }
    }

    method HandleTimelimit(byteRead: bool)
      requires Valid()
      modifies this
      ensures Valid() && Value() == if byteRead then Noticed(old(Value())) else old(Value())
    {
      if byteRead {
        childIndicatedTimelimit := true;
      }
    }

    function Input(i: Id): Pipe {
      if i == 0 then p0.input else p1.input
    }

    /** One chunk: to the other process first, then to the output file. */
    method CopyChunk(i: Id, bytes: string, sec: nat, millis: nat)
      requires Valid() && bytes != "" && millis < 1000
      modifies this, output, Input(Other(i))
      ensures Valid() && Value() == Copied(old(Value()), i, bytes, sec, millis)
      ensures forall start, copied :: old(Delivered(start, copied, Input(Other(i)))) ==>
                                        Delivered(start, copied + bytes, Input(Other(i)))
    {
      var accepted := WriteAll(Input(Other(i)), bytes);
      output.Write(bytes, i, sec, millis);
      totalBytesTransferred := totalBytesTransferred + |bytes|;
      forall start, copied | old(Delivered(start, copied, Input(Other(i))))
        ensures Delivered(start, copied + bytes, Input(Other(i)))
      {
        DeliveredMore(start, copied, old(Input(Other(i)).received), bytes, accepted);
      }
    }

    /** End of file on the output of process i: note it and close both pipes of the direction. */
    method EndStream(i: Id, sec: nat, millis: nat)
      requires Valid() && millis < 1000
      modifies p0, p1, output
      ensures Valid() && Value() == Ended(old(Value()), i, sec, millis)
    {
      output.WriteEof(i, sec, millis);
      if i == 0 {
        p1.CloseInputFd();
        p0.CloseOutputFd();
      } else {
        p0.CloseInputFd();
        p1.CloseOutputFd();
      }
    }

    /** Copies what process i wrote to the other process and to the output file. */
    method PumpProxyPipe(i: Id, got: seq<Read>)
      requires Valid()
      requires forall r :: r in got && !r.WouldBlock? ==> r.millis < 1000
      requires forall r :: r in got && r.Chunk? ==> r.bytes != ""
      modifies this, p0, p1, output, Input(Other(i))
      ensures Valid() && Value() == Pumped(old(Value()), i, got)
      ensures Delivered(old(Input(Other(i)).received), Chunks(got), Input(Other(i)))
    {
      var to := Input(Other(i));
      ghost var start := to.received;
      ghost var copied := "";
      var k := 0;
      while k < |got|
        invariant 0 <= k <= |got| && Valid()
        invariant Pumped(old(Value()), i, got) == Pumped(Value(), i, got[k..])
        invariant Chunks(got) == copied + Chunks(got[k..])
        invariant Delivered(start, copied, to)
      {
        assert got[k] in got;
        var r := got[k];
        PumpedStep(Value(), i, got, k);
        if r.EndOfFile? {
          EndStream(i, r.sec, r.millis);
          return;
        }
        if r.WouldBlock? {
          return;
        }
        CopyChunk(i, r.bytes, r.sec, r.millis);
        DeliveredOn(copied, r.bytes, Chunks(got[k + 1..]));
        copied := copied + r.bytes;
        k := k + 1;
      }
    }

    method HandleEvent(o: Occurrence) returns (end: LoopEnd)
      requires Valid() && Allowed(o, p0.pid, p1.pid)
      modifies this, p0, p1, output, p0.input, p1.input
      ensures Valid() && (Value(), end) == HandledOne(old(Value()), o)
    {
      end := GoesOn;
      match o
      case ExitOccurred(results) =>
        var done := ConsumeExits(results);
        if done {
          end := AllExited;
        }
      case NoticeOccurred(byteRead) =>
        HandleTimelimit(byteRead);
      case DataOccurred(i, got) =>
        var from, to := if i == 0 then p0 else p1, if i == 0 then p1 else p0;
        if to.exited {
          return;
        }
        if !from.outOpen {
          return ClosedDescriptor;
        }
        PumpProxyPipe(i, got);
    }

    /** The main loop: batch after batch, event after event, until everyone has exited or a read fails. */
    method EpollLoop(batches: seq<seq<Occurrence>>) returns (end: LoopEnd)
      requires Valid() && forall b, o :: b in batches && o in b ==> Allowed(o, p0.pid, p1.pid)
      modifies this, p0, p1, output, p0.input, p1.input
      ensures Valid() && (Value(), end) == HandledAll(old(Value()), Flat(batches))
      ensures old(Value().AnyoneExited()) ==> SameTraffic(old(Value()), Value())
      ensures !old(Value().AnyoneExited()) && end != ClosedDescriptor ==> forall i: Id ::
                Recorded(output.records, i) == Recorded(old(output.records), i) + Traffic(Flat(batches), i)
    {
      FlatAllowed(batches, p0.pid, p1.pid);
      HandledAllKeeps(Value(), Flat(batches));
      BothTraffics(Value(), Flat(batches));
      end := GoesOn;
      var k := 0;
      while k < |batches|
        invariant 0 <= k <= |batches| && Valid() && end == GoesOn
        invariant HandledAll(old(Value()), Flat(batches)) == HandledAll(Value(), Flat(batches[k..]))
      {
        var events := batches[k];
        assert batches[k..][1..] == batches[k + 1..] && events in batches;
        var i := 0;
        assert events[i..] + Flat(batches[k + 1..]) == Flat(batches[k..]);
        while i < |events|
          invariant 0 <= i <= |events| && Valid() && end == GoesOn
          invariant HandledAll(old(Value()), Flat(batches)) == HandledAll(Value(), events[i..] + Flat(batches[k + 1..]))
        {
          assert (events[i..] + Flat(batches[k + 1..]))[1..] == events[i + 1..] + Flat(batches[k + 1..]);
          assert events[i] in events;
          end := HandleEvent(events[i]);
          if end != GoesOn {
            return;
          }
          i := i + 1;
        }
        assert events[i..] + Flat(batches[k + 1..]) == Flat(batches[k + 1..]);
        k := k + 1;
      }
    }

    method WriteMeta() returns (meta: Meta)
      ensures meta.bytesTransferred == totalBytesTransferred
      ensures meta.validatorExitedFirst == Value().ValidatorExitedFirst()
      ensures meta.exitcode == Value().ExitCode()
    {
      var exitcode: int := -1;
      if p0.exited && p0.exitInfo.Code? {
        exitcode := p0.exitInfo.code;
      }
      meta := Meta(exitcode, totalBytesTransferred, firstProcessExitId == p0.pid);
    }
  }
}
