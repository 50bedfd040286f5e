/**
 What the main loop of runpipe makes of the events that occur and the results that the system calls
 return for them, and what its record then says about these events.
 */
module RunpipeEvents {
  import opened Transcript
  import opened RunpipeProgram

  /** What waitpid returned. */
  datatype WaitResult = Child(pid: int, status: ExitInfo) | NoneReady

  /** What a read from a process returned, with the time it is stamped with. */
  datatype Read = Chunk(bytes: string, sec: nat, millis: nat) | EndOfFile(sec: nat, millis: nat) | WouldBlock

  /** Reaps the children reported, until none is ready or everyone has exited. */
  function ReapedAll(p: Program, results: seq<WaitResult>): (Program, bool)
    decreases |results|
  {
    if results == [] || results[0].NoneReady? then (p, false)
    else
      var p' := Reaped(p, results[0].pid, results[0].status);
      if p'.EveryoneExited() then (p', true) else ReapedAll(p', results[1..])
  }

  /** Passes on the chunks read, until end of file or a read that would block. */
  function Pumped(p: Program, i: Id, got: seq<Read>): Program
    decreases |got|
  {
    if got == [] || got[0].WouldBlock? then p
    else
      match got[0]
      case Chunk(bytes, sec, millis) => Pumped(Copied(p, i, bytes, sec, millis), i, got[1..])
      case EndOfFile(sec, millis) => Ended(p, i, sec, millis)
  }

  function Chunks(got: seq<Read>): string {
    if got == [] || !got[0].Chunk? then "" else got[0].bytes + Chunks(got[1..])
  }

  /** The chunks before the end of a pump are what its records add to the direction, and nothing to the other. */
  lemma {:induction false} PumpedRecordsChunks(p: Program, i: Id, got: seq<Read>)
    ensures Recorded(Pumped(p, i, got).records, i) == Recorded(p.records, i) + Chunks(got)
    ensures Recorded(Pumped(p, i, got).records, Other(i)) == Recorded(p.records, Other(i))
    ensures Pumped(p, i, got).total == p.total + |Chunks(got)|
    decreases |got|
  {
    if got != [] && !got[0].WouldBlock? {
      match got[0]
      case Chunk(bytes, sec, millis) =>
        PumpedRecordsChunks(Copied(p, i, bytes, sec, millis), i, got[1..]);
        CopiedRecords(p, i, bytes, sec, millis, Chunks(got[1..]));
      case EndOfFile(sec, millis) =>
        RecordsAppend(p.records, Eof(sec, millis, i), i);
        RecordsAppend(p.records, Eof(sec, millis, i), Other(i));
    }
  }

  lemma CopiedRecords(p: Program, i: Id, bytes: string, sec: nat, millis: nat, more: string)
    ensures Recorded(Copied(p, i, bytes, sec, millis).records, i) + more == Recorded(p.records, i) + (bytes + more)
    ensures Recorded(Copied(p, i, bytes, sec, millis).records, Other(i)) == Recorded(p.records, Other(i))
  {
    RecordsAppend(p.records, Data(sec, millis, i, bytes), i);
    RecordsAppend(p.records, Data(sec, millis, i, bytes), Other(i));
  }

  lemma PumpedStep(p: Program, i: Id, got: seq<Read>, k: nat)
    requires k < |got|
    ensures got[k].WouldBlock? ==> Pumped(p, i, got[k..]) == p
    ensures got[k].EndOfFile? ==> Pumped(p, i, got[k..]) == Ended(p, i, got[k].sec, got[k].millis)
    ensures got[k].Chunk? ==>
              Pumped(p, i, got[k..]) == Pumped(Copied(p, i, got[k].bytes, got[k].sec, got[k].millis), i, got[k + 1..])
    ensures Chunks(got[k..]) == if got[k].Chunk? then got[k].bytes + Chunks(got[k + 1..]) else ""
  {
    assert got[k..][1..] == got[k + 1..];
  }

  /** An event that the loop handles, with what the system calls then returned. */
  datatype Occurrence =
    | ExitOccurred(results: seq<WaitResult>)
    | NoticeOccurred(byteRead: bool)
    | DataOccurred(from: Id, got: seq<Read>)

  datatype LoopEnd = GoesOn | AllExited | ClosedDescriptor

  function HandledOne(p: Program, o: Occurrence): (Program, LoopEnd) {
    match o
    case ExitOccurred(results) =>
      var (p', done) := ReapedAll(p, results);
      (p', if done then AllExited else GoesOn)
    case NoticeOccurred(byteRead) => (if byteRead then Noticed(p) else p, GoesOn)
    case DataOccurred(i, got) =>
      if p.At(Other(i)).exited then (p, GoesOn)
      else if !p.At(i).outOpen then (p, ClosedDescriptor)
      else (Pumped(p, i, got), GoesOn)
  }

  /** Events are handled in order until the loop ends. */
  function HandledAll(p: Program, os: seq<Occurrence>): (Program, LoopEnd)
    decreases |os|
  {
    if os == [] then (p, GoesOn)
    else
      var (p', end) := HandledOne(p, os[0]);
      if end == GoesOn then HandledAll(p', os[1..]) else (p', end)
  }

  function Flat(batches: seq<seq<Occurrence>>): seq<Occurrence> {
    if batches == [] then [] else batches[0] + Flat(batches[1..])
  }

  lemma {:induction false} HandledAppend(p: Program, os: seq<Occurrence>, more: seq<Occurrence>)
    ensures HandledAll(p, os + more) ==
            if HandledAll(p, os).1 == GoesOn then HandledAll(HandledAll(p, os).0, more) else HandledAll(p, os)
    decreases |os|
  {
    if os == [] {
      assert os + more == more;
    } else {
      assert (os + more)[1..] == os[1..] + more;
      HandledAppend(HandledOne(p, os[0]).0, os[1..], more);
    }
  }

  /** The results that a system allows: known children, data that is not empty, proper milliseconds. */
  predicate Allowed(o: Occurrence, pid0: int, pid1: int) {
    match o
    case ExitOccurred(results) => forall r :: r in results && r.Child? ==> r.pid == pid0 || r.pid == pid1
    case NoticeOccurred(_) => true
    case DataOccurred(_, got) =>
      forall r :: r in got ==> (!r.WouldBlock? ==> r.millis < 1000) && (r.Chunk? ==> r.bytes != "")
  }

  // ----- nothing is recorded once a child is reaped

  /** The output of an exited process is closed. */
  predicate ExitedClosed(p: Program) {
    (p.p0.exited ==> !p.p0.outOpen) && (p.p1.exited ==> !p.p1.outOpen)
  }

  predicate SameTraffic(p: Program, p': Program) {
    p'.records == p.records && p'.total == p.total
  }

  lemma {:induction false} ReapedAllKeeps(p: Program, results: seq<WaitResult>)
    requires ExitedClosed(p)
    ensures ExitedClosed(ReapedAll(p, results).0) && SameTraffic(p, ReapedAll(p, results).0)
    ensures p.AnyoneExited() ==> ReapedAll(p, results).0.AnyoneExited()
    decreases |results|
  {
    if results != [] && results[0].Child? {
      ReapedAllKeeps(Reaped(p, results[0].pid, results[0].status), results[1..]);
    }
  }

  /** A pump marks nobody as exited, and closes both ends of its direction at the end of the stream only. */
  lemma {:induction false} PumpedKeeps(p: Program, i: Id, got: seq<Read>)
    ensures var q := Pumped(p, i, got);
            && q.At(Other(i)) == p.At(Other(i)).(inOpen := p.At(Other(i)).inOpen && !HasEnd(got))
            && q.At(i) == p.At(i).(outOpen := p.At(i).outOpen && !HasEnd(got))
            && q.timelimit == p.timelimit && q.firstExit == p.firstExit
    decreases |got|
  {
    if got != [] && got[0].Chunk? {
      PumpedKeeps(Copied(p, i, got[0].bytes, got[0].sec, got[0].millis), i, got[1..]);
    }
  }

  lemma HandledOneKeeps(p: Program, o: Occurrence)
    requires ExitedClosed(p)
    ensures ExitedClosed(HandledOne(p, o).0)
    ensures p.AnyoneExited() ==> HandledOne(p, o).0.AnyoneExited() && SameTraffic(p, HandledOne(p, o).0)
  {
    match o
    case ExitOccurred(results) => ReapedAllKeeps(p, results);
    case NoticeOccurred(_) =>
    case DataOccurred(i, got) => PumpedKeeps(p, i, got);
  }

  lemma {:induction false} HandledAllKeeps(p: Program, os: seq<Occurrence>)
    requires ExitedClosed(p)
    ensures ExitedClosed(HandledAll(p, os).0)
    ensures p.AnyoneExited() ==> HandledAll(p, os).0.AnyoneExited() && SameTraffic(p, HandledAll(p, os).0)
    decreases |os|
  {
    if os != [] {
      HandledOneKeeps(p, os[0]);
      HandledAllKeeps(HandledOne(p, os[0]).0, os[1..]);
    }
  }

  /** Once some process has exited, no event makes the loop record or count anything more. */
  lemma NothingRecordedAfterExit(pid0: int, pid1: int, os: seq<Occurrence>, more: seq<Occurrence>)
    requires HandledAll(Start(pid0, pid1), os).0.AnyoneExited()
    ensures SameTraffic(HandledAll(Start(pid0, pid1), os).0, HandledAll(Start(pid0, pid1), os + more).0)
  {
    HandledAllKeeps(Start(pid0, pid1), os);
    HandledAllKeeps(HandledAll(Start(pid0, pid1), os).0, more);
    HandledAppend(Start(pid0, pid1), os, more);
  }

  // ----- the record in terms of the events

  /** The results report this child before none is ready. */
  predicate Reaping(results: seq<WaitResult>, pid: int)
    decreases |results|
  {
    results != [] && results[0].Child? && (results[0].pid == pid || Reaping(results[1..], pid))
  }

  ghost predicate ReapedIn(os: seq<Occurrence>, pid: int) {
    exists k :: 0 <= k < |os| && os[k].ExitOccurred? && Reaping(os[k].results, pid)
  }

  ghost predicate NoticedIn(os: seq<Occurrence>) {
    exists k :: 0 <= k < |os| && os[k] == NoticeOccurred(true)
  }

  /** The event reaps some child. */
  predicate ReapsSome(o: Occurrence) {
    o.ExitOccurred? && o.results != [] && o.results[0].Child?
  }

  /** The reads come to the end of the stream. */
  predicate HasEnd(got: seq<Read>)
    decreases |got|
  {
    got != [] && (got[0].EndOfFile? || (got[0].Chunk? && HasEnd(got[1..])))
  }

  /** What is read from process i for one event. */
  function ReadFrom(o: Occurrence, i: Id): string {
    if o.DataOccurred? && o.from == i then Chunks(o.got) else ""
  }

  /** What is read from process i before any child is reaped. */
  function Traffic(os: seq<Occurrence>, i: Id): string
    decreases |os|
  {
    if os == [] || ReapsSome(os[0]) then ""
    else ReadFrom(os[0], i) + Traffic(os[1..], i)
  }

  /** The end of the stream from process i is read before any child is reaped. */
  predicate EndRead(os: seq<Occurrence>, i: Id)
    decreases |os|
  {
    && os != [] && !ReapsSome(os[0])
    && ((os[0].DataOccurred? && os[0].from == i && HasEnd(os[0].got)) || EndRead(os[1..], i))
  }

  /** The child whose exit is noticed before all other exits and notices, or -1. */
  function FirstNoticed(os: seq<Occurrence>): int
    decreases |os|
  {
    if os == [] || os[0] == NoticeOccurred(true) then -1
    else if ReapsSome(os[0]) then os[0].results[0].pid
    else FirstNoticed(os[1..])
  }

  predicate AllAllowed(os: seq<Occurrence>, pid0: int, pid1: int) {
    forall o :: o in os ==> Allowed(o, pid0, pid1)
  }

  lemma {:induction false} FlatAllowed(batches: seq<seq<Occurrence>>, pid0: int, pid1: int)
    requires forall b, o :: b in batches && o in b ==> Allowed(o, pid0, pid1)
    ensures AllAllowed(Flat(batches), pid0, pid1)
  {
    if batches != [] {
      FlatAllowed(batches[1..], pid0, pid1);
    }
  }

  lemma InTail(os: seq<Occurrence>, pid: int)
    requires os != []
    ensures ReapedIn(os, pid) <==> (os[0].ExitOccurred? && Reaping(os[0].results, pid)) || ReapedIn(os[1..], pid)
    ensures NoticedIn(os) <==> os[0] == NoticeOccurred(true) || NoticedIn(os[1..])
  {
    var rest := os[1..];
    assert forall k :: 0 <= k < |rest| ==> rest[k] == os[k + 1];
    if k :| 1 <= k < |os| && os[k].ExitOccurred? && Reaping(os[k].results, pid) {
      assert rest[k - 1] == os[k];
    }
    if k :| 1 <= k < |os| && os[k] == NoticeOccurred(true) {
      assert rest[k - 1] == os[k];
    }
  }

  ghost predicate Known(p: Program, os: seq<Occurrence>) {
    p.p0.pid > 0 && p.p1.pid > 0 && AllAllowed(os, p.p0.pid, p.p1.pid)
  }

  lemma {:induction false} ReapedAllExits(p: Program, results: seq<WaitResult>, i: Id)
    requires Known(p, [ExitOccurred(results)])
    ensures var (q, done) := ReapedAll(p, results);
            && q.At(i).pid == p.At(i).pid
            && (q.At(i).exited <==> p.At(i).exited || Reaping(results, p.At(i).pid))
            && q.At(i).outOpen == (p.At(i).outOpen && (ReapsSome(ExitOccurred(results)) ==> !q.At(i).exited))
            && q.At(i).inOpen == (p.At(i).inOpen && !ReapsSome(ExitOccurred(results)))
            && (ReapsSome(ExitOccurred(results)) ==> q.AnyoneExited())
            && (!p.EveryoneExited() ==> (done <==> q.EveryoneExited()))
    decreases |results|
  {
    assert Allowed([ExitOccurred(results)][0], p.p0.pid, p.p1.pid);
    if results != [] && results[0].Child? {
      assert results[0] in results;
      var p' := Reaped(p, results[0].pid, results[0].status);
      if !p'.EveryoneExited() {
        ReapedAllExits(p', results[1..], i);
      }
    }
  }

  lemma {:induction false} ReapedAllFirst(p: Program, results: seq<WaitResult>)
    requires Known(p, [ExitOccurred(results)])
    ensures var q := ReapedAll(p, results).0;
            && q.timelimit == p.timelimit
            && q.firstExit == if p.firstExit == -1 && !p.timelimit && ReapsSome(ExitOccurred(results))
                              then results[0].pid else p.firstExit
    decreases |results|
  {
    assert Allowed([ExitOccurred(results)][0], p.p0.pid, p.p1.pid);
    if results != [] && results[0].Child? {
      assert results[0] in results;
      ReapedAllFirst(Reaped(p, results[0].pid, results[0].status), results[1..]);
    }
  }

  /** The state after one event more that does not end the loop is known, too. */
  lemma KnownStep(p: Program, os: seq<Occurrence>)
    requires os != [] && Known(p, os)
    ensures Known(p, [os[0]]) && Known(HandledOne(p, os[0]).0, os[1..])
    ensures forall i: Id :: HandledOne(p, os[0]).0.At(i).pid == p.At(i).pid
  {
    assert os[0] in os;
    forall i: Id ensures HandledOne(p, os[0]).0.At(i).pid == p.At(i).pid {
      match os[0]
      case ExitOccurred(results) => ReapedAllExits(p, results, i);
      case NoticeOccurred(_) =>
      case DataOccurred(j, got) => PumpedKeeps(p, j, got);
    }
    assert HandledOne(p, os[0]).0.At(0).pid == p.p0.pid && HandledOne(p, os[0]).0.At(1).pid == p.p1.pid;
  }

  /** Who is marked as exited after events that were all handled. */
  lemma {:induction false} ExitsHandled(p: Program, os: seq<Occurrence>, i: Id)
    requires Known(p, os) && HandledAll(p, os).1 == GoesOn
    ensures HandledAll(p, os).0.At(i).pid == p.At(i).pid
    ensures HandledAll(p, os).0.At(i).exited <==> p.At(i).exited || ReapedIn(os, p.At(i).pid)
    ensures !p.EveryoneExited() ==> !HandledAll(p, os).0.EveryoneExited()
    decreases |os|
  {
    if os != [] {
      KnownStep(p, os);
      InTail(os, p.At(i).pid);
      match os[0] {
        case ExitOccurred(results) => ReapedAllExits(p, results, i);
        case NoticeOccurred(_) =>
        case DataOccurred(j, got) => PumpedKeeps(p, j, got);
      }
      ExitsHandled(HandledOne(p, os[0]).0, os[1..], i);
    }
  }

  /** The first exit is that of the child noticed first, unless a notice came before it. */
  lemma {:induction false} FirstExitHandled(p: Program, os: seq<Occurrence>)
    requires Known(p, os) && HandledAll(p, os).1 == GoesOn
    ensures HandledAll(p, os).0.timelimit <==> p.timelimit || NoticedIn(os)
    ensures HandledAll(p, os).0.firstExit == if p.firstExit != -1 || p.timelimit then p.firstExit else FirstNoticed(os)
    decreases |os|
  {
    if os != [] {
      KnownStep(p, os);
      assert os[0] in os;
      InTail(os, 0);
      match os[0] {
        case ExitOccurred(results) =>
          ReapedAllFirst(p, results);
          if results != [] {
            assert results[0] in results;
          }
        case NoticeOccurred(_) =>
        case DataOccurred(j, got) => PumpedKeeps(p, j, got);
      }
      FirstExitHandled(HandledOne(p, os[0]).0, os[1..]);
    }
  }

  lemma ReadRecorded(p: Program, o: Occurrence, i: Id)
    requires !o.ExitOccurred? && !p.AnyoneExited() && HandledOne(p, o).1 == GoesOn
    ensures !HandledOne(p, o).0.AnyoneExited()
    ensures Recorded(HandledOne(p, o).0.records, i) == Recorded(p.records, i) + ReadFrom(o, i)
    ensures HandledOne(p, o).0.total == p.total + |ReadFrom(o, 0)| + |ReadFrom(o, 1)|
  {
    if o.DataOccurred? {
      PumpedKeeps(p, o.from, o.got);
      PumpedRecordsChunks(p, o.from, o.got);
    }
  }

  lemma Concatenated(a: string, b: string, c: string)
    ensures (a + b) + c == a + (b + c)
  {
  }

  /** While nobody has exited, what is read is recorded. */
  lemma {:induction false} TrafficHandled(p: Program, os: seq<Occurrence>, i: Id)
    requires Known(p, os) && HandledAll(p, os).1 != ClosedDescriptor && !p.AnyoneExited()
    ensures Recorded(HandledAll(p, os).0.records, i) == Recorded(p.records, i) + Traffic(os, i)
    decreases |os|
  {
    if os != [] {
      KnownStep(p, os);
      if os[0].ExitOccurred? {
        ExitTraffic(p, os);
        if !ReapsSome(os[0]) {
          TrafficHandled(p, os[1..], i);
        }
      } else {
        ReadRecorded(p, os[0], i);
        TrafficHandled(HandledOne(p, os[0]).0, os[1..], i);
        Concatenated(Recorded(p.records, i), ReadFrom(os[0], i), Traffic(os[1..], i));
      }
    }
  }

  /** And counted. */
  lemma {:induction false} TotalHandled(p: Program, os: seq<Occurrence>)
    requires Known(p, os) && HandledAll(p, os).1 != ClosedDescriptor && !p.AnyoneExited()
    ensures HandledAll(p, os).0.total == p.total + |Traffic(os, 0)| + |Traffic(os, 1)|
    decreases |os|
  {
    if os != [] {
      KnownStep(p, os);
      if os[0].ExitOccurred? {
        ExitTraffic(p, os);
        if !ReapsSome(os[0]) {
          TotalHandled(p, os[1..]);
        }
      } else {
        ReadRecorded(p, os[0], 0);
        TotalHandled(HandledOne(p, os[0]).0, os[1..]);
      }
    }
  }

  /** So in both directions, if the loop does not end on a closed descriptor. */
  lemma BothTraffics(p: Program, os: seq<Occurrence>)
    requires Known(p, os)
    ensures !p.AnyoneExited() && HandledAll(p, os).1 != ClosedDescriptor ==>
              forall i: Id :: Recorded(HandledAll(p, os).0.records, i) == Recorded(p.records, i) + Traffic(os, i)
  {
    forall i: Id | !p.AnyoneExited() && HandledAll(p, os).1 != ClosedDescriptor
      ensures Recorded(HandledAll(p, os).0.records, i) == Recorded(p.records, i) + Traffic(os, i)
    {
      TrafficHandled(p, os, i);
    }
  }

  lemma ExitTraffic(p: Program, os: seq<Occurrence>)
    requires os != [] && os[0].ExitOccurred? && !p.AnyoneExited() && Known(p, os)
    ensures ExitedClosed(p)
    ensures if ReapsSome(os[0]) then SameTraffic(p, HandledAll(p, os).0)
            else HandledAll(p, os) == HandledAll(p, os[1..])
  {
    KnownStep(p, os);
    ReapedAllExits(p, os[0].results, 0);
    HandledOneKeeps(p, os[0]);
    ReapedAllKeeps(p, os[0].results);
    HandledAllKeeps(HandledOne(p, os[0]).0, os[1..]);
  }

  /** An output is open until its process is reaped, or until the end of its stream is read while both run. */
  lemma {:induction false} OpenHandled(p: Program, os: seq<Occurrence>, i: Id)
    requires Known(p, os) && HandledAll(p, os).1 == GoesOn && ExitedClosed(p)
    ensures var q := HandledAll(p, os).0;
            q.At(i).outOpen <==> p.At(i).outOpen && !q.At(i).exited && (!p.AnyoneExited() ==> !EndRead(os, i))
    decreases |os|
  {
    if os != [] {
      KnownStep(p, os);
      HandledOneKeeps(p, os[0]);
      match os[0] {
        case ExitOccurred(results) => ReapedAllExits(p, results, i);
        case NoticeOccurred(_) =>
        case DataOccurred(j, got) => PumpedKeeps(p, j, got);
      }
      var q := HandledOne(p, os[0]).0;
      OpenHandled(q, os[1..], i);
      ExitsHandled(q, os[1..], i);
    }
  }

  /** All inputs are closed once somebody has exited. */
  predicate InputsShut(p: Program) {
    p.AnyoneExited() ==> !p.p0.inOpen && !p.p1.inOpen
  }

  /** An input is open until anybody exits, or until the stream that it carries has been read to its end. */
  lemma {:induction false} InputHandled(p: Program, os: seq<Occurrence>, i: Id)
    requires Known(p, os) && HandledAll(p, os).1 == GoesOn && InputsShut(p)
    ensures var q := HandledAll(p, os).0;
            q.At(i).inOpen <==> p.At(i).inOpen && !q.AnyoneExited() && !EndRead(os, Other(i))
    decreases |os|
  {
    if os != [] {
      KnownStep(p, os);
      match os[0] {
        case ExitOccurred(results) =>
          ReapedAllExits(p, results, 0);
          ReapedAllExits(p, results, 1);
        case NoticeOccurred(_) =>
        case DataOccurred(j, got) => PumpedKeeps(p, j, got);
      }
      var q := HandledOne(p, os[0]).0;
      InputHandled(q, os[1..], i);
      if q.AnyoneExited() {
        AnyoneStays(q, os[1..]);
      }
    }
  }

  lemma AnyoneStays(p: Program, os: seq<Occurrence>)
    requires Known(p, os) && HandledAll(p, os).1 == GoesOn && p.AnyoneExited()
    ensures HandledAll(p, os).0.AnyoneExited()
  {
    ExitsHandled(p, os, 0);
    ExitsHandled(p, os, 1);
  }

  ghost predicate Ran(pid0: int, pid1: int, os: seq<Occurrence>) {
    && pid0 > 0 && pid1 > 0 && pid0 != pid1 && AllAllowed(os, pid0, pid1)
    && HandledAll(Start(pid0, pid1), os).1 == GoesOn
  }

  function Pid(i: Id, pid0: int, pid1: int): int {
    if i == 0 then pid0 else pid1
  }

  /** The whole record of a loop that goes on, in terms of the events it has handled. */
  lemma RecordOfEvents(pid0: int, pid1: int, os: seq<Occurrence>, i: Id)
    requires Ran(pid0, pid1, os)
    ensures var p := HandledAll(Start(pid0, pid1), os).0;
            && Recorded(p.records, i) == Traffic(os, i) && p.total == |Traffic(os, 0)| + |Traffic(os, 1)|
            && (p.At(i).exited <==> ReapedIn(os, Pid(i, pid0, pid1)))
            && (p.At(i).outOpen <==> !ReapedIn(os, Pid(i, pid0, pid1)) && !EndRead(os, i))
            && (p.At(i).inOpen <==> !ReapedIn(os, pid0) && !ReapedIn(os, pid1) && !EndRead(os, Other(i)))
            && (p.timelimit <==> NoticedIn(os)) && p.firstExit == FirstNoticed(os)
  {
    var start := Start(pid0, pid1);
    TrafficHandled(start, os, i);
    TotalHandled(start, os);
    ExitsHandled(start, os, i);
    OpenHandled(start, os, i);
    ExitsHandled(start, os, 0);
    ExitsHandled(start, os, 1);
    InputHandled(start, os, i);
    FirstExitHandled(start, os);
  }

  /**
   How the next event ends the loop: with everyone exited, exactly if it reaps all that were left; on a closed
   descriptor, exactly if it is about data from a process that was reaped or had closed its output while
   the other was not reaped.
   */
  lemma LoopEndsIff(pid0: int, pid1: int, os: seq<Occurrence>, o: Occurrence)
    requires Ran(pid0, pid1, os) && Allowed(o, pid0, pid1)
    ensures var end := HandledAll(Start(pid0, pid1), os + [o]).1;
            && (end == AllExited <==>
                  && o.ExitOccurred? && (ReapedIn(os, pid0) || Reaping(o.results, pid0))
                  && (ReapedIn(os, pid1) || Reaping(o.results, pid1)))
            && (end == ClosedDescriptor <==>
                  && o.DataOccurred? && !ReapedIn(os, Pid(Other(o.from), pid0, pid1))
                  && (ReapedIn(os, Pid(o.from, pid0, pid1)) || EndRead(os, o.from)))
  {
    var start := Start(pid0, pid1);
    var p := HandledAll(start, os).0;
    HandledAppend(start, os, [o]);
    assert [o][1..] == [];
    RecordOfEvents(pid0, pid1, os, 0);
    RecordOfEvents(pid0, pid1, os, 1);
    ExitsHandled(start, os, 0);
    ExitsHandled(start, os, 1);
    if o.ExitOccurred? {
      ReapedAllExits(p, o.results, 0);
      ReapedAllExits(p, o.results, 1);
    }
  }
}