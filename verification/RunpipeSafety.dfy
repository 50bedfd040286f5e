/**
 What every run of runpipe keeps, whatever the children do and however signals are merged.
 */
module RunpipeSafety {
  import opened Wrappers
  import opened Transcript
  import opened RunpipeProgram
  import opened RunpipeWorld

  ghost predicate Reached(pid0: int, pid1: int, actions: seq<Action>, w: World) {
    && pid0 > 0 && pid1 > 0 && pid0 != pid1
    && Run(Initial(pid0, pid1), actions) == Some(w)
  }

  lemma ReachedInv(pid0: int, pid1: int, actions: seq<Action>, w: World)
    requires Reached(pid0, pid1, actions, w)
    ensures Inv(w)
  {
    InitialInv(pid0, pid1);
    RunInv(Initial(pid0, pid1), actions);
  }

  /** A loop that sleeps while a dead child is unreaped will be woken: merged signals lose nothing. */
  lemma NoExitIsLost(pid0: int, pid1: int, actions: seq<Action>, w: World, i: Id)
    requires Reached(pid0, pid1, actions, w) && w.Running() && w.Zombie(i)
    ensures w.chldPending || w.chldBytes > 0 || w.control.Reaping? || w.control.Collecting?
    ensures w.control.Waiting? ==> w.chldPending || Enabled(w, Wait([ExitEvent]))
  {
    ReachedInv(pid0, pid1, actions, w);
  }

  /** The loop ends exactly when both children are reaped, and waitpid never runs out of children. */
  lemma FinishesExactlyWhenAllReaped(pid0: int, pid1: int, actions: seq<Action>, w: World)
    requires Reached(pid0, pid1, actions, w)
    ensures w.control.Finished? <==> w.prog.p0.exited && w.prog.p1.exited
    ensures !Enabled(w, WaitpidError) && w.control != Aborted(NoChildren)
    ensures w.control.Finished? ==> w.prog.ExitCode() == if w.c0.status.Code? then w.c0.status.code else -1
  {
    ReachedInv(pid0, pid1, actions, w);
  }

  /**
   Per direction: delivered bytes are a prefix of the recorded bytes, which are a prefix of the bytes
   written. Nothing recorded is withheld unless a write failed, and what was written is always what was
   recorded followed by what waits in the pipe.
   */
  lemma StreamsConserved(pid0: int, pid1: int, actions: seq<Action>, w: World, i: Id)
    requires Reached(pid0, pid1, actions, w)
    ensures w.At(Other(i)).received <= Recorded(w.prog.records, i) <= w.At(i).written
    ensures w.At(Other(i)).received == Recorded(w.prog.records, i) <==> !w.At(Other(i)).inBroken
    ensures w.At(i).written == Recorded(w.prog.records, i) + w.At(i).pipe
    ensures w.prog.total == |Recorded(w.prog.records, 0)| + |Recorded(w.prog.records, 1)|
  {
    ReachedInv(pid0, pid1, actions, w);
  }

  /**
   At the end a direction was recorded in full exactly if its pipe is empty; what an early close lost is
   what is left in it.
   */
  lemma RecordedInFullIffPipeEmpty(pid0: int, pid1: int, actions: seq<Action>, w: World, i: Id)
    requires Reached(pid0, pid1, actions, w) && w.control.Finished?
    ensures Recorded(w.prog.records, i) == w.At(i).written <==> w.At(i).pipe == ""
    ensures |Recorded(w.prog.records, i)| <= |w.At(i).written|
    ensures w.At(i).pipe == w.At(i).written[|Recorded(w.prog.records, i)|..]
  {
    StreamsConserved(pid0, pid1, actions, w, i);
    var rec := Recorded(w.prog.records, i);
    assert (rec + w.At(i).pipe)[|rec|..] == w.At(i).pipe;
    if w.At(i).pipe == "" {
      assert rec + "" == rec;
    }
  }

  /** An end-of-file record is the last of its direction and certifies that the whole stream was recorded. */
  lemma EofCertifiesWholeStream(pid0: int, pid1: int, actions: seq<Action>, w: World, i: Id, k: nat)
    requires Reached(pid0, pid1, actions, w)
    requires k < |w.prog.records| && w.prog.records[k].Eof? && w.prog.records[k].from == i
    ensures Recorded(w.prog.records, i) == w.At(i).written && !w.At(i).stdoutOpen
    ensures forall l :: k < l < |w.prog.records| ==> w.prog.records[l].from != i
  {
    ReachedInv(pid0, pid1, actions, w);
    assert HasEof(w.prog.records, i);
  }

  /** The file written in any run reads back as the records of that run. */
  lemma TranscriptDecodes(pid0: int, pid1: int, actions: seq<Action>, w: World)
    requires Reached(pid0, pid1, actions, w)
    ensures forall r :: r in w.prog.records ==> Writable(r)
    ensures DecodeAll(EncodeAll(w.prog.records)) == Some(w.prog.records)
  {
    ReachedInv(pid0, pid1, actions, w);
    DecodeAllBack(w.prog.records, EncodeAll(w.prog.records));
  }

  /** Once a child has been reaped, no byte and no end of file is recorded any more. */
  lemma NoTrafficAfterExit(pid0: int, pid1: int, actions: seq<Action>, w: World, a: Action)
    requires Reached(pid0, pid1, actions, w) && Enabled(w, a)
    requires w.prog.AnyoneExited()
    ensures Next(w, a).prog.records == w.prog.records && Next(w, a).prog.total == w.prog.total
  {
    ReachedInv(pid0, pid1, actions, w);
    if a.PumpChunk? || a.PumpEof? {
      NobodyToPump(w);
    } else {
      NextQuietProgram(w, a);
    }
  }

  lemma NobodyToPump(w: World)
    requires Descriptors(w) && w.control.Pumping? && w.prog.At(w.control.from).outOpen
    ensures !w.prog.AnyoneExited()
  {
  }

  /** The proxy never writes to a pipe it has closed itself. */
  lemma WritesOnlyToOpenPipes(pid0: int, pid1: int, actions: seq<Action>, w: World, n: nat, accepted: nat, sec: nat,
                              millis: nat)
    requires Reached(pid0, pid1, actions, w) && Enabled(w, PumpChunk(n, accepted, sec, millis))
    ensures w.prog.At(Other(w.control.from)).inOpen
  {
    ReachedInv(pid0, pid1, actions, w);
  }

  // ----- which process exited first

  lemma {:induction false} LogGrows(w: World, actions: seq<Action>)
    requires Run(w, actions).Some?
    ensures w.log <= Run(w, actions).value.log
    decreases |actions|
  {
    if actions != [] {
      LogGrows(Next(w, actions[0]), actions[1..]);
    }
  }

  /**
   The recorded first exit is the pid of the first child reaped if no time-limit notice was handled
   before, and otherwise -1; every later state agrees.
   */
  lemma FirstExitDecided(pid0: int, pid1: int, before: seq<Action>, w: World, after: seq<Action>, w': World)
    requires Reached(pid0, pid1, before, w) && Run(w, after) == Some(w')
    requires w.log != []
    ensures w'.prog.firstExit == w.prog.firstExit == if w.log[0].Reap? then w.log[0].pid else -1
  {
    ReachedInv(pid0, pid1, before, w);
    RunInv(w, after);
    LogGrows(w, after);
  }

  /** `validator-exited-first` holds exactly if the main process was reaped before anything else was noticed. */
  lemma ValidatorExitedFirstIff(pid0: int, pid1: int, actions: seq<Action>, w: World)
    requires Reached(pid0, pid1, actions, w) && w.control.Finished?
    ensures w.prog.ValidatorExitedFirst() <==> w.log != [] && w.log[0] == Reap(w.prog.p0.pid)
    ensures Reap(w.prog.p0.pid) in w.log && Reap(w.prog.p1.pid) in w.log
    ensures forall k, l :: 0 <= k < l < |w.log| && w.log[k].Reap? ==> w.log[l] != w.log[k]
  {
    ReachedInv(pid0, pid1, actions, w);
    assert w.log != [];
    assert w.log[0] in w.log;
    forall k, l | 0 <= k < l < |w.log| && w.log[k].Reap? ensures w.log[l] != w.log[k] {
      assert w.log[k] in w.log;
      assert w.log[k] == Reap(w.prog.p0.pid) || w.log[k] == Reap(w.prog.p1.pid);
    }
  }

  // ----- reading from a closed descriptor

  function PendingEvents(c: Control): seq<Event> {
    match c
    case Handling(events) => events
    case Reaping(rest) => rest
    case Collecting(rest) => rest
    case Pumping(_, rest) => rest
    case _ => []
  }

  ghost predicate StillReadable(p: Program, i: Id) {
    p.At(i).outOpen || p.At(i).exited
  }

  ghost predicate PendingOk(es: seq<Event>, p: Program) {
    && Distinct(es)
    && (DataEvent(0) in es ==> StillReadable(p, 0))
    && (DataEvent(1) in es ==> StillReadable(p, 1))
  }

  /** Events of a batch are distinct, and a data event goes stale only by its sender being reaped. */
  ghost predicate Batch(w: World) {
    var es := PendingEvents(w.control);
    && PendingOk(es, w.prog)
    && (w.control.Pumping? ==> StillReadable(w.prog, w.control.from) && DataEvent(w.control.from) !in es)
  }

  lemma DistinctTail(es: seq<Event>)
    requires Distinct(es) && es != []
    ensures Distinct(es[1..]) && es[0] !in es[1..]
    ensures forall e :: e in es <==> e == es[0] || e in es[1..]
    ensures ExitLast(es) ==> ExitLast(es[1..])
  {
    var t := es[1..];
    assert es == [es[0]] + t;
    assert forall k :: 0 <= k < |t| ==> t[k] == es[k + 1];
  }

  lemma PendingTail(es: seq<Event>, p: Program)
    requires PendingOk(es, p) && es != []
    ensures PendingOk(es[1..], p) && es[0] !in es[1..]
    ensures es[0].DataEvent? ==> StillReadable(p, es[0].from)
  {
    DistinctTail(es);
  }

  /** A program that only closes the outputs of processes that exit keeps pending events in order. */
  lemma PendingLater(es: seq<Event>, p: Program, p': Program)
    requires PendingOk(es, p)
    requires StillReadable(p, 0) ==> StillReadable(p', 0)
    requires StillReadable(p, 1) ==> StillReadable(p', 1)
    ensures PendingOk(es, p')
  {
  }

  lemma DispatchBatch(w: World)
    requires Batch(w) && Enabled(w, Dispatch)
    ensures Batch(AfterDispatch(w))
  {
    var rest, w' := w.control.events[1..], AfterDispatch(w);
    PendingTail(w.control.events, w.prog);
    assert PendingEvents(w'.control) == rest;
    PendingLater(rest, w.prog, w'.prog);
  }

  lemma WaitBatch(w: World, events: seq<Event>)
    requires Enabled(w, Wait(events))
    ensures Batch(Next(w, Wait(events)))
  {
    assert DataEvent(0) in events ==> w.Ready(DataEvent(0));
    assert DataEvent(1) in events ==> w.Ready(DataEvent(1));
  }

  lemma ChunkBatch(w: World, n: nat, accepted: nat, sec: nat, millis: nat)
    requires Batch(w) && Enabled(w, PumpChunk(n, accepted, sec, millis))
    ensures Batch(Next(w, PumpChunk(n, accepted, sec, millis)))
  {
    var chunk := w.At(w.control.from).pipe[..n];
    PendingLater(PendingEvents(w.control), w.prog, Copied(w.prog, w.control.from, chunk, sec, millis));
  }

  /** The end of a stream closes the output of the process that is pumped, of which no event is pending. */
  lemma EofBatch(w: World, sec: nat, millis: nat)
    requires Batch(w) && Enabled(w, PumpEof(sec, millis))
    ensures Batch(Next(w, PumpEof(sec, millis)))
  {
    assert PendingEvents(Resume(w.control.rest)) == w.control.rest;
  }

  lemma ReapBatch(w: World, i: Id)
    requires Batch(w) && Enabled(w, WaitpidReaps(i))
    ensures Batch(Next(w, WaitpidReaps(i)))
  {
    var p' := AfterReap(w, i).prog;
    ReapKeepsReadable(w.prog, w.prog.At(i).pid, w.At(i).status);
    PendingLater(w.control.rest, w.prog, p');
  }

  lemma ReapKeepsReadable(p: Program, pid: int, status: ExitInfo)
    ensures StillReadable(p, 0) ==> StillReadable(Reaped(p, pid, status), 0)
    ensures StillReadable(p, 1) ==> StillReadable(Reaped(p, pid, status), 1)
  {
  }

  lemma PendingSame(w: World, a: Action)
    requires Enabled(w, a) && !a.WaitpidReaps? && !a.Dispatch? && !a.PumpChunk? && !a.PumpEof? && !a.Wait?
    ensures PendingEvents(Next(w, a).control) == PendingEvents(w.control) || PendingEvents(Next(w, a).control) == []
  {
  }

  lemma QuietBatch(w: World, a: Action)
    requires Batch(w) && Enabled(w, a)
    requires !a.WaitpidReaps? && !a.Dispatch? && !a.PumpChunk? && !a.PumpEof? && !a.Wait?
    ensures Batch(Next(w, a))
  {
    ProgramSame(w, a);
    PumpingGoesOn(w, a);
    PendingSame(w, a);
  }

  lemma NextBatch(w: World, a: Action)
    requires Batch(w) && Enabled(w, a)
    ensures Batch(Next(w, a))
  {
    match a
    case Dispatch => DispatchBatch(w);
    case Wait(events) => WaitBatch(w, events);
    case PumpEof(sec, millis) => EofBatch(w, sec, millis);
    case PumpChunk(n, accepted, sec, millis) => ChunkBatch(w, n, accepted, sec, millis);
    case WaitpidReaps(i) => ReapBatch(w, i);
    case _ => QuietBatch(w, a);
  }

  lemma {:induction false} RunBatch(w: World, actions: seq<Action>)
    requires Batch(w) && Run(w, actions).Some?
    ensures Batch(Run(w, actions).value)
    decreases |actions|
  {
    if actions != [] {
      NextBatch(w, actions[0]);
      RunBatch(Next(w, actions[0]), actions[1..]);
    }
  }

  /** The read in the pump loop fails on a closed descriptor exactly if the sender was reaped in the same batch. */
  lemma BadDescriptorIffSenderReaped(pid0: int, pid1: int, actions: seq<Action>, w: World)
    requires Reached(pid0, pid1, actions, w) && w.control.Pumping?
    ensures Enabled(w, PumpBadDescriptor) <==> w.prog.At(w.control.from).exited
  {
    ReachedBatch(pid0, pid1, actions, w);
    ClosedIffExited(w);
  }

  lemma ReachedBatch(pid0: int, pid1: int, actions: seq<Action>, w: World)
    requires Reached(pid0, pid1, actions, w)
    ensures Batch(w) && Descriptors(w)
  {
    ReachedInv(pid0, pid1, actions, w);
    RunBatch(Initial(pid0, pid1), actions);
  }

  lemma ClosedIffExited(w: World)
    requires Batch(w) && Descriptors(w) && w.control.Pumping?
    ensures w.prog.At(w.control.from).outOpen <==> !w.prog.At(w.control.from).exited
  {
  }

  /** While a batch is handled, only its own events are pending. */
  lemma {:induction false} PendingFromBatch(w: World, actions: seq<Action>, events: seq<Event>)
    requires Run(w, actions).Some? && forall a :: a in actions ==> !a.Wait?
    requires forall e :: e in PendingEvents(w.control) ==> e in events
    ensures forall e :: e in PendingEvents(Run(w, actions).value.control) ==> e in events
    decreases |actions|
  {
    if actions != [] {
      var a := actions[0];
      if a.Dispatch? {
        DispatchPending(w);
      } else if a.PumpEof? || a.PumpChunk? || a.WaitpidReaps? {
        PumpOrReapPending(w, a);
      } else {
        PendingSame(w, a);
      }
      PendingFromBatch(Next(w, a), actions[1..], events);
    }
  }

  lemma DispatchPending(w: World)
    requires Enabled(w, Dispatch)
    ensures PendingEvents(Next(w, Dispatch).control) == w.control.events[1..]
  {
  }

  lemma PumpOrReapPending(w: World, a: Action)
    requires Enabled(w, a) && (a.PumpEof? || a.PumpChunk? || a.WaitpidReaps?)
    ensures PendingEvents(Next(w, a).control) == PendingEvents(w.control) || PendingEvents(Next(w, a).control) == []
  {
  }

  /**
   A data event leads to a read on a closed descriptor exactly if its sender was reaped earlier in the
   same batch and the receiver has not been reaped at all.
   */
  lemma DataEventAbortsIff(pid0: int, pid1: int, before: seq<Action>, w0: World, events: seq<Event>,
                           within: seq<Action>, w: World, i: Id)
    requires Reached(pid0, pid1, before, w0) && Enabled(w0, Wait(events))
    requires Run(Next(w0, Wait(events)), within) == Some(w) && forall a :: a in within ==> !a.Wait?
    requires w.control.Handling? && w.control.events != [] && w.control.events[0] == DataEvent(i) &&
             Enabled(w, Dispatch)
    ensures var w' := Next(w, Dispatch);
            w'.control.Pumping? && Enabled(w', PumpBadDescriptor) <==>
            |w0.log| <= |w.log| && Reap(w.prog.At(i).pid) in w.log[|w0.log|..] &&
                Reap(w.prog.At(Other(i)).pid) !in w.log
  {
    WithinBatch(pid0, pid1, before, w0, events, within, w, i);
    AddedSince(w0.log, w.log, Reap(w.prog.At(i).pid));
    ExitedIffLogged(w, i);
    ExitedIffLogged(w, Other(i));
    DispatchToClosed(w, i);
  }

  lemma AddedSince(log: seq<Notice>, log': seq<Notice>, n: Notice)
    requires log <= log' && n !in log
    ensures n in log' <==> n in log'[|log|..]
  {
    assert log' == log + log'[|log|..];
  }

  /**
   What is known when a pending data event of a batch is handled: its sender had not been reaped when the
   batch was reported.
   */
  lemma WithinBatch(pid0: int, pid1: int, before: seq<Action>, w0: World, events: seq<Event>,
                    within: seq<Action>, w: World, i: Id)
    requires Reached(pid0, pid1, before, w0) && Enabled(w0, Wait(events))
    requires Run(Next(w0, Wait(events)), within) == Some(w) && forall a :: a in within ==> !a.Wait?
    requires DataEvent(i) in PendingEvents(w.control)
    ensures Batch(w) && Descriptors(w) && History(w)
    ensures w0.log <= w.log && Reap(w.prog.At(i).pid) !in w0.log
  {
    var w1 := Next(w0, Wait(events));
    ReachedInv(pid0, pid1, before, w0);
    WaitNext(w0, events);
    InvAndBatch(w1, within);
    LogGrows(w1, within);
    PidsStay(w1, within);
    PendingFromBatch(w1, within, events);
    assert DataEvent(i) in events && w0.Ready(DataEvent(i));
    NotExitedAtWait(w0, i);
  }

  lemma WaitNext(w: World, events: seq<Event>)
    requires Inv(w) && Enabled(w, Wait(events))
    ensures var w' := Next(w, Wait(events));
            Inv(w') && Batch(w') && w'.log == w.log && w'.prog == w.prog && PendingEvents(w'.control) == events
  {
    NextInv(w, Wait(events));
    WaitBatch(w, events);
  }

  lemma InvAndBatch(w: World, actions: seq<Action>)
    requires Inv(w) && Batch(w) && Run(w, actions).Some?
    ensures var w' := Run(w, actions).value;
            Batch(w') && Descriptors(w') && History(w')
  {
    RunInv(w, actions);
    RunBatch(w, actions);
  }

  lemma {:induction false} PidsStay(w: World, actions: seq<Action>)
    requires Run(w, actions).Some?
    ensures Run(w, actions).value.prog.p0.pid == w.prog.p0.pid && Run(w, actions).value.prog.p1.pid == w.prog.p1.pid
    decreases |actions|
  {
    if actions != [] {
      if !actions[0].WaitpidReaps? {
        NoReapFields(w, actions[0]);
      }
      PidsStay(Next(w, actions[0]), actions[1..]);
    }
  }

  lemma NotExitedAtWait(w: World, i: Id)
    requires Descriptors(w) && History(w) && w.Ready(DataEvent(i))
    ensures Reap(w.prog.At(i).pid) !in w.log
  {
  }

  lemma ExitedIffLogged(w: World, i: Id)
    requires History(w)
    ensures w.prog.At(i).exited <==> Reap(w.prog.At(i).pid) in w.log
  {
  }

  lemma DispatchToClosed(w: World, i: Id)
    requires Batch(w) && Descriptors(w) && Enabled(w, Dispatch) && w.control.events[0] == DataEvent(i)
    ensures var w' := Next(w, Dispatch);
            w'.control.Pumping? && Enabled(w', PumpBadDescriptor) <==>
                w.prog.At(i).exited && !w.prog.At(Other(i)).exited
  {
    PendingTail(w.control.events, w.prog);
  }

  /** The exit event comes after the data events it was reported with. */
  predicate ExitLast(events: seq<Event>) {
    forall k, l :: 0 <= k < l < |events| && events[k].ExitEvent? ==> !events[l].DataEvent?
  }

  ghost predicate OrderedRun(actions: seq<Action>) {
    forall a :: a in actions && a.Wait? ==> ExitLast(a.events)
  }

  /** While data events are pending, nobody they come from has been reaped. */
  ghost predicate FreshEvents(es: seq<Event>, p: Program) {
    && ExitLast(es)
    && (DataEvent(0) in es ==> !p.p0.exited)
    && (DataEvent(1) in es ==> !p.p1.exited)
  }

  ghost predicate Fresh(w: World) {
    match w.control
    case Handling(es) => FreshEvents(es, w.prog)
    case Reaping(rest) => DataEvent(0) !in rest && DataEvent(1) !in rest
    case Collecting(rest) => DataEvent(0) !in rest && DataEvent(1) !in rest
    case Pumping(i, rest) => FreshEvents(rest, w.prog) && !w.prog.At(i).exited
    case _ => w.control != Aborted(BadDescriptor)
  }

  lemma DispatchFresh(w: World)
    requires Batch(w) && Fresh(w) && Enabled(w, Dispatch)
    ensures Fresh(AfterDispatch(w))
  {
    var es := w.control.events;
    DistinctTail(es);
    if es[0].ExitEvent? {
      forall e | e in es[1..] ensures !e.DataEvent? {
        var k :| 0 <= k < |es[1..]| && es[1..][k] == e;
        assert es[k + 1] == e;
      }
    }
  }

  lemma NoDataIsExitLast(es: seq<Event>)
    requires DataEvent(0) !in es && DataEvent(1) !in es
    ensures ExitLast(es)
  {
    forall l | 0 <= l < |es| ensures !es[l].DataEvent? {
      assert es[l] in es;
    }
  }

  lemma NextFresh(w: World, a: Action)
    requires Inv(w) && Batch(w) && Fresh(w) && Enabled(w, a) && (a.Wait? ==> ExitLast(a.events))
    ensures Fresh(Next(w, a))
  {
    match a
    case Dispatch => DispatchFresh(w);
    case Wait(events) => WaitFresh(w, events);
    case WaitpidNone => NoDataIsExitLast(w.control.rest);
    case _ => QuietFresh(w, a);
  }

  lemma WaitFresh(w: World, events: seq<Event>)
    requires Descriptors(w) && Enabled(w, Wait(events)) && ExitLast(events)
    ensures Fresh(Next(w, Wait(events)))
  {
    assert DataEvent(0) in events ==> w.Ready(DataEvent(0));
    assert DataEvent(1) in events ==> w.Ready(DataEvent(1));
  }

  /** The steps that leave the control alone, or end the program for another reason. */
  lemma ControlSame(w: World, a: Action)
    requires Enabled(w, a) && (a.ChildWrites? || a.ChildCloses? || a.ChildExits? || a.ChildStops? || a.ChldHandler?
                               || a.Usr1Raised? || a.Usr1Handler? || a.PumpChunk?)
    ensures Next(w, a).control == w.control || Next(w, a).control == Aborted(PipeFull)
    ensures Next(w, a).prog.p0.exited == w.prog.p0.exited && Next(w, a).prog.p1.exited == w.prog.p1.exited
  {
    NoReapFields(w, a);
  }

  lemma ReapingFresh(w: World, a: Action)
    requires Fresh(w) && Enabled(w, a) && (a.ReadExitByte? || a.WaitpidReaps? || a.WaitpidError?)
    ensures Fresh(Next(w, a))
  {
  }

  lemma EofFresh(w: World, sec: nat, millis: nat)
    requires Fresh(w) && Enabled(w, PumpEof(sec, millis))
    ensures Fresh(Next(w, PumpEof(sec, millis)))
  {
    NoReapFields(w, PumpEof(sec, millis));
  }

  lemma PumpingFresh(w: World, a: Action)
    requires Batch(w) && Fresh(w) && Enabled(w, a) && (a.PumpWouldBlock? || a.PumpBadDescriptor?)
    ensures Fresh(Next(w, a))
  {
  }

  lemma QuietFresh(w: World, a: Action)
    requires Batch(w) && Fresh(w) && Enabled(w, a) && !a.Dispatch? && !a.Wait? && !a.WaitpidNone?
    ensures Fresh(Next(w, a))
  {
    match a
    case ReadExitByte => ReapingFresh(w, a);
    case WaitpidReaps(_) => ReapingFresh(w, a);
    case WaitpidError => ReapingFresh(w, a);
    case PumpEof(sec, millis) => EofFresh(w, sec, millis);
    case PumpWouldBlock => PumpingFresh(w, a);
    case PumpBadDescriptor => PumpingFresh(w, a);
    case _ => ControlSame(w, a);
  }

  lemma {:induction false} RunFresh(w: World, actions: seq<Action>)
    requires Inv(w) && Batch(w) && Fresh(w) && OrderedRun(actions) && Run(w, actions).Some?
    ensures Fresh(Run(w, actions).value)
    decreases |actions|
  {
    if actions != [] {
      NextInv(w, actions[0]);
      NextBatch(w, actions[0]);
      NextFresh(w, actions[0]);
      RunFresh(Next(w, actions[0]), actions[1..]);
    }
  }

  /** If every batch lists the exit event after its data events, no read ever meets a closed descriptor. */
  lemma OrderedBatchesNeverAbort(pid0: int, pid1: int, actions: seq<Action>, w: World)
    requires Reached(pid0, pid1, actions, w) && OrderedRun(actions)
    ensures w.control != Aborted(BadDescriptor)
  {
    InitialInv(pid0, pid1);
    RunFresh(Initial(pid0, pid1), actions);
  }

  lemma {:induction false} RunSnoc(w: World, actions: seq<Action>, a: Action)
    requires Run(w, actions).Some? && Enabled(Run(w, actions).value, a)
    ensures Run(w, actions + [a]) == Some(Next(Run(w, actions).value, a))
    decreases |actions|
  {
    if actions == [] {
      assert [] + [a] == [a] && [a][1..] == [];
      assert Run(w, [a]) == Run(Next(w, a), []);
    } else {
      RunSnoc(Next(w, actions[0]), actions[1..], a);
      assert (actions + [a])[1..] == actions[1..] + [a];
    }
  }

  ghost predicate Leads(w: World, actions: seq<Action>, w': World) {
    Run(w, actions) == Some(w')
  }

  lemma LeadsOn(w: World, actions: seq<Action>, w': World, a: Action, w'': World)
    requires Leads(w, actions, w') && Enabled(w', a) && Next(w', a) == w''
    ensures Leads(w, actions + [a], w'')
  {
    RunSnoc(w, actions, a);
  }

  /** The main process writes a byte and exits, and both events are reported in one batch, the exit first. */
  function Reporting(pid0: int, pid1: int, k: nat): World
    requires k <= 4
  {
    var w := Initial(pid0, pid1);
    var dead := Child(true, Code(0), true, "x", "x", "", false);
    if k == 0 then w
    else if k == 1 then w.(c0 := Child(false, Unknown, true, "x", "x", "", false))
    else if k == 2 then w.(c0 := dead, chldPending := true)
    else if k == 3 then w.(c0 := dead, chldBytes := 1)
    else w.(c0 := dead, chldBytes := 1, control := Handling([ExitEvent, DataEvent(0)]))
  }

  function ReportingStep(k: nat): Action {
    if k == 0 then ChildWrites(0, "x")
    else if k == 1 then ChildExits(0, Code(0))
    else if k == 2 then ChldHandler
    else Wait([ExitEvent, DataEvent(0)])
  }

  lemma ReportingStepTaken(pid0: int, pid1: int, k: nat)
    requires k < 4
    ensures Enabled(Reporting(pid0, pid1, k), ReportingStep(k))
    ensures Next(Reporting(pid0, pid1, k), ReportingStep(k)) == Reporting(pid0, pid1, k + 1)
  {
    assert "" + "x" == "x";
  }

  lemma ToReported(pid0: int, pid1: int, k: nat) returns (actions: seq<Action>)
    requires k <= 4
    ensures Leads(Initial(pid0, pid1), actions, Reporting(pid0, pid1, k))
  {
    if k == 0 {
      actions := [];
    } else {
      actions := ToReported(pid0, pid1, k - 1);
      ReportingStepTaken(pid0, pid1, k - 1);
      LeadsOn(Initial(pid0, pid1), actions, Reporting(pid0, pid1, k - 1), ReportingStep(k - 1),
          Reporting(pid0, pid1, k));
      actions := actions + [ReportingStep(k - 1)];
    }
  }

  /** The exit is handled, and the data event then leads to a read on the closed descriptor. */
  function Handled(pid0: int, pid1: int, k: nat): World
    requires k <= 7
  {
    var first := Reporting(pid0, pid1, 4);
    var last := first.(chldBytes := 0, prog := Reaped(Start(pid0, pid1), pid0, Code(0)), log := [Reap(pid0)]);
    if k == 0 then first
    else if k == 1 then first.(control := Reaping([DataEvent(0)]))
    else if k == 2 then first.(chldBytes := 0, control := Collecting([DataEvent(0)]))
    else if k == 3 then last.(control := Reaping([DataEvent(0)]))
    else if k == 4 then last.(control := Collecting([DataEvent(0)]))
    else if k == 5 then last.(control := Handling([DataEvent(0)]))
    else if k == 6 then last.(control := Pumping(0, []))
    else last.(control := Aborted(BadDescriptor))
  }

  function HandlingStep(k: nat): Action {
    if k == 0 || k == 5 then Dispatch
    else if k == 2 then WaitpidReaps(0)
    else if k == 4 then WaitpidNone
    else if k == 6 then PumpBadDescriptor
    else ReadExitByte
  }

  lemma HandlingStepTaken(pid0: int, pid1: int, k: nat)
    requires pid0 != pid1 && k < 7
    ensures Enabled(Handled(pid0, pid1, k), HandlingStep(k))
    ensures Next(Handled(pid0, pid1, k), HandlingStep(k)) == Handled(pid0, pid1, k + 1)
  {
    assert [ExitEvent, DataEvent(0)][1..] == [DataEvent(0)] && [DataEvent(0)][1..] == [];
    assert [] + [Reap(pid0)] == [Reap(pid0)];
  }

  lemma ToHandled(pid0: int, pid1: int, k: nat) returns (actions: seq<Action>)
    requires pid0 != pid1 && k <= 7
    ensures Leads(Initial(pid0, pid1), actions, Handled(pid0, pid1, k))
  {
    if k == 0 {
      actions := ToReported(pid0, pid1, 4);
    } else {
      actions := ToHandled(pid0, pid1, k - 1);
      HandlingStepTaken(pid0, pid1, k - 1);
      LeadsOn(Initial(pid0, pid1), actions, Handled(pid0, pid1, k - 1), HandlingStep(k - 1), Handled(pid0, pid1, k));
      actions := actions + [HandlingStep(k - 1)];
    }
  }

  /**
   A run of the other kind: the main process writes a byte and exits, both are reported in one batch
   with the exit first, and the program ends on the closed descriptor with the byte unread and the
   second child neither reaped nor dead.
   */
  lemma ExitBeforeDataAborts(pid0: int, pid1: int) returns (actions: seq<Action>, w: World)
    requires pid0 > 0 && pid1 > 0 && pid0 != pid1
    ensures Reached(pid0, pid1, actions, w)
    ensures w.control == Aborted(BadDescriptor)
    ensures w.c0.written == "x" && w.prog.records == [] && !w.c1.terminated && !w.prog.p1.exited
  {
    actions := ToHandled(pid0, pid1, 7);
    w := Handled(pid0, pid1, 7);
  }
}
