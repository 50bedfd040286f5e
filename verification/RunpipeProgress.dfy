/**
 What becomes of the signals and the events that runpipe is told of: the bytes in the self-pipes account for
 the handlers that ran, a notice of the time limit is not lost, and the main loop is never stuck.
 */
module RunpipeProgress {
  import opened Wrappers
  import opened RunpipeProgram
  import opened RunpipeWorld

  // ----- the bytes in the self-pipes

  function Times(actions: seq<Action>, a: Action): nat {
    if actions == [] then 0 else (if actions[0] == a then 1 else 0) + Times(actions[1..], a)
  }

  function Noted(log: seq<Notice>): nat {
    if log == [] then 0 else Noted(log[..|log| - 1]) + if log[|log| - 1] == TimeLimit then 1 else 0
  }

  lemma NotedMore(log: seq<Notice>, n: Notice)
    ensures Noted(log + [n]) == Noted(log) + if n == TimeLimit then 1 else 0
  {
    assert (log + [n])[..|log|] == log;
  }

  /** How many bytes of the pipe of exits the run reads. */
  function ExitBytesRead(w: World, actions: seq<Action>): nat
    requires Run(w, actions).Some?
    decreases |actions|
  {
    if actions == [] then 0
    else
      (if actions[0].ReadExitByte? && w.chldBytes > 0 then 1 else 0) + ExitBytesRead(Next(w, actions[0]), actions[1..])
  }

  /** The signals and notices that a state accounts for. */
  predicate SameSignals(w: World, w': World) {
    && w'.usr1Bytes == w.usr1Bytes && w'.usr1Pending == w.usr1Pending && w'.log == w.log
    && w'.chldBytes == w.chldBytes
  }

  lemma OtherSignals(w: World, a: Action)
    requires Enabled(w, a)
    requires !a.ChldHandler? && !a.Usr1Raised? && !a.Usr1Handler?
    requires !a.Dispatch? && !a.ReadExitByte? && !a.WaitpidReaps?
    ensures SameSignals(w, Next(w, a))
  {
  }

  /** One step: how many bytes there are and notices were taken, in terms of the handlers run. */
  lemma StepAccounts(w: World, a: Action)
    requires Enabled(w, a) && Next(w, a).control != Aborted(PipeFull)
    ensures var w' := Next(w, a);
            && w'.usr1Bytes + Noted(w'.log) == w.usr1Bytes + Noted(w.log) + (if a == Usr1Handler then 1 else 0)
            && w'.chldBytes + (if a.ReadExitByte? && w.chldBytes > 0 then 1 else 0) ==
                 w.chldBytes + (if a == ChldHandler then 1 else 0)
  {
    if a.Dispatch? {
      NotedMore(w.log, TimeLimit);
    } else if a.WaitpidReaps? {
      NotedMore(w.log, Reap(w.prog.At(a.i).pid));
    } else if !a.ChldHandler? && !a.Usr1Raised? && !a.Usr1Handler? && !a.ReadExitByte? {
      OtherSignals(w, a);
    }
  }

  lemma AbortedStays(w: World, actions: seq<Action>)
    requires w.control.Aborted? && Run(w, actions).Some?
    ensures Run(w, actions) == Some(w)
  {
  }

  /**
   Over any run, unless a full pipe ends the program: each handler of the time-limit signal that ran has its byte
   in the pipe or was noted; each handler of an exit has its byte in the pipe or the byte was read.
   */
  lemma {:induction false} BytesAccountForHandlers(w: World, actions: seq<Action>, w': World)
    requires Run(w, actions) == Some(w') && w'.control != Aborted(PipeFull)
    ensures w'.usr1Bytes + Noted(w'.log) == w.usr1Bytes + Noted(w.log) + Times(actions, Usr1Handler)
    ensures w'.chldBytes + ExitBytesRead(w, actions) == w.chldBytes + Times(actions, ChldHandler)
    decreases |actions|
  {
    if actions != [] {
      var next := Next(w, actions[0]);
      if next.control == Aborted(PipeFull) {
        AbortedStays(next, actions[1..]);
      }
      StepAccounts(w, actions[0]);
      BytesAccountForHandlers(next, actions[1..], w');
    }
  }

  /** No byte is written to a full pipe: a handler that finds one ends the program, and nothing else does so. */
  lemma PipeFullIff(w: World, a: Action)
    requires Enabled(w, a) && w.chldBytes <= PIPE_CAPACITY && w.usr1Bytes <= PIPE_CAPACITY
    ensures Next(w, a).control == Aborted(PipeFull) <==>
              || (a == ChldHandler && w.chldBytes == PIPE_CAPACITY)
              || (a == Usr1Handler && w.usr1Bytes == PIPE_CAPACITY)
    ensures Next(w, a).chldBytes <= PIPE_CAPACITY && Next(w, a).usr1Bytes <= PIPE_CAPACITY
  {
  }

  lemma {:induction false} PipesBounded(w: World, actions: seq<Action>, w': World)
    requires Run(w, actions) == Some(w') && w.chldBytes <= PIPE_CAPACITY && w.usr1Bytes <= PIPE_CAPACITY
    ensures w'.chldBytes <= PIPE_CAPACITY && w'.usr1Bytes <= PIPE_CAPACITY
    decreases |actions|
  {
    if actions != [] {
      PipeFullIff(w, actions[0]);
      PipesBounded(Next(w, actions[0]), actions[1..], w');
    }
  }

  // ----- notices of the time limit

  function Raisings(w: World): nat {
    Noted(w.log) + w.usr1Bytes + if w.usr1Pending then 1 else 0
  }

  lemma StepRaisings(w: World, a: Action)
    requires Enabled(w, a)
    ensures Raisings(Next(w, a)) <= Raisings(w) + if a == Usr1Raised then 1 else 0
    ensures w.usr1Pending || a == Usr1Raised ==>
              var w' := Next(w, a); w'.usr1Pending || w'.usr1Bytes > w.usr1Bytes || w'.control == Aborted(PipeFull)
  {
    if a.Dispatch? {
      NotedMore(w.log, TimeLimit);
    } else if a.WaitpidReaps? {
      NotedMore(w.log, Reap(w.prog.At(a.i).pid));
    } else if !a.ChldHandler? && !a.Usr1Raised? && !a.Usr1Handler? && !a.ReadExitByte? {
      OtherSignals(w, a);
    }
  }

  /** No notice is made up: there are at most as many, taken or under way, as signals were raised. */
  lemma {:induction false} NoNoticeMadeUp(w: World, actions: seq<Action>, w': World)
    requires Run(w, actions) == Some(w')
    ensures Raisings(w') <= Raisings(w) + Times(actions, Usr1Raised)
    decreases |actions|
  {
    if actions != [] {
      StepRaisings(w, actions[0]);
      NoNoticeMadeUp(Next(w, actions[0]), actions[1..], w');
    }
  }

  /** A notice is pending, waits in the pipe or has been taken, unless a full pipe has ended the program. */
  ghost predicate NoticeKept(w: World) {
    w.usr1Pending || w.usr1Bytes > 0 || TimeLimit in w.log || w.control == Aborted(PipeFull)
  }

  lemma StepKeepsNotice(w: World, a: Action)
    requires Enabled(w, a) && (NoticeKept(w) || a == Usr1Raised)
    ensures NoticeKept(Next(w, a))
  {
  }

  lemma {:induction false} NoticeStays(w: World, actions: seq<Action>, w': World)
    requires Run(w, actions) == Some(w') && NoticeKept(w)
    ensures NoticeKept(w')
    decreases |actions|
  {
    if actions != [] {
      StepKeepsNotice(w, actions[0]);
      NoticeStays(Next(w, actions[0]), actions[1..], w');
    }
  }

  /** Once the signal is raised, the notice is not lost, whatever happens: a loop that waits will be woken. */
  lemma NoNoticeIsLost(w: World, actions: seq<Action>, w': World)
    requires Run(w, [Usr1Raised] + actions) == Some(w')
    ensures NoticeKept(w')
    ensures w'.control.Waiting? && TimeLimit !in w'.log ==> w'.usr1Pending || Enabled(w', Wait([NoticeEvent]))
  {
    assert ([Usr1Raised] + actions)[1..] == actions;
    StepKeepsNotice(w, Usr1Raised);
    NoticeStays(Next(w, Usr1Raised), actions, w');
  }

  // ----- the loop is never stuck

  /** What the loop has at hand while it handles events. */
  ghost predicate Busy(w: World) {
    w.control.Handling? ==> w.control.events != []
  }

  lemma {:induction false} BusyStays(w: World, actions: seq<Action>, w': World)
    requires Run(w, actions) == Some(w') && Busy(w)
    ensures Busy(w')
    decreases |actions|
  {
    if actions != [] {
      StepBusy(w, actions[0]);
      BusyStays(Next(w, actions[0]), actions[1..], w');
    }
  }

  lemma StepBusy(w: World, a: Action)
    requires Enabled(w, a) && Busy(w)
    ensures Busy(Next(w, a))
  {
  }

  /** The actions of the main loop. */
  predicate Loops(a: Action) {
    || a.Wait? || a.Dispatch? || a.ReadExitByte? || a.WaitpidReaps? || a.WaitpidNone? || a.WaitpidError?
    || a.PumpChunk? || a.PumpEof? || a.PumpWouldBlock? || a.PumpBadDescriptor?
  }

  /** In every state of a run the loop can go on, unless it waits and no descriptor is ready. */
  lemma LoopNeverStuck(pid0: int, pid1: int, actions: seq<Action>, w: World) returns (a: Action)
    requires Run(Initial(pid0, pid1), actions) == Some(w) && w.Running()
    ensures Loops(a)
    ensures Enabled(w, a) || (w.control.Waiting? && forall e :: !w.Ready(e))
  {
    BusyStays(Initial(pid0, pid1), actions, w);
    match w.control
    case Waiting =>
      a := Dispatch;
      if e :| w.Ready(e) {
        a := Wait([e]);
      }
    case Handling(_) => a := Dispatch;
    case Reaping(_) => a := ReadExitByte;
    case Collecting(_) =>
      a := if w.Zombie(0) then WaitpidReaps(0) else if w.Zombie(1) then WaitpidReaps(1)
           else if w.prog.EveryoneExited() then WaitpidError else WaitpidNone;
    case Pumping(i, _) =>
      a := if !w.prog.At(i).outOpen then PumpBadDescriptor
           else if w.At(i).pipe != "" then PumpChunk(1, 0, 0, 0)
           else if w.At(i).stdoutOpen then PumpWouldBlock
           else PumpEof(0, 0);
    case _ => a := Dispatch;
  }
}
