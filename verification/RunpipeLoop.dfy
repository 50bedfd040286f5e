/**
 The main loop of runpipe follows every run of the step machine: between two events its record is what
 handling the events so far, with the results that the system calls returned, makes of the start.
 */
module RunpipeLoop {
  import opened Wrappers
  import opened Transcript
  import opened RunpipeProgram
  import opened RunpipeWorld
  import R = RunpipeEvents

  /** The events handled, the record after them, and what the event in progress has returned so far. */
  datatype Progress = Progress(done: seq<R.Occurrence>, since: Program, reaped: seq<R.WaitResult>, got: seq<R.Read>)

  predicate AllChildren(rs: seq<R.WaitResult>) {
    forall r :: r in rs ==> r.Child?
  }

  predicate AllChunks(got: seq<R.Read>) {
    forall r :: r in got ==> r.Chunk?
  }

  ghost predicate Tracks(start: Program, g: Progress, p: Program, control: Control) {
    match control
    case Waiting => R.HandledAll(start, g.done) == (p, R.GoesOn)
    case Handling(_) => R.HandledAll(start, g.done) == (p, R.GoesOn)
    case Reaping(_) => Reaps(start, g, p)
    case Collecting(_) => Reaps(start, g, p)
    case Pumping(i, _) => Pumps(start, g, p, i)
    case Finished => R.HandledAll(start, g.done) == (p, R.AllExited)
    case Aborted(why) => why.BadDescriptor? ==> R.HandledAll(start, g.done) == (p, R.ClosedDescriptor)
  }

  ghost predicate Reaps(start: Program, g: Progress, p: Program) {
    && R.HandledAll(start, g.done) == (g.since, R.GoesOn)
    && AllChildren(g.reaped) && R.ReapedAll(g.since, g.reaped) == (p, false)
  }

  ghost predicate Pumps(start: Program, g: Progress, p: Program, i: Id) {
    && R.HandledAll(start, g.done) == (g.since, R.GoesOn)
    && !g.since.At(Other(i)).exited && p.At(i).outOpen == g.since.At(i).outOpen
    && AllChunks(g.got) && R.Pumped(g.since, i, g.got) == p && (g.got != [] ==> p.At(i).outOpen)
  }

  // ----- one more result

  lemma {:induction false} ReapOneMore(p: Program, rs: seq<R.WaitResult>, r: R.WaitResult)
    requires AllChildren(rs) && !R.ReapedAll(p, rs).1
    ensures var q := R.ReapedAll(p, rs).0;
            R.ReapedAll(p, rs + [r]) ==
            if r.NoneReady? then (q, false)
            else (Reaped(q, r.pid, r.status), Reaped(q, r.pid, r.status).EveryoneExited())
    decreases |rs|
  {
    if rs == [] {
      assert rs + [r] == [r] && [r][1..] == [];
    } else {
      assert (rs + [r])[1..] == rs[1..] + [r];
      ReapOneMore(Reaped(p, rs[0].pid, rs[0].status), rs[1..], r);
    }
  }

  lemma {:induction false} PumpOneMore(p: Program, i: Id, got: seq<R.Read>, r: R.Read)
    requires AllChunks(got)
    ensures var q := R.Pumped(p, i, got);
            R.Pumped(p, i, got + [r]) ==
            if r.Chunk? then Copied(q, i, r.bytes, r.sec, r.millis)
            else if r.EndOfFile? then Ended(q, i, r.sec, r.millis)
            else q
    decreases |got|
  {
    if got == [] {
      assert got + [r] == [r] && [r][1..] == [];
    } else {
      assert (got + [r])[1..] == got[1..] + [r];
      PumpOneMore(Copied(p, i, got[0].bytes, got[0].sec, got[0].millis), i, got[1..], r);
    }
  }

  /** The event in progress is over. */
  lemma HandleOneMore(start: Program, done: seq<R.Occurrence>, since: Program, o: R.Occurrence)
    requires R.HandledAll(start, done) == (since, R.GoesOn)
    ensures R.HandledAll(start, done + [o]) == R.HandledOne(since, o)
  {
    R.HandledAppend(start, done, [o]);
    assert [o][1..] == [];
  }

  // ----- one step

  lemma DispatchTracks(start: Program, g: Progress, w: World) returns (g': Progress)
    requires Tracks(start, g, w.prog, w.control) && Enabled(w, Dispatch)
    ensures Tracks(start, g', Next(w, Dispatch).prog, Next(w, Dispatch).control)
  {
    match w.control.events[0]
    case ExitEvent =>
      g' := Progress(g.done, w.prog, [], []);
    case NoticeEvent =>
      var o := R.NoticeOccurred(w.usr1Bytes > 0);
      HandleOneMore(start, g.done, w.prog, o);
      g' := g.(done := g.done + [o]);
    case DataEvent(i) =>
      if w.prog.At(Other(i)).exited {
        var o := R.DataOccurred(i, []);
        HandleOneMore(start, g.done, w.prog, o);
        g' := g.(done := g.done + [o]);
      } else {
        g' := Progress(g.done, w.prog, [], []);
      }
  }

  lemma ReapTracks(start: Program, g: Progress, w: World, i: Id) returns (g': Progress)
    requires Tracks(start, g, w.prog, w.control) && Enabled(w, WaitpidReaps(i))
    ensures Tracks(start, g', Next(w, WaitpidReaps(i)).prog, Next(w, WaitpidReaps(i)).control)
  {
    var r := R.Child(w.prog.At(i).pid, w.At(i).status);
    ReapOneMore(g.since, g.reaped, r);
    g' := g.(reaped := g.reaped + [r]);
    if Next(w, WaitpidReaps(i)).control.Finished? {
      HandleOneMore(start, g.done, g.since, R.ExitOccurred(g'.reaped));
      g' := g'.(done := g.done + [R.ExitOccurred(g'.reaped)]);
    }
  }

  lemma NoneTracks(start: Program, g: Progress, w: World) returns (g': Progress)
    requires Tracks(start, g, w.prog, w.control) && Enabled(w, WaitpidNone)
    ensures Tracks(start, g', Next(w, WaitpidNone).prog, Next(w, WaitpidNone).control)
  {
    var o := R.ExitOccurred(g.reaped + [R.NoneReady]);
    ReapOneMore(g.since, g.reaped, R.NoneReady);
    HandleOneMore(start, g.done, g.since, o);
    g' := g.(done := g.done + [o]);
  }

  lemma ChunkTracks(start: Program, g: Progress, w: World, n: nat, accepted: nat, sec: nat, millis: nat)
    returns (g': Progress)
    requires Tracks(start, g, w.prog, w.control) && Enabled(w, PumpChunk(n, accepted, sec, millis))
    ensures var w' := Next(w, PumpChunk(n, accepted, sec, millis));
            Tracks(start, g', w'.prog, w'.control)
  {
    var i := w.control.from;
    var r := R.Chunk(w.At(i).pipe[..n], sec, millis);
    PumpOneMore(g.since, i, g.got, r);
    g' := g.(got := g.got + [r]);
  }

  lemma PumpEndTracks(start: Program, g: Progress, p: Program, i: Id, r: R.Read, p': Program)
    requires Pumps(start, g, p, i) && p.At(i).outOpen
    requires !r.Chunk? && p' == if r.EndOfFile? then Ended(p, i, r.sec, r.millis) else p
    ensures R.HandledAll(start, g.done + [R.DataOccurred(i, g.got + [r])]) == (p', R.GoesOn)
  {
    PumpOneMore(g.since, i, g.got, r);
    HandleOneMore(start, g.done, g.since, R.DataOccurred(i, g.got + [r]));
  }

  lemma EofTracks(start: Program, g: Progress, w: World, sec: nat, millis: nat) returns (g': Progress)
    requires Tracks(start, g, w.prog, w.control) && Enabled(w, PumpEof(sec, millis))
    ensures Tracks(start, g', Next(w, PumpEof(sec, millis)).prog, Next(w, PumpEof(sec, millis)).control)
  {
    var i := w.control.from;
    PumpEndTracks(start, g, w.prog, i, R.EndOfFile(sec, millis), Ended(w.prog, i, sec, millis));
    g' := g.(done := g.done + [R.DataOccurred(i, g.got + [R.EndOfFile(sec, millis)])]);
  }

  lemma WouldBlockTracks(start: Program, g: Progress, w: World) returns (g': Progress)
    requires Tracks(start, g, w.prog, w.control) && Enabled(w, PumpWouldBlock)
    ensures Tracks(start, g', Next(w, PumpWouldBlock).prog, Next(w, PumpWouldBlock).control)
  {
    var i := w.control.from;
    PumpEndTracks(start, g, w.prog, i, R.WouldBlock, w.prog);
    g' := g.(done := g.done + [R.DataOccurred(i, g.got + [R.WouldBlock])]);
  }

  lemma BadDescriptorTracks(start: Program, g: Progress, w: World) returns (g': Progress)
    requires Tracks(start, g, w.prog, w.control) && Enabled(w, PumpBadDescriptor)
    ensures Tracks(start, g', Next(w, PumpBadDescriptor).prog, Next(w, PumpBadDescriptor).control)
  {
    var o := R.DataOccurred(w.control.from, []);
    HandleOneMore(start, g.done, g.since, o);
    g' := g.(done := g.done + [o]);
  }

  /** Children, signals and waiting are no part of the handling. */
  lemma QuietTracks(start: Program, g: Progress, w: World, a: Action)
    requires Tracks(start, g, w.prog, w.control) && Enabled(w, a)
    requires !a.WaitpidReaps? && !a.Dispatch? && !a.PumpChunk? && !a.PumpEof? && !a.WaitpidNone?
    requires !a.PumpWouldBlock? && !a.PumpBadDescriptor?
    ensures Tracks(start, g, Next(w, a).prog, Next(w, a).control)
  {
    ProgramSame(w, a);
  }

  lemma NextTracks(start: Program, g: Progress, w: World, a: Action) returns (g': Progress)
    requires Tracks(start, g, w.prog, w.control) && Enabled(w, a)
    ensures Tracks(start, g', Next(w, a).prog, Next(w, a).control)
  {
    match a
    case Dispatch => g' := DispatchTracks(start, g, w);
    case WaitpidReaps(i) => g' := ReapTracks(start, g, w, i);
    case WaitpidNone => g' := NoneTracks(start, g, w);
    case PumpChunk(n, accepted, sec, millis) => g' := ChunkTracks(start, g, w, n, accepted, sec, millis);
    case PumpEof(sec, millis) => g' := EofTracks(start, g, w, sec, millis);
    case PumpWouldBlock => g' := WouldBlockTracks(start, g, w);
    case PumpBadDescriptor => g' := BadDescriptorTracks(start, g, w);
    case _ =>
      QuietTracks(start, g, w, a);
      g' := g;
  }

  lemma {:induction false} RunTracks(start: Program, g: Progress, w: World, actions: seq<Action>) returns (g': Progress)
    requires Tracks(start, g, w.prog, w.control) && Run(w, actions).Some?
    ensures Tracks(start, g', Run(w, actions).value.prog, Run(w, actions).value.control)
    decreases |actions|
  {
    if actions == [] {
      g' := g;
    } else {
      var g1 := NextTracks(start, g, w, actions[0]);
      g' := RunTracks(start, g1, Next(w, actions[0]), actions[1..]);
    }
  }

  /** How the loop ends, if it has ended or is between two events. */
  function EndOf(control: Control): R.LoopEnd {
    match control
    case Finished => R.AllExited
    case Aborted(_) => R.ClosedDescriptor
    case _ => R.GoesOn
  }

  /**
   Whatever run of the machine has led to the end or to a point between two events: the loop comes to the
   same record and the same end for the events handled on the way.
   */
  lemma LoopFollowsEveryRun(pid0: int, pid1: int, actions: seq<Action>, w: World) returns (os: seq<R.Occurrence>)
    requires Run(Initial(pid0, pid1), actions) == Some(w)
    requires w.control.Waiting? || w.control.Handling? || w.control.Finished? || w.control == Aborted(BadDescriptor)
    ensures R.HandledAll(Start(pid0, pid1), os) == (w.prog, EndOf(w.control))
  {
    var start := Start(pid0, pid1);
    var g := RunTracks(start, Progress([], start, [], []), Initial(pid0, pid1), actions);
    os := g.done;
  }
}
