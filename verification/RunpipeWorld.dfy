/**
 runpipe and its two children as a step machine: children write, close and exit, signals are
 raised, merged and delivered, and the main loop handles one event at a time.
 */
module RunpipeWorld {
  import opened Wrappers
  import opened Transcript
  import opened RunpipeProgram

  /** At most this much is read at once: the buffer keeps room for a newline. */
  const MAX_CHUNK: nat := 1024 * 1024 - 1

  const MAX_EVENTS: nat := 3

  /** Capacity of a self-pipe; a signal handler that finds it full ends the program. */
  const PIPE_CAPACITY: nat := 65536

  /**
   The operating system's view of a child. stdoutOpen: some process still holds the write end of its
   output. pipe: bytes written but not read by the proxy. received: bytes the proxy put into its
   input. inBroken: a write to its input has failed.
   */
  datatype Child = Child(
    terminated: bool, status: ExitInfo, stdoutOpen: bool,
    written: string, pipe: string, received: string, inBroken: bool)

  datatype Event = ExitEvent | NoticeEvent | DataEvent(from: Id)

  datatype Abort = PipeFull | BadDescriptor | NoChildren

  datatype Control =
    | Waiting
    | Handling(events: seq<Event>)
    | Reaping(rest: seq<Event>)     // about to read the self-pipe in handle_child_exit
    | Collecting(rest: seq<Event>)  // about to call waitpid
    | Pumping(from: Id, rest: seq<Event>)
    | Finished
    | Aborted(why: Abort)

  /** What the loop took note of, oldest first. */
  datatype Notice = TimeLimit | Reap(pid: int)

  datatype World = World(
    c0: Child, c1: Child, prog: Program,
    chldPending: bool, chldBytes: nat, usr1Pending: bool, usr1Bytes: nat,
    control: Control, log: seq<Notice>) {

    function At(i: Id): Child {
      if i == 0 then c0 else c1
    }

    function With(i: Id, c: Child): World {
      if i == 0 then this.(c0 := c) else this.(c1 := c)
    }

    predicate Running() {
      !control.Finished? && !control.Aborted?
    }

    predicate Zombie(i: Id) {
      At(i).terminated && !prog.At(i).exited
    }

    /** Level-triggered readiness of a descriptor registered with epoll. */
    predicate Ready(e: Event) {
      match e
      case ExitEvent => chldBytes > 0
      case NoticeEvent => usr1Bytes > 0
      case DataEvent(i) => prog.At(i).outOpen && (At(i).pipe != "" || !At(i).stdoutOpen)
    }
  }

  datatype Action =
    | ChildWrites(i: Id, data: string)
    | ChildCloses(i: Id)
    | ChildExits(i: Id, status: ExitInfo)
    | ChildStops(i: Id)              // SIGCHLD without an exit
    | ChldHandler
    | Usr1Raised
    | Usr1Handler
    | Wait(events: seq<Event>)
    | Dispatch
    | ReadExitByte
    | WaitpidReaps(i: Id)
    | WaitpidNone
    | WaitpidError
    | PumpChunk(n: nat, accepted: nat, sec: nat, millis: nat)
    | PumpEof(sec: nat, millis: nat)
    | PumpWouldBlock
    | PumpBadDescriptor

  predicate Distinct(events: seq<Event>) {
    forall k, l :: 0 <= k < l < |events| ==> events[k] != events[l]
  }

  function Resume(rest: seq<Event>): Control {
    if rest == [] then Waiting else Handling(rest)
  }

  function Initial(pid0: int, pid1: int): World {
    var c := Child(false, Unknown, true, "", "", "", false);
    World(c, c, Start(pid0, pid1), false, 0, false, 0, Waiting, [])
  }

  // ----- which actions are possible

  predicate Enabled(w: World, a: Action) {
    w.Running() &&
    match a
    case ChildWrites(i, data) => w.At(i).stdoutOpen && w.prog.At(i).outOpen
    case ChildCloses(i) => true
    case ChildExits(i, _) => !w.At(i).terminated
    case ChildStops(i) => !w.At(i).terminated
    case ChldHandler => w.chldPending
    case Usr1Raised => true
    case Usr1Handler => w.usr1Pending
    case Wait(events) =>
      && w.control.Waiting? && 0 < |events| <= MAX_EVENTS && Distinct(events)
      && forall e :: e in events ==> w.Ready(e)
    case Dispatch => w.control.Handling? && w.control.events != []
    case ReadExitByte => w.control.Reaping?
    case WaitpidReaps(i) => w.control.Collecting? && w.Zombie(i)
    case WaitpidNone => w.control.Collecting? && !w.Zombie(0) && !w.Zombie(1) && !w.prog.EveryoneExited()
    case WaitpidError => w.control.Collecting? && w.prog.EveryoneExited()
    case PumpChunk(n, accepted, _, millis) =>
      && w.control.Pumping? && w.prog.At(w.control.from).outOpen
      && 0 < n <= MAX_CHUNK && n <= |w.At(w.control.from).pipe| && accepted <= n && millis < 1000
      && (!w.prog.At(Other(w.control.from)).inOpen || w.At(Other(w.control.from)).inBroken ==> accepted == 0)
    case PumpEof(_, millis) =>
      && w.control.Pumping? && w.prog.At(w.control.from).outOpen
      && w.At(w.control.from).pipe == "" && !w.At(w.control.from).stdoutOpen && millis < 1000
    case PumpWouldBlock =>
      && w.control.Pumping? && w.prog.At(w.control.from).outOpen
      && w.At(w.control.from).pipe == "" && w.At(w.control.from).stdoutOpen
    case PumpBadDescriptor => w.control.Pumping? && !w.prog.At(w.control.from).outOpen
  }

  // ----- what they do

  function AfterDispatch(w: World): World
    requires w.control.Handling? && w.control.events != []
  {
    var e, rest := w.control.events[0], w.control.events[1..];
    match e
    case ExitEvent => w.(control := Reaping(rest))
    case NoticeEvent =>
      if w.usr1Bytes == 0 then w.(control := Resume(rest))
      else w.(usr1Bytes := w.usr1Bytes - 1, prog := Noticed(w.prog), log := w.log + [TimeLimit],
          control := Resume(rest))
    case DataEvent(i) =>
      // Do not write to an exited process.
      w.(control := if w.prog.At(Other(i)).exited then Resume(rest) else Pumping(i, rest))
  }

  function AfterReap(w: World, i: Id): World
    requires w.control.Collecting?
  {
    var pid := w.prog.At(i).pid;
    var prog := Reaped(w.prog, pid, w.At(i).status);
    w.(prog := prog, log := w.log + [Reap(pid)],
       control := if prog.EveryoneExited() then Finished else Reaping(w.control.rest))
  }

  /** The sender's side after n bytes were read. */
  function Drawn(from: Child, n: nat): Child
    requires n <= |from.pipe|
  {
    from.(pipe := from.pipe[n..])
  }

  /** The receiver's side after a write of which some bytes were accepted; a short write is a failed one. */
  function Fed(to: Child, chunk: string, accepted: nat): Child
    requires accepted <= |chunk|
  {
    to.(received := to.received + chunk[..accepted], inBroken := to.inBroken || accepted < |chunk|)
  }

  function AfterChunk(w: World, n: nat, accepted: nat, sec: nat, millis: nat): World
    requires w.control.Pumping? && n <= |w.At(w.control.from).pipe| && accepted <= n
  {
    var i := w.control.from;
    var chunk := w.At(i).pipe[..n];
    w.With(i, Drawn(w.At(i), n)).With(Other(i), Fed(w.At(Other(i)), chunk, accepted))
     .(prog := Copied(w.prog, i, chunk, sec, millis))
  }

  function Next(w: World, a: Action): World
    requires Enabled(w, a)
  {
    match a
    case ChildWrites(i, data) => w.With(i, w.At(i).(written := w.At(i).written + data, pipe := w.At(i).pipe + data))
    case ChildCloses(i) => w.With(i, w.At(i).(stdoutOpen := false))
    case ChildExits(i, status) => w.With(i, w.At(i).(terminated := true, status := status)).(chldPending := true)
    case ChildStops(i) => w.(chldPending := true)
    case ChldHandler =>
      if w.chldBytes < PIPE_CAPACITY then w.(chldPending := false, chldBytes := w.chldBytes + 1)
      else w.(chldPending := false, control := Aborted(PipeFull))
    case Usr1Raised => w.(usr1Pending := true)
    case Usr1Handler =>
      if w.usr1Bytes < PIPE_CAPACITY then w.(usr1Pending := false, usr1Bytes := w.usr1Bytes + 1)
      else w.(usr1Pending := false, control := Aborted(PipeFull))
    case Wait(events) => w.(control := Handling(events))
    case Dispatch => AfterDispatch(w)
    case ReadExitByte => w.(chldBytes := if w.chldBytes > 0 then w.chldBytes - 1 else 0,
        control := Collecting(w.control.rest))
    case WaitpidReaps(i) => AfterReap(w, i)
    case WaitpidNone => w.(control := Resume(w.control.rest))
    case WaitpidError => w.(control := Aborted(NoChildren))
    case PumpChunk(n, accepted, sec, millis) => AfterChunk(w, n, accepted, sec, millis)
    case PumpEof(sec, millis) => w.(prog := Ended(w.prog, w.control.from, sec, millis),
        control := Resume(w.control.rest))
    case PumpWouldBlock => w.(control := Resume(w.control.rest))
    case PumpBadDescriptor => w.(control := Aborted(BadDescriptor))
  }

  // ----- runs

  /** The state after a run, if every action of it is possible in turn. */
  function Run(w: World, actions: seq<Action>): Option<World>
    decreases |actions|
  {
    if actions == [] then Some(w)
    else if Enabled(w, actions[0]) then Run(Next(w, actions[0]), actions[1..])
    else None
  }

  // ----- invariants

  /** What is known about the two children and the program's picture of them. */
  ghost predicate Exits(w: World) {
    && w.prog.p0.pid > 0 && w.prog.p1.pid > 0 && w.prog.p0.pid != w.prog.p1.pid
    && (w.prog.p0.exited ==> w.c0.terminated && w.prog.p0.exitInfo == w.c0.status)
    && (w.prog.p1.exited ==> w.c1.terminated && w.prog.p1.exitInfo == w.c1.status)
    && (w.prog.EveryoneExited() <==> w.control.Finished?)
    && w.control != Aborted(NoChildren)
  }

  /** An exit that has not been reaped is still announced somewhere. */
  ghost predicate NoLostExit(w: World) {
    (w.Running() && (w.Zombie(0) || w.Zombie(1))) ==>
      w.chldPending || w.chldBytes > 0 || w.control.Reaping? || w.control.Collecting?
  }

  /** One direction: what was written, recorded (rec) and delivered, and whether its end was recorded. */
  ghost predicate Stream(rec: string, ended: bool, from: Child, outOpen: bool, to: Child) {
    && from.written == rec + from.pipe
    && to.received <= rec
    && (if to.inBroken then |to.received| < |rec| else to.received == rec)
    && (ended ==> rec == from.written && !outOpen && !from.stdoutOpen)
  }

  /** The transcript as a whole. */
  ghost predicate Totals(p: Program) {
    && p.total == |Recorded(p.records, 0)| + |Recorded(p.records, 1)|
    && (forall r :: r in p.records ==> Writable(r))
    && EofIsLast(p.records, 0) && EofIsLast(p.records, 1)
  }

  ghost predicate Traffic(w: World) {
    && Stream(Recorded(w.prog.records, 0), HasEof(w.prog.records, 0), w.c0, w.prog.p0.outOpen, w.c1)
    && Stream(Recorded(w.prog.records, 1), HasEof(w.prog.records, 1), w.c1, w.prog.p1.outOpen, w.c0)
    && Totals(w.prog)
  }

  /** A direction that is still read from can still be written to, until someone exits. */
  ghost predicate Descriptors(w: World) {
    && (w.prog.p0.exited ==> !w.prog.p0.outOpen)
    && (w.prog.p1.exited ==> !w.prog.p1.outOpen)
    && (!w.prog.AnyoneExited() ==> (w.prog.p0.outOpen ==> w.prog.p1.inOpen) && (w.prog.p1.outOpen ==> w.prog.p0.inOpen))
    && (w.control.Pumping? ==> !w.prog.At(Other(w.control.from)).exited)
  }

  ghost predicate Reapings(log: seq<Notice>, pid: int, reaped: bool) {
    && (reaped <==> Reap(pid) in log)
    && forall k, l :: 0 <= k < l < |log| && log[k] == Reap(pid) ==> log[l] != Reap(pid)
  }

  ghost predicate History(w: World) {
    && (w.prog.timelimit <==> TimeLimit in w.log)
    && w.prog.firstExit == (if w.log != [] && w.log[0].Reap? then w.log[0].pid else -1)
    && Reapings(w.log, w.prog.p0.pid, w.prog.p0.exited)
    && Reapings(w.log, w.prog.p1.pid, w.prog.p1.exited)
    && forall n :: n in w.log && n.Reap? ==> n.pid == w.prog.p0.pid || n.pid == w.prog.p1.pid
  }

  ghost predicate Inv(w: World) {
    Exits(w) && NoLostExit(w) && Traffic(w) && Descriptors(w) && History(w)
  }

  lemma InitialInv(pid0: int, pid1: int)
    requires pid0 > 0 && pid1 > 0 && pid0 != pid1
    ensures Inv(Initial(pid0, pid1))
  {
  }

  lemma ReapExits(w: World, i: Id)
    requires Exits(w) && Enabled(w, WaitpidReaps(i))
    ensures Exits(AfterReap(w, i))
  {
  }

  /** A step that reaps nobody: nothing is logged, or a notice is. */
  ghost predicate NobodyReaped(p: Program, log: seq<Notice>, p': Program, log': seq<Notice>) {
    && p'.p0.pid == p.p0.pid && p'.p1.pid == p.p1.pid
    && p'.p0.exited == p.p0.exited && p'.p0.exitInfo == p.p0.exitInfo
    && p'.p1.exited == p.p1.exited && p'.p1.exitInfo == p.p1.exitInfo
    && p'.firstExit == p.firstExit
    && ((log' == log && p'.timelimit == p.timelimit) || (log' == log + [TimeLimit] && p'.timelimit))
  }

  lemma DispatchFields(w: World)
    requires Enabled(w, Dispatch)
    ensures NobodyReaped(w.prog, w.log, AfterDispatch(w).prog, AfterDispatch(w).log) &&
            !AfterDispatch(w).control.Finished?
  {
  }

  lemma PumpFields(p: Program, log: seq<Notice>, i: Id, chunk: string, sec: nat, millis: nat)
    ensures NobodyReaped(p, log, Copied(p, i, chunk, sec, millis), log)
    ensures NobodyReaped(p, log, Ended(p, i, sec, millis), log)
  {
  }

  /** The steps that leave the program's record alone. */
  lemma ProgramSame(w: World, a: Action)
    requires Enabled(w, a) && !a.WaitpidReaps? && !a.Dispatch? && !a.PumpChunk? && !a.PumpEof?
    ensures Next(w, a).prog == w.prog && Next(w, a).log == w.log && !Next(w, a).control.Finished?
  {
  }

  lemma NoReapFields(w: World, a: Action)
    requires Enabled(w, a) && !a.WaitpidReaps?
    ensures NobodyReaped(w.prog, w.log, Next(w, a).prog, Next(w, a).log) && !Next(w, a).control.Finished?
  {
    match a
    case Dispatch => DispatchFields(w);
    case PumpChunk(n, _, sec, millis) => PumpFields(w.prog, w.log, w.control.from, w.At(w.control.from).pipe[..n], sec,
        millis);
    case PumpEof(sec, millis) => PumpFields(w.prog, w.log, w.control.from, "", sec, millis);
    case _ => ProgramSame(w, a);
  }

  /** The steps that neither child nor data takes part in. */
  lemma ChildrenSame(w: World, a: Action)
    requires Enabled(w, a) && !a.ChildWrites? && !a.ChildCloses? && !a.ChildExits? && !a.PumpChunk?
    ensures Next(w, a).c0 == w.c0 && Next(w, a).c1 == w.c1
  {
  }

  ghost predicate StaysDead(c: Child, c': Child) {
    c.terminated ==> c'.terminated && c'.status == c.status
  }

  lemma ChunkStaysDead(w: World, n: nat, accepted: nat, sec: nat, millis: nat)
    requires Enabled(w, PumpChunk(n, accepted, sec, millis))
    ensures StaysDead(w.c0, AfterChunk(w, n, accepted, sec, millis).c0)
    ensures StaysDead(w.c1, AfterChunk(w, n, accepted, sec, millis).c1)
  {
  }

  lemma ChildStaysDead(w: World, i: Id, c: Child)
    requires StaysDead(w.At(i), c)
    ensures StaysDead(w.c0, w.With(i, c).c0) && StaysDead(w.c1, w.With(i, c).c1)
  {
  }

  /** The dead stay dead. */
  lemma ChildFields(w: World, a: Action)
    requires Enabled(w, a)
    ensures StaysDead(w.c0, Next(w, a).c0) && StaysDead(w.c1, Next(w, a).c1)
  {
    match a
    case ChildWrites(i, data) => ChildStaysDead(w, i,
        w.At(i).(written := w.At(i).written + data, pipe := w.At(i).pipe + data));
    case ChildCloses(i) => ChildStaysDead(w, i, w.At(i).(stdoutOpen := false));
    case ChildExits(i, status) => ChildStaysDead(w, i, w.At(i).(terminated := true, status := status));
    case PumpChunk(n, accepted, sec, millis) => ChunkStaysDead(w, n, accepted, sec, millis);
    case _ => ChildrenSame(w, a);
  }

  lemma NoChildrenLeft(w: World, a: Action)
    requires Enabled(w, a) && Next(w, a).control == Aborted(NoChildren)
    ensures w.prog.EveryoneExited()
  {
  }

  lemma NextExits(w: World, a: Action)
    requires Exits(w) && Enabled(w, a)
    ensures Exits(Next(w, a))
  {
    if a.WaitpidReaps? {
      ReapExits(w, a.i);
    } else {
      NoReapFields(w, a);
      ChildFields(w, a);
      if Next(w, a).control == Aborted(NoChildren) {
        NoChildrenLeft(w, a);
      }
    }
  }

  lemma ReapNoLostExit(w: World, i: Id)
    requires Enabled(w, WaitpidReaps(i))
    ensures NoLostExit(Next(w, WaitpidReaps(i)))
  {
  }

  lemma DispatchNoLostExit(w: World)
    requires NoLostExit(w) && Enabled(w, Dispatch)
    ensures NoLostExit(Next(w, Dispatch))
  {
  }

  lemma ChunkNoLostExit(w: World, n: nat, accepted: nat, sec: nat, millis: nat)
    requires NoLostExit(w) && Enabled(w, PumpChunk(n, accepted, sec, millis))
    ensures NoLostExit(Next(w, PumpChunk(n, accepted, sec, millis)))
  {
    PumpFields(w.prog, w.log, w.control.from, w.At(w.control.from).pipe[..n], sec, millis);
  }

  lemma ChildNoLostExit(w: World, a: Action)
    requires NoLostExit(w) && Enabled(w, a) && (a.ChildWrites? || a.ChildCloses? || a.ChildExits?)
    ensures NoLostExit(Next(w, a))
  {
  }

  lemma QuietNoLostExit(w: World, a: Action)
    requires NoLostExit(w) && Enabled(w, a) && !a.Dispatch? && !a.WaitpidReaps? && !a.PumpChunk?
    requires !a.ChildWrites? && !a.ChildCloses? && !a.ChildExits?
    ensures NoLostExit(Next(w, a))
  {
    NoReapFields(w, a);
    ChildrenSame(w, a);
  }

  lemma NextNoLostExit(w: World, a: Action)
    requires NoLostExit(w) && Enabled(w, a)
    ensures NoLostExit(Next(w, a))
  {
    match a
    case Dispatch => DispatchNoLostExit(w);
    case WaitpidReaps(i) => ReapNoLostExit(w, i);
    case PumpChunk(n, accepted, sec, millis) => ChunkNoLostExit(w, n, accepted, sec, millis);
    case ChildWrites(_, _) => ChildNoLostExit(w, a);
    case ChildCloses(_) => ChildNoLostExit(w, a);
    case ChildExits(_, _) => ChildNoLostExit(w, a);
    case _ => QuietNoLostExit(w, a);
  }

  /** Descriptors, said of the program's record and the control alone. */
  ghost predicate Consistent(p: Program, control: Control) {
    && (p.p0.exited ==> !p.p0.outOpen)
    && (p.p1.exited ==> !p.p1.outOpen)
    && (!p.AnyoneExited() ==> (p.p0.outOpen ==> p.p1.inOpen) && (p.p1.outOpen ==> p.p0.inOpen))
    && (control.Pumping? ==> !p.At(Other(control.from)).exited)
  }

  lemma ReapConsistent(p: Program, control: Control, pid: int, status: ExitInfo, control': Control)
    requires Consistent(p, control) && !control'.Pumping? && (pid == p.p0.pid || pid == p.p1.pid)
    ensures Consistent(Reaped(p, pid, status), control')
  {
  }

  lemma EofConsistent(p: Program, control: Control, i: Id, sec: nat, millis: nat, control': Control)
    requires Consistent(p, control) && !control'.Pumping?
    ensures Consistent(Ended(p, i, sec, millis), control')
  {
  }

  lemma ChunkConsistent(p: Program, control: Control, i: Id, chunk: string, sec: nat, millis: nat)
    requires Consistent(p, control)
    ensures Consistent(Copied(p, i, chunk, sec, millis), control)
  {
  }

  lemma ConsistentIff(w: World)
    ensures Descriptors(w) <==> Consistent(w.prog, w.control)
  {
  }

  lemma DispatchDescriptors(w: World)
    requires Descriptors(w) && Enabled(w, Dispatch)
    ensures Descriptors(Next(w, Dispatch))
  {
  }

  lemma ReapDescriptors(w: World, i: Id)
    requires Descriptors(w) && Enabled(w, WaitpidReaps(i))
    ensures Descriptors(Next(w, WaitpidReaps(i)))
  {
    ConsistentIff(w);
    ReapConsistent(w.prog, w.control, w.prog.At(i).pid, w.At(i).status, AfterReap(w, i).control);
    ConsistentIff(AfterReap(w, i));
  }

  lemma EofDescriptors(w: World, sec: nat, millis: nat)
    requires Descriptors(w) && Enabled(w, PumpEof(sec, millis))
    ensures Descriptors(Next(w, PumpEof(sec, millis)))
  {
    ConsistentIff(w);
    EofConsistent(w.prog, w.control, w.control.from, sec, millis, Resume(w.control.rest));
    ConsistentIff(Next(w, PumpEof(sec, millis)));
  }

  lemma ChunkDescriptors(w: World, n: nat, accepted: nat, sec: nat, millis: nat)
    requires Descriptors(w) && Enabled(w, PumpChunk(n, accepted, sec, millis))
    ensures Descriptors(Next(w, PumpChunk(n, accepted, sec, millis)))
  {
    ConsistentIff(w);
    ChunkConsistent(w.prog, w.control, w.control.from, w.At(w.control.from).pipe[..n], sec, millis);
    ConsistentIff(AfterChunk(w, n, accepted, sec, millis));
  }

  /** Only a dispatch starts to pump. */
  lemma PumpingGoesOn(w: World, a: Action)
    requires Enabled(w, a) && !a.Dispatch? && !a.WaitpidReaps? && !a.PumpEof?
    ensures Next(w, a).control.Pumping? ==> Next(w, a).control == w.control
  {
  }

  lemma OtherDescriptors(w: World, a: Action)
    requires Descriptors(w) && Enabled(w, a) && !a.WaitpidReaps? && !a.Dispatch? && !a.PumpChunk? && !a.PumpEof?
    ensures Descriptors(Next(w, a))
  {
    ProgramSame(w, a);
    PumpingGoesOn(w, a);
  }

  lemma NextDescriptors(w: World, a: Action)
    requires Descriptors(w) && Enabled(w, a)
    ensures Descriptors(Next(w, a))
  {
    match a
    case Dispatch => DispatchDescriptors(w);
    case WaitpidReaps(i) => ReapDescriptors(w, i);
    case PumpChunk(n, accepted, sec, millis) => ChunkDescriptors(w, n, accepted, sec, millis);
    case PumpEof(sec, millis) => EofDescriptors(w, sec, millis);
    case _ => OtherDescriptors(w, a);
  }

  lemma HistoryAppend(w: World, w': World, n: Notice)
    requires Exits(w) && History(w) && w'.log == w.log + [n]
    requires w'.prog.p0.pid == w.prog.p0.pid && w'.prog.p1.pid == w.prog.p1.pid
    requires n.Reap? ==> n.pid == w.prog.p0.pid || n.pid == w.prog.p1.pid
    requires w'.prog.timelimit == (w.prog.timelimit || n.TimeLimit?)
    requires w'.prog.firstExit ==
               if n.Reap? && w.prog.firstExit == -1 && !w.prog.timelimit then n.pid else w.prog.firstExit
    requires w'.prog.p0.exited == (w.prog.p0.exited || n == Reap(w.prog.p0.pid))
    requires w'.prog.p1.exited == (w.prog.p1.exited || n == Reap(w.prog.p1.pid))
    requires n.Reap? ==> !(if n.pid == w.prog.p0.pid then w.prog.p0.exited else w.prog.p1.exited)
    ensures History(w')
  {
    var log, log' := w.log, w'.log;
    assert forall m :: m in log' <==> m in log || m == n;
    if log == [] {
      assert log'[0] == n;
    } else {
      assert log'[0] == log[0] && log[0] in log;
    }
    ReapingsAppend(log, w.prog.p0.pid, w.prog.p0.exited, n);
    ReapingsAppend(log, w.prog.p1.pid, w.prog.p1.exited, n);
  }

  lemma ReapingsAppend(log: seq<Notice>, pid: int, reaped: bool, n: Notice)
    requires Reapings(log, pid, reaped) && !(reaped && n == Reap(pid))
    ensures Reapings(log + [n], pid, reaped || n == Reap(pid))
  {
    assert forall k :: 0 <= k < |log| ==> (log + [n])[k] == log[k] && log[k] in log;
    assert forall m :: m in log + [n] <==> m in log || m == n;
  }

  lemma NextHistory(w: World, a: Action)
    requires Exits(w) && History(w) && Enabled(w, a)
    ensures History(Next(w, a))
  {
    var w' := Next(w, a);
    if a.WaitpidReaps? {
      HistoryAppend(w, w', Reap(w.prog.At(a.i).pid));
    } else {
      NoReapFields(w, a);
      if w'.log != w.log {
        HistoryAppend(w, w', TimeLimit);
      } else {
        HistorySame(w, w');
      }
    }
  }

  lemma HistorySame(w: World, w': World)
    requires History(w) && w'.log == w.log && w'.prog.timelimit == w.prog.timelimit &&
             w'.prog.firstExit == w.prog.firstExit
    requires w'.prog.p0.pid == w.prog.p0.pid && w'.prog.p1.pid == w.prog.p1.pid
    requires w'.prog.p0.exited == w.prog.p0.exited && w'.prog.p1.exited == w.prog.p1.exited
    ensures History(w')
  {
  }

  // How one direction changes.

  lemma StreamChunk(rec: string, from: Child, to: Child, n: nat, accepted: nat)
    requires Stream(rec, false, from, true, to)
    requires n <= |from.pipe| && accepted <= n && (to.inBroken ==> accepted == 0)
    ensures var chunk := from.pipe[..n];
            Stream(rec + chunk, false, Drawn(from, n), true, Fed(to, chunk, accepted))
  {
    var chunk := from.pipe[..n];
    assert from.pipe == chunk + from.pipe[n..];
    assert rec + (chunk + from.pipe[n..]) == (rec + chunk) + from.pipe[n..];
    if accepted == n {
      assert chunk[..accepted] == chunk;
    }
    if !to.inBroken {
      assert rec + chunk[..accepted] <= rec + chunk;
    } else {
      assert to.received + chunk[..accepted] == to.received;
    }
  }

  lemma StreamWrites(rec: string, from: Child, to: Child, data: string)
    requires Stream(rec, false, from, true, to)
    ensures Stream(rec, false, from.(written := from.written + data, pipe := from.pipe + data), true, to)
  {
    assert rec + from.pipe + data == rec + (from.pipe + data);
  }

  lemma CopiedTotals(p: Program, i: Id, chunk: string, sec: nat, millis: nat)
    requires Totals(p) && !HasEof(p.records, i) && chunk != "" && millis < 1000
    ensures Totals(Copied(p, i, chunk, sec, millis))
  {
    RecordsAppend(p.records, Data(sec, millis, i, chunk), 0);
    RecordsAppend(p.records, Data(sec, millis, i, chunk), 1);
  }

  lemma EndedTotals(p: Program, i: Id, sec: nat, millis: nat)
    requires Totals(p) && !HasEof(p.records, i) && millis < 1000
    ensures Totals(Ended(p, i, sec, millis))
  {
    RecordsAppend(p.records, Eof(sec, millis, i), 0);
    RecordsAppend(p.records, Eof(sec, millis, i), 1);
  }

  /** The two directions of a state, as seen from process i. */
  ghost predicate BothStreams(rs: seq<Record>, i: Id, from: Child, outOpen: bool, to: Child, toOutOpen: bool) {
    && Stream(Recorded(rs, i), HasEof(rs, i), from, outOpen, to)
    && Stream(Recorded(rs, Other(i)), HasEof(rs, Other(i)), to, toOutOpen, from)
  }

  lemma BothStreamsChunk(rs: seq<Record>, i: Id, from: Child, to: Child, toOutOpen: bool, n: nat, accepted: nat,
                         sec: nat, millis: nat)
    requires BothStreams(rs, i, from, true, to, toOutOpen)
    requires n <= |from.pipe| && accepted <= n && (to.inBroken ==> accepted == 0)
    ensures var chunk := from.pipe[..n];
            BothStreams(rs + [Data(sec, millis, i, chunk)], i, Drawn(from, n), true, Fed(to, chunk, accepted),
                toOutOpen)
  {
    var chunk := from.pipe[..n];
    RecordsAppend(rs, Data(sec, millis, i, chunk), i);
    RecordsAppend(rs, Data(sec, millis, i, chunk), Other(i));
    StreamChunk(Recorded(rs, i), from, to, n, accepted);
  }

  lemma BothStreamsEof(rs: seq<Record>, i: Id, from: Child, to: Child, toOutOpen: bool, sec: nat, millis: nat)
    requires BothStreams(rs, i, from, true, to, toOutOpen) && from.pipe == "" && !from.stdoutOpen
    ensures BothStreams(rs + [Eof(sec, millis, i)], i, from, false, to, toOutOpen)
  {
    RecordsAppend(rs, Eof(sec, millis, i), i);
    RecordsAppend(rs, Eof(sec, millis, i), Other(i));
  }

  lemma TrafficSides(w: World, i: Id)
    ensures Traffic(w) <==>
            Totals(w.prog) &&
                BothStreams(w.prog.records, i, w.At(i), w.prog.At(i).outOpen, w.At(Other(i)),
                    w.prog.At(Other(i)).outOpen)
  {
  }

  lemma AfterChunkSides(w: World, n: nat, accepted: nat, sec: nat, millis: nat)
    requires w.control.Pumping? && n <= |w.At(w.control.from).pipe| && accepted <= n
    ensures var i := w.control.from;
            var w' := AfterChunk(w, n, accepted, sec, millis);
            && w'.At(i) == Drawn(w.At(i), n) && w'.At(Other(i)) == Fed(w.At(Other(i)), w.At(i).pipe[..n], accepted)
            && w'.prog.records == w.prog.records + [Data(sec, millis, i, w.At(i).pipe[..n])]
            && w'.prog.At(i).outOpen == w.prog.At(i).outOpen
            && w'.prog.At(Other(i)).outOpen == w.prog.At(Other(i)).outOpen
  {
  }

  lemma PumpChunkStreams(w: World, n: nat, accepted: nat, sec: nat, millis: nat)
    requires Traffic(w) && Enabled(w, PumpChunk(n, accepted, sec, millis))
    ensures var i := w.control.from;
            BothStreams(w.prog.records + [Data(sec, millis, i, w.At(i).pipe[..n])], i, Drawn(w.At(i), n), true,
                        Fed(w.At(Other(i)), w.At(i).pipe[..n], accepted), w.prog.At(Other(i)).outOpen)
  {
    var i := w.control.from;
    TrafficSides(w, i);
    BothStreamsChunk(w.prog.records, i, w.At(i), w.At(Other(i)), w.prog.At(Other(i)).outOpen, n, accepted, sec, millis);
  }

  lemma PumpChunkTotals(w: World, n: nat, accepted: nat, sec: nat, millis: nat)
    requires Traffic(w) && Enabled(w, PumpChunk(n, accepted, sec, millis))
    ensures Totals(AfterChunk(w, n, accepted, sec, millis).prog)
  {
    CopiedTotals(w.prog, w.control.from, w.At(w.control.from).pipe[..n], sec, millis);
  }

  lemma PumpChunkTraffic(w: World, n: nat, accepted: nat, sec: nat, millis: nat)
    requires Traffic(w) && Enabled(w, PumpChunk(n, accepted, sec, millis))
    ensures Traffic(AfterChunk(w, n, accepted, sec, millis))
  {
    PumpChunkTotals(w, n, accepted, sec, millis);
    PumpChunkStreams(w, n, accepted, sec, millis);
    AfterChunkSides(w, n, accepted, sec, millis);
    TrafficSides(AfterChunk(w, n, accepted, sec, millis), w.control.from);
  }

  lemma EofSides(w: World, sec: nat, millis: nat)
    requires Enabled(w, PumpEof(sec, millis))
    ensures var i, w' := w.control.from, Next(w, PumpEof(sec, millis));
            && w'.At(i) == w.At(i) && w'.At(Other(i)) == w.At(Other(i))
            && w'.prog.records == w.prog.records + [Eof(sec, millis, i)]
            && !w'.prog.At(i).outOpen && w'.prog.At(Other(i)).outOpen == w.prog.At(Other(i)).outOpen
  {
  }

  lemma PumpEofTraffic(w: World, sec: nat, millis: nat)
    requires Traffic(w) && Enabled(w, PumpEof(sec, millis))
    ensures Traffic(Next(w, PumpEof(sec, millis)))
  {
    var i := w.control.from;
    TrafficSides(w, i);
    EndedTotals(w.prog, i, sec, millis);
    BothStreamsEof(w.prog.records, i, w.At(i), w.At(Other(i)), w.prog.At(Other(i)).outOpen, sec, millis);
    EofSides(w, sec, millis);
    TrafficSides(Next(w, PumpEof(sec, millis)), i);
  }

  /** What a reap, a notice or a dispatch leaves of the program's record. */
  ghost predicate QuietProgram(p: Program, p': Program) {
    && p'.records == p.records && p'.total == p.total
    && (p'.p0.outOpen ==> p.p0.outOpen) && (p'.p1.outOpen ==> p.p1.outOpen)
  }

  lemma ReapedQuiet(p: Program, pid: int, status: ExitInfo)
    ensures QuietProgram(p, Reaped(p, pid, status))
  {
  }

  lemma DispatchQuiet(w: World)
    requires Enabled(w, Dispatch)
    ensures QuietProgram(w.prog, AfterDispatch(w).prog)
  {
  }

  lemma NextQuietProgram(w: World, a: Action)
    requires Enabled(w, a) && !a.PumpChunk? && !a.PumpEof?
    ensures QuietProgram(w.prog, Next(w, a).prog)
  {
    match a
    case Dispatch => DispatchQuiet(w);
    case WaitpidReaps(i) => ReapedQuiet(w.prog, w.prog.At(i).pid, w.At(i).status);
    case _ => ProgramSame(w, a);
  }

  ghost predicate QuietChild(c: Child, c': Child) {
    && c'.written == c.written && c'.pipe == c.pipe && c'.received == c.received && c'.inBroken == c.inBroken
    && (c'.stdoutOpen ==> c.stdoutOpen)
  }

  lemma NextQuietChildren(w: World, a: Action)
    requires Enabled(w, a) && !a.PumpChunk? && !a.ChildWrites?
    ensures QuietChild(w.c0, Next(w, a).c0) && QuietChild(w.c1, Next(w, a).c1)
  {
    if !a.ChildCloses? && !a.ChildExits? {
      ChildrenSame(w, a);
    }
  }

  /** The actions of children, signals and loop control leave the transcript and the data alone. */
  lemma QuietFields(w: World, a: Action)
    requires Enabled(w, a) && !a.PumpChunk? && !a.PumpEof? && !a.ChildWrites?
    ensures var w' := Next(w, a);
            && w'.prog.records == w.prog.records && w'.prog.total == w.prog.total
            && Quiet(w.c0, w.prog.p0.outOpen, w'.c0, w'.prog.p0.outOpen)
            && Quiet(w.c1, w.prog.p1.outOpen, w'.c1, w'.prog.p1.outOpen)
  {
    NextQuietProgram(w, a);
    NextQuietChildren(w, a);
  }

  ghost predicate Quiet(c: Child, outOpen: bool, c': Child, outOpen': bool) {
    QuietChild(c, c') && (outOpen' ==> outOpen)
  }

  lemma StreamQuiet(rec: string, ended: bool, from: Child, outOpen: bool, to: Child, from': Child, outOpen': bool,
                    to': Child)
    requires Stream(rec, ended, from, outOpen, to)
    requires Quiet(from, outOpen, from', outOpen') && to'.received == to.received && to'.inBroken == to.inBroken
    ensures Stream(rec, ended, from', outOpen', to')
  {
  }

  lemma QuietTraffic(w: World, a: Action)
    requires Traffic(w) && Enabled(w, a) && !a.PumpChunk? && !a.PumpEof? && !a.ChildWrites?
    ensures Traffic(Next(w, a))
  {
    var w' := Next(w, a);
    var rs := w.prog.records;
    QuietFields(w, a);
    StreamQuiet(Recorded(rs, 0), HasEof(rs, 0), w.c0, w.prog.p0.outOpen, w.c1, w'.c0, w'.prog.p0.outOpen, w'.c1);
    StreamQuiet(Recorded(rs, 1), HasEof(rs, 1), w.c1, w.prog.p1.outOpen, w.c0, w'.c1, w'.prog.p1.outOpen, w'.c0);
  }

  lemma BothStreamsWrites(rs: seq<Record>, i: Id, from: Child, to: Child, toOutOpen: bool, data: string)
    requires BothStreams(rs, i, from, true, to, toOutOpen)
    ensures BothStreams(rs, i, from.(written := from.written + data, pipe := from.pipe + data), true, to, toOutOpen)
  {
    StreamWrites(Recorded(rs, i), from, to, data);
  }

  lemma WritesTraffic(w: World, i: Id, data: string)
    requires Traffic(w) && Enabled(w, ChildWrites(i, data))
    ensures Traffic(Next(w, ChildWrites(i, data)))
  {
    TrafficSides(w, i);
    BothStreamsWrites(w.prog.records, i, w.At(i), w.At(Other(i)), w.prog.At(Other(i)).outOpen, data);
    TrafficSides(Next(w, ChildWrites(i, data)), i);
  }

  lemma NextTraffic(w: World, a: Action)
    requires Traffic(w) && Enabled(w, a)
    ensures Traffic(Next(w, a))
  {
    match a
    case PumpChunk(n, accepted, sec, millis) => PumpChunkTraffic(w, n, accepted, sec, millis);
    case PumpEof(sec, millis) => PumpEofTraffic(w, sec, millis);
    case ChildWrites(i, data) => WritesTraffic(w, i, data);
    case _ => QuietTraffic(w, a);
  }

  lemma NextInv(w: World, a: Action)
    requires Inv(w) && Enabled(w, a)
    ensures Inv(Next(w, a))
  {
    NextExits(w, a);
    NextNoLostExit(w, a);
    NextTraffic(w, a);
    NextDescriptors(w, a);
    NextHistory(w, a);
  }

  lemma {:induction false} RunInv(w: World, actions: seq<Action>)
    requires Inv(w) && Run(w, actions).Some?
    ensures Inv(Run(w, actions).value)
    decreases |actions|
  {
    if actions != [] {
      NextInv(w, actions[0]);
      RunInv(Next(w, actions[0]), actions[1..]);
    }
  }
}
