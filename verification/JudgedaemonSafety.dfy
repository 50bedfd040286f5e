/**
 What every run of the judgedaemon keeps, over any sequence of batches, failures and restarts.
 */
module JudgedaemonSafety {
  import opened Numbers
  import opened Wrappers
  import opened JudgedaemonState

  /** The directory whose chroot is up after a log, or nothing if starts, stops and judging do not match. */
  function Replay(log: seq<Act>): Option<Option<nat>> {
    if log == [] then Some(None)
    else
      match Replay(log[..|log| - 1])
      case None => None
      case Some(up) =>
        match log[|log| - 1]
        case ChrootStart(cwd, ok) => if up == None then Some(if ok then Some(cwd) else None) else None
        case ChrootStop(cwd) => if up == Some(cwd) then Some(None) else None
        case Judge(dir, _, _) => if up == Some(dir) then Some(up) else None
        case Sleep(_) => Some(up)
  }

  /** The directory of the last successful start that no stop has followed. */
  function Up(log: seq<Act>): Option<nat> {
    if log == [] then None
    else
      match log[|log| - 1]
      case ChrootStart(cwd, ok) => if ok then Some(cwd) else Up(log[..|log| - 1])
      case ChrootStop(_) => None
      case _ => Up(log[..|log| - 1])
  }

  lemma {:induction false} ReplayIsUp(log: seq<Act>)
    requires Replay(log).Some?
    ensures Replay(log) == Some(Up(log))
  {
    if log != [] {
      ReplayIsUp(log[..|log| - 1]);
    }
  }

  /** What a process remembers agrees with its log as long as it runs. */
  ghost predicate Paired(d: Daemon) {
    && Replay(d.log).Some?
    && (d.running ==>
          && Replay(d.log) == Some(Mounted(d))
          && (d.lastWorkdir.Some? ==> d.lastWorkdir.value in d.fs && d.fs[d.lastWorkdir.value].id == d.cwd))
  }

  /** Every directory has its own identity. */
  ghost predicate Identified(d: Daemon) {
    && d.cwd < d.nextId
    && (forall p :: p in d.fs ==> d.fs[p].id < d.nextId)
    && (forall p, q :: p in d.fs && q in d.fs && p != q ==> d.fs[p].id != d.fs[q].id)
  }

  /** A directory that carries the tag of a batch holds no compilation of another. */
  predicate Coherent(dir: Dir) {
    dir.uuidPid.Some? && dir.compiled.Some? ==> dir.uuidPid == dir.compiled
  }

  ghost predicate Markers(d: Daemon) {
    forall p :: p in d.fs ==> Coherent(d.fs[p])
  }

  ghost predicate OwnCompilations(log: seq<Act>) {
    forall a :: a in log && a.Judge? && a.compiling.Reused? ==> a.compiling.tag == a.tag
  }

  ghost predicate Patient(d: Daemon) {
    && INITIAL_WAITTIME <= d.waittime <= MAXIMAL_WAITTIME
    && forall a :: a in d.log && a.Sleep? ==> INITIAL_WAITTIME <= a.tenths <= MAXIMAL_WAITTIME
  }

  ghost predicate Inv(d: Daemon) {
    && d.endpoints != [] && d.current < |d.endpoints|
    && Paired(d) && Identified(d) && Markers(d) && OwnCompilations(d.log) && Patient(d)
  }

  /** The start of a daemon on a host as another daemon left it: nobody stops a chroot that is still up. */
  function Restarted(d: Daemon, pid: nat): Daemon {
    Daemon(pid, true, seq(|d.endpoints|, _ => Endpoint(false, false, false)), 0, INITIAL_WAITTIME, None, 0, d.fs,
        d.nextId, [],
           d.past + [Life(d.pid, d.log)], d.left + (if Up(d.log).Some? then {Up(d.log).value} else {}))
  }

  function FirstStart(pid: nat, endpoints: nat): Daemon {
    Daemon(pid, true, seq(endpoints, _ => Endpoint(false, false, false)), 0, INITIAL_WAITTIME, None, 0, map[], 1, [],
        [], {})
  }

  // ----- the log grows by one act at a time

  lemma LogOn(d: Daemon, d': Daemon, a: Act)
    requires d'.log == d.log + [a]
    ensures d'.log[..|d'.log| - 1] == d.log && d'.log[|d'.log| - 1] == a
    ensures forall x :: x in d'.log <==> x in d.log || x == a
  {
  }

  lemma SleptInv(d: Daemon, es: seq<Endpoint>)
    requires Inv(d) && |es| == |d.endpoints|
    ensures Inv(d.(endpoints := es, waittime := Min(d.waittime * 2, MAXIMAL_WAITTIME),
              log := d.log + [Sleep(d.waittime)]))
  {
    var d' := d.(endpoints := es, waittime := Min(d.waittime * 2, MAXIMAL_WAITTIME),
        log := d.log + [Sleep(d.waittime)]);
    LogOn(d, d', Sleep(d.waittime));
  }

  lemma EndpointsInv(d: Daemon, es: seq<Endpoint>, waittime: nat)
    requires Inv(d) && |es| == |d.endpoints| && (waittime == d.waittime || waittime == INITIAL_WAITTIME)
    ensures Inv(d.(endpoints := es, waittime := waittime))
  {
  }

  lemma WaitedInv(d: Daemon, rs: seq<Registration>)
    requires Inv(d) && |rs| == |d.endpoints|
    ensures Inv(Waited(d, rs))
  {
    var es := RegisterFrom(d.endpoints, rs, 0);
    if !AllWaiting(d.endpoints) {
      EndpointsInv(d, es, INITIAL_WAITTIME);
    } else if d.current == 0 {
      SleptInv(d, es);
    } else {
      EndpointsInv(d, es, d.waittime);
    }
  }

  /** Exactly which directories go when the disk is cleaned, and which markers the others lose. */
  lemma DiskCleanedIff(d: Daemon, removals: map<Path, Removal>, p: Path)
    requires p in d.fs
    ensures var fs, meant := DiskCleaned(d, removals).fs, p in removals && p.endpoint == d.current;
            && (p in fs <==> !(meant && removals[p].Gone? && !HasMounts(d, d.fs[p].id)))
            && (p in fs ==>
                  && fs[p].id == d.fs[p].id
                  && fs[p].uuidPid == (if meant && (removals[p].Gone? || removals[p].uuidPidLost) then None
                                       else d.fs[p].uuidPid)
                  && fs[p].compiled == (if meant && (removals[p].Gone? || removals[p].compiledLost) then None
                                        else d.fs[p].compiled))
  {
  }

  lemma DiskCleanedInv(d: Daemon, removals: map<Path, Removal>)
    requires Inv(d)
    ensures Inv(DiskCleaned(d, removals))
  {
  }

  lemma CleaningInv(d: Daemon, fatal: Fatal)
    requires Inv(d) && d.running
    ensures Inv(Cleaning(d, fatal))
  {
    if d.lastWorkdir.Some? {
      LogOn(d, Cleaning(d, fatal), ChrootStop(d.cwd));
    }
  }

  lemma CleanedAfterInv(d: Daemon, fatal: Fatal)
    requires Inv(d) && d.running
    ensures Inv(CleanedAfter(d, fatal))
  {
    CleaningInv(d, fatal);
    StoppedInv(Cleaning(d, fatal));
  }

  /** Nothing but the last directory's own chroot may be up when a batch enters its directory. */
  ghost predicate ReadyToEnter(d: Daemon, workdir: Path, tag: string) {
    && (d.lastWorkdir == None || d.lastWorkdir == Some(workdir))
    && (workdir in d.fs ==> d.fs[workdir].uuidPid == Some(tag))
  }

  lemma RemovedInv(d: Daemon, workdir: Path)
    requires Inv(d) && (d.running ==> d.lastWorkdir != Some(workdir))
    ensures Inv(d.(fs := d.fs - {workdir}))
  {
  }

  lemma ClaimedInv(d: Daemon, workdir: Path, tag: string, fatal: Fatal)
    requires Inv(d) && d.running
    ensures var d' := Claimed(d, workdir, tag, fatal);
            Inv(d') && (d'.running ==> ReadyToEnter(d', workdir, tag))
  {
    CleaningInv(d, fatal);
    if Stale(d, workdir, tag) {
      RemovedInv(Cleaning(d, fatal), workdir);
      assert Claimed(d, workdir, tag, fatal) == Cleaning(d, fatal).(fs := d.fs - {workdir});
    }
  }

  lemma EnteredInv(d: Daemon, workdir: Path, tag: string)
    requires Inv(d) && d.running && ReadyToEnter(d, workdir, tag)
    ensures var d' := Entered(d, workdir);
            && Inv(d') && d'.running && d'.lastWorkdir == d.lastWorkdir
            && workdir in d'.fs && d'.fs[workdir].id == d'.cwd
            && (d'.fs[workdir].compiled.Some? ==> d'.fs[workdir].compiled == Some(tag))
            && (d'.fs[workdir].uuidPid.Some? ==> d'.fs[workdir].uuidPid == Some(tag))
  {
  }

  lemma StartedInv(d: Daemon, workdir: Path, starts: bool, fatal: Fatal)
    requires Inv(d) && d.running && workdir in d.fs && d.fs[workdir].id == d.cwd
    requires d.lastWorkdir == None || d.lastWorkdir == Some(workdir)
    ensures Inv(Started(d, workdir, starts, fatal)) && Started(d, workdir, starts, fatal).fs == d.fs
  {
    if d.lastWorkdir == None {
      LogOn(d, Started(d, workdir, starts, fatal), ChrootStart(d.cwd, starts));
    }
  }

  lemma JudgedOneInv(d: Daemon, workdir: Path, tag: string, t: Task)
    requires Inv(d) && d.running && d.lastWorkdir == Some(workdir)
    requires d.fs[workdir].compiled.Some? ==> d.fs[workdir].compiled == Some(tag)
    requires d.fs[workdir].uuidPid.Some? ==> d.fs[workdir].uuidPid == Some(tag)
    ensures var d' := JudgedOne(d, workdir, tag, t);
            && Inv(d') && d'.running && d'.lastWorkdir == Some(workdir)
            && (d'.fs[workdir].compiled.Some? ==> d'.fs[workdir].compiled == Some(tag))
            && (d'.fs[workdir].uuidPid.Some? ==> d'.fs[workdir].uuidPid == Some(tag))
  {
    LogOn(d, JudgedOne(d, workdir, tag, t), Judge(d.fs[workdir].id, tag, CompileResult(d.fs[workdir], t)));
  }

  lemma {:induction false} JudgedAllInv(d: Daemon, workdir: Path, tag: string, tasks: seq<Task>)
    requires Inv(d) && d.running && d.lastWorkdir == Some(workdir)
    requires d.fs[workdir].compiled.Some? ==> d.fs[workdir].compiled == Some(tag)
    requires d.fs[workdir].uuidPid.Some? ==> d.fs[workdir].uuidPid == Some(tag)
    ensures var d' := JudgedAll(d, workdir, tag, tasks);
            && Inv(d') && d'.running && d'.lastWorkdir == Some(workdir)
            && (d'.fs[workdir].compiled.Some? ==> d'.fs[workdir].compiled == Some(tag))
    decreases |tasks|
  {
    if tasks != [] {
      JudgedOneInv(d, workdir, tag, tasks[0]);
      JudgedAllInv(JudgedOne(d, workdir, tag, tasks[0]), workdir, tag, tasks[1..]);
    }
  }

  lemma UnlinkedInv(d: Daemon, workdir: Path)
    requires Inv(d) && workdir in d.fs
    ensures Inv(d.(fs := d.fs[workdir := d.fs[workdir].(uuidPid := None)], running := false))
  {
  }

  lemma MarkedInv(d: Daemon, workdir: Path, tag: string)
    requires Inv(d) && workdir in d.fs
    requires d.fs[workdir].compiled.Some? ==> d.fs[workdir].compiled == Some(tag)
    ensures Inv(Marked(d, workdir, tag))
  {
  }

  lemma StoppedInv(d: Daemon)
    requires Inv(d)
    ensures Inv(d.(running := false))
  {
  }

  lemma EndedInv(d: Daemon, workdir: Path, tag: string, signalled: bool, fatal: Fatal)
    requires Inv(d) && workdir in d.fs
    requires d.fs[workdir].compiled.Some? ==> d.fs[workdir].compiled == Some(tag)
    ensures Inv(Ended(d, workdir, tag, signalled, fatal))
  {
    MarkedInv(d, workdir, tag);
    StoppedInv(d);
    StoppedInv(Marked(d, workdir, tag));
  }

  lemma EnteringFailsInv(d: Daemon, workdir: Path, tag: string)
    requires Inv(d) && d.running && ReadyToEnter(d, workdir, tag)
    ensures Inv(Entered(d, workdir).(running := false, cwd := d.cwd))
  {
  }

  /** What is known of the directory of a batch before its tasks. */
  ghost predicate OwnDir(d: Daemon, workdir: Path, tag: string) {
    && workdir in d.fs
    && (d.fs[workdir].compiled.Some? ==> d.fs[workdir].compiled == Some(tag))
    && (d.fs[workdir].uuidPid.Some? ==> d.fs[workdir].uuidPid == Some(tag))
  }

  lemma EnterAndStartInv(d: Daemon, workdir: Path, tag: string, starts: bool, fatal: Fatal)
    requires Inv(d) && d.running && ReadyToEnter(d, workdir, tag)
    ensures var d' := Started(Entered(d, workdir), workdir, starts, fatal);
            Inv(d') && OwnDir(d', workdir, tag)
  {
    EnteredInv(d, workdir, tag);
    StartedInv(Entered(d, workdir), workdir, starts, fatal);
  }

  lemma ReadyInv(d: Daemon, workdir: Path, tag: string, starts: bool, fatal: Fatal)
    requires Inv(d) && d.running
    ensures var d' := ReadyForTasks(d, workdir, tag, starts, fatal);
            Inv(d') && (d'.running ==> OwnDir(d', workdir, tag))
  {
    var d1 := Claimed(d, workdir, tag, fatal);
    ClaimedInv(d, workdir, tag, fatal);
    if d1.running {
      StoppedInv(d1);
      EnteringFailsInv(d1, workdir, tag);
      EnterAndStartInv(d1, workdir, tag, starts, fatal);
    }
  }

  lemma BatchDoneInv(d: Daemon, w: Work, fatal: Fatal)
    requires Inv(d) && w.Batch? && d.running
    ensures Inv(BatchDone(d, w, fatal))
  {
    var workdir := Path(d.current, w.submitid, w.jobid);
    var tag := Tag(w.uuid, d.pid);
    if RenameFails(d, w) {
      UnlinkedInv(d, workdir);
    } else {
      ReadyInv(d, workdir, tag, w.starts, fatal);
      var d3 := ReadyForTasks(d, workdir, tag, w.starts, fatal);
      if d3.running && d3.lastWorkdir == Some(workdir) {
        JudgedAllInv(d3, workdir, tag, w.tasks);
        EndedInv(JudgedAll(d3, workdir, tag, w.tasks), workdir, tag, w.signalled, fatal);
      }
    }
  }

  lemma StepInv(d: Daemon, input: Input)
    requires Inv(d) && Fits(d, input)
    ensures Inv(Step(d, input))
  {
    if d.running {
      WaitedInv(d, input.registrations);
      DiskCleanedInv(Advanced(Waited(d, input.registrations)), input.removals);
      StoppedInv(Prepared(d, input));
      WorkedInv(Prepared(d, input), input.work, input.fatal);
    }
  }

  lemma WorkedInv(d: Daemon, w: Work, fatal: Fatal)
    requires Inv(d) && d.running
    ensures Inv(Worked(d, w, fatal))
  {
    var e := d.endpoints[d.current];
    match w
    case FetchError =>
    case NoWork => CleanedAfterInv(SetEndpoint(d, e.(waiting := true)), fatal);
    case TryAgain =>
    case Prefetch => CleanedAfterInv(SetEndpoint(d, e.(waiting := false, retrying := false)), fatal);
    case DebugInfo => CleanedAfterInv(SetEndpoint(d, e.(waiting := false, retrying := false)), fatal);
    case Batch(_, _, _, _, _, _, _) =>
      BatchDoneInv(SetEndpoint(d, e.(waiting := false, retrying := false)), w, fatal);
  }

  // ----- runs

  datatype Event = Pass(input: Input) | Restart(pid: nat)

  predicate Possible(d: Daemon, ev: Event) {
    ev.Pass? ==> Fits(d, ev.input)
  }

  function After(d: Daemon, ev: Event): Daemon
    requires Possible(d, ev)
  {
    match ev
    case Pass(input) => Step(d, input)
    case Restart(pid) => Restarted(d, pid)
  }

  function Run(d: Daemon, events: seq<Event>): Option<Daemon>
    decreases |events|
  {
    if events == [] then Some(d)
    else if Possible(d, events[0]) then Run(After(d, events[0]), events[1..])
    else None
  }

  lemma {:induction false} RunInv(d: Daemon, events: seq<Event>)
    requires Inv(d) && Run(d, events).Some?
    ensures Inv(Run(d, events).value)
    decreases |events|
  {
    if events != [] {
      if events[0].Pass? {
        StepInv(d, events[0].input);
      }
      RunInv(After(d, events[0]), events[1..]);
    }
  }

  // ----- the host over all processes

  /** This process and all before it. */
  function Lives(d: Daemon): seq<Life> {
    d.past + [Life(d.pid, d.log)]
  }

  /** The chroots up after the processes of the past are those that one of them started and did not stop. */
  ghost predicate HostInv(d: Daemon) {
    && (forall l :: l in d.past ==> Replay(l.log).Some? && OwnCompilations(l.log))
    && (forall id :: id in d.left <==> LeftUp(d.past, id))
  }

  ghost predicate LeftUp(lives: seq<Life>, id: nat) {
    exists k :: 0 <= k < |lives| && Replay(lives[k].log) == Some(Some(id))
  }

  ghost predicate SameHost(d: Daemon, d': Daemon) {
    d'.past == d.past && d'.left == d.left && d'.pid == d.pid
  }

  lemma {:induction false} JudgedAllSameHost(d: Daemon, workdir: Path, tag: string, tasks: seq<Task>)
    requires workdir in d.fs
    ensures SameHost(d, JudgedAll(d, workdir, tag, tasks)) && Up(JudgedAll(d, workdir, tag, tasks).log) == Up(d.log)
    decreases |tasks|
  {
    if tasks != [] {
      var d' := JudgedOne(d, workdir, tag, tasks[0]);
      LogOn(d, d', d'.log[|d.log|]);
      JudgedAllSameHost(d', workdir, tag, tasks[1..]);
    }
  }

  lemma WaitedSameHost(d: Daemon, rs: seq<Registration>)
    requires |rs| == |d.endpoints|
    ensures SameHost(d, Waited(d, rs)) && Up(Waited(d, rs).log) == Up(d.log)
  {
    if Waited(d, rs).log != d.log {
      LogOn(d, Waited(d, rs), Sleep(d.waittime));
    }
  }

  lemma CleaningUp(d: Daemon, fatal: Fatal)
    ensures SameHost(d, Cleaning(d, fatal))
    ensures Up(Cleaning(d, fatal).log) == if d.lastWorkdir.Some? then None else Up(d.log)
  {
    if d.lastWorkdir.Some? {
      LogOn(d, Cleaning(d, fatal), ChrootStop(d.cwd));
    }
  }

  lemma StartingUp(d: Daemon, workdir: Path, starts: bool, fatal: Fatal)
    ensures SameHost(d, Started(d, workdir, starts, fatal))
    ensures Up(Started(d, workdir, starts, fatal).log) ==
              if d.lastWorkdir != Some(workdir) && starts then Some(d.cwd) else Up(d.log)
  {
    if d.lastWorkdir != Some(workdir) {
      LogOn(d, Started(d, workdir, starts, fatal), ChrootStart(d.cwd, starts));
    }
  }

  /** Branches of the work that clean up first, unless the directory of a batch is in use already. */
  predicate CleansUp(d: Daemon, w: Work) {
    match w
    case NoWork => d.current < |d.endpoints| && !d.endpoints[d.current].waiting
    case Prefetch => true
    case DebugInfo => true
    case Batch(submitid, jobid, uuid, _, _, _, _) =>
      var workdir := Path(d.current, submitid, jobid);
      !RenameFails(d, w) && (d.lastWorkdir != Some(workdir) || Stale(d, workdir, Tag(uuid, d.pid)))
    case _ => false
  }

  /** A batch starts a chroot exactly when it cleans up, if no fatal error comes before. */
  predicate StartSucceeds(d: Daemon, w: Work, fatal: Fatal) {
    && w.Batch? && CleansUp(d, w) && w.starts
    && !(fatal == InCleanup && d.lastWorkdir.Some?) && fatal != AfterCleanup && fatal != OnEntering
  }

  lemma ReadyUp(d: Daemon, workdir: Path, tag: string, starts: bool, fatal: Fatal)
    requires d.running && Up(d.log) == Mounted(d)
    ensures var d' := ReadyForTasks(d, workdir, tag, starts, fatal);
            var cleans := d.lastWorkdir != Some(workdir) || Stale(d, workdir, tag);
            var started := cleans && starts && !(fatal == InCleanup && d.lastWorkdir.Some?) && fatal != AfterCleanup &&
                fatal != OnEntering;
            && SameHost(d, d')
            && (Up(d'.log).Some? <==> started || (d.lastWorkdir.Some? && !cleans))
  {
    var d0 := if Stale(d, workdir, tag) then d.(fs := d.fs - {workdir}) else d;
    CleaningUp(d0, fatal);
    var d1 := Claimed(d, workdir, tag, fatal);
    StartingUp(Entered(d1, workdir), workdir, starts, fatal);
  }

  lemma TasksUp(d: Daemon, workdir: Path, tag: string, tasks: seq<Task>, signalled: bool, fatal: Fatal)
    requires workdir in d.fs
    ensures workdir in JudgedAll(d, workdir, tag, tasks).fs
    ensures var d' := Ended(JudgedAll(d, workdir, tag, tasks), workdir, tag, signalled, fatal);
            SameHost(d, d') && Up(d'.log) == Up(d.log)
  {
    JudgedAllKeepsDir(d, workdir, tag, tasks);
    JudgedAllSameHost(d, workdir, tag, tasks);
  }

  lemma AfterReadyUp(d: Daemon, w: Work, fatal: Fatal, d': Daemon)
    requires w.Batch? && d.running && !RenameFails(d, w)
    requires d' == ReadyForTasks(d, Path(d.current, w.submitid, w.jobid), Tag(w.uuid, d.pid), w.starts, fatal)
    ensures SameHost(d', BatchDone(d, w, fatal)) && Up(BatchDone(d, w, fatal).log) == Up(d'.log)
  {
    var workdir := Path(d.current, w.submitid, w.jobid);
    var tag := Tag(w.uuid, d.pid);
    if d'.running && d'.lastWorkdir == Some(workdir) {
      ReadyHasDir(d, workdir, tag, w.starts, fatal);
      TasksUp(d', workdir, tag, w.tasks, w.signalled, fatal);
    }
  }

  lemma BatchDoneUp(d: Daemon, w: Work, fatal: Fatal)
    requires w.Batch? && d.running && Up(d.log) == Mounted(d)
    ensures SameHost(d, BatchDone(d, w, fatal))
    ensures Up(BatchDone(d, w, fatal).log).Some? <==>
              StartSucceeds(d, w, fatal) || (d.lastWorkdir.Some? && !CleansUp(d, w))
  {
    if !RenameFails(d, w) {
      var workdir := Path(d.current, w.submitid, w.jobid);
      var tag := Tag(w.uuid, d.pid);
      ReadyUp(d, workdir, tag, w.starts, fatal);
      AfterReadyUp(d, w, fatal, ReadyForTasks(d, workdir, tag, w.starts, fatal));
    }
  }

  lemma WorkedUp(d: Daemon, w: Work, fatal: Fatal)
    requires d.current < |d.endpoints| && d.running && Up(d.log) == Mounted(d)
    ensures SameHost(d, Worked(d, w, fatal))
    ensures Up(Worked(d, w, fatal).log).Some? <==>
              StartSucceeds(d, w, fatal) || (d.lastWorkdir.Some? && !CleansUp(d, w))
  {
    var e := d.endpoints[d.current];
    match w
    case NoWork => CleaningUp(SetEndpoint(d, e.(waiting := true)), fatal);
    case Prefetch => CleaningUp(SetEndpoint(d, e.(waiting := false, retrying := false)), fatal);
    case DebugInfo => CleaningUp(SetEndpoint(d, e.(waiting := false, retrying := false)), fatal);
    case Batch(_, _, _, _, _, _, _) => BatchDoneUp(SetEndpoint(d, e.(waiting := false, retrying := false)), w, fatal);
    case _ =>
  }

  /** The pass gets to the work: no exit signal, no endpoint in error, no fatal error before. */
  predicate GetsToWork(d: Daemon, input: Input)
    requires Fits(d, input)
  {
    var d' := Prepared(d, input);
    !input.exitSignalled && input.fatal != BeforeWork && d'.current < |d'.endpoints| &&
        !d'.endpoints[d'.current].errorred
  }

  /**
   After a pass of a running daemon, whether it ends the daemon or not, a chroot is up exactly if the pass
   started one successfully, or one was up before and the pass did not get to a cleanup.
   */
  lemma ChrootUpAfterPassIff(d: Daemon, input: Input)
    requires Inv(d) && Fits(d, input) && d.running
    ensures SameHost(d, Step(d, input))
    ensures var p, works := Prepared(d, input), GetsToWork(d, input);
            Up(Step(d, input).log).Some? <==>
            (works && StartSucceeds(p, input.work, input.fatal)) ||
                (d.lastWorkdir.Some? && !(works && CleansUp(p, input.work)))
  {
    ReplayIsUp(d.log);
    WaitedSameHost(d, input.registrations);
    if GetsToWork(d, input) {
      WorkedUp(Prepared(d, input), input.work, input.fatal);
    }
  }

  lemma StepSameHost(d: Daemon, input: Input)
    requires Inv(d) && Fits(d, input)
    ensures SameHost(d, Step(d, input))
  {
    if d.running {
      ChrootUpAfterPassIff(d, input);
    }
  }

  /**
   A chroot outlives the daemon exactly if the pass that ends it leaves one up, and the next process
   then counts it among those left.
   */
  lemma ChrootSurvivesDaemonIff(d: Daemon, input: Input, pid: nat)
    requires Inv(d) && Fits(d, input) && d.running && !Step(d, input).running
    ensures var p, works, up := Prepared(d, input), GetsToWork(d, input), Up(Step(d, input).log);
            && (up.Some? <==>
                (works && StartSucceeds(p, input.work, input.fatal)) ||
                    (d.lastWorkdir.Some? && !(works && CleansUp(p, input.work))))
            && Restarted(Step(d, input), pid).left == if up.Some? then d.left + {up.value} else d.left
  {
    ChrootUpAfterPassIff(d, input);
  }

  /** A restart adds to the chroots left up exactly the one of the process before, if it has not been stopped. */
  lemma RestartHostInv(d: Daemon, pid: nat)
    requires Inv(d) && HostInv(d)
    ensures HostInv(Restarted(d, pid))
  {
    var past', left' := Restarted(d, pid).past, Restarted(d, pid).left;
    ReplayIsUp(d.log);
    forall id: nat ensures id in left' <==> LeftUp(past', id) {
      if LeftUp(d.past, id) {
        var k :| 0 <= k < |d.past| && Replay(d.past[k].log) == Some(Some(id));
        assert past'[k] == d.past[k];
      }
      assert past'[|d.past|] == Life(d.pid, d.log);
    }
  }

  lemma {:induction false} RunHostInv(d: Daemon, events: seq<Event>)
    requires Inv(d) && HostInv(d) && Run(d, events).Some?
    ensures HostInv(Run(d, events).value)
    decreases |events|
  {
    if events != [] {
      if events[0].Pass? {
        StepInv(d, events[0].input);
        StepSameHost(d, events[0].input);
      } else {
        RestartHostInv(d, events[0].pid);
      }
      RunHostInv(After(d, events[0]), events[1..]);
    }
  }

  ghost predicate Reached(pid: nat, endpoints: nat, events: seq<Event>, d: Daemon) {
    endpoints > 0 && Run(FirstStart(pid, endpoints), events) == Some(d)
  }

  lemma ReachedInv(pid: nat, endpoints: nat, events: seq<Event>, d: Daemon)
    requires Reached(pid, endpoints, events, d)
    ensures Inv(d) && HostInv(d)
  {
    RunInv(FirstStart(pid, endpoints), events);
    RunHostInv(FirstStart(pid, endpoints), events);
  }

  /** A log of any process of the host matches starts, stops and judging. */
  lemma LifeReplays(pid: nat, endpoints: nat, events: seq<Event>, d: Daemon, l: Life)
    requires Reached(pid, endpoints, events, d) && l in Lives(d)
    ensures Replay(l.log).Some? && OwnCompilations(l.log)
  {
    ReachedInv(pid, endpoints, events, d);
  }

  /**
   The chroots up on the host: that of the last process, which it remembers while it runs, and those that
   earlier ones left.
   */
  lemma ChrootsUpOnHost(pid: nat, endpoints: nat, events: seq<Event>, d: Daemon, id: nat)
    requires Reached(pid, endpoints, events, d)
    ensures LeftUp(Lives(d), id) <==> Up(d.log) == Some(id) || id in d.left
    ensures d.running ==> (LeftUp(Lives(d), id) <==> HasMounts(d, id))
  {
    ReachedInv(pid, endpoints, events, d);
    ReplayIsUp(d.log);
    var lives := Lives(d);
    if LeftUp(d.past, id) {
      var k :| 0 <= k < |d.past| && Replay(d.past[k].log) == Some(Some(id));
      assert lives[k] == d.past[k];
    }
    assert lives[|d.past|] == Life(d.pid, d.log);
  }

  // ----- what the replay means

  lemma {:induction false} ReplayPrefix(log: seq<Act>, n: nat)
    requires n <= |log| && Replay(log).Some?
    ensures Replay(log[..n]).Some?
    decreases |log|
  {
    if n == |log| {
      assert log[..n] == log;
    } else {
      var front := log[..|log| - 1];
      ReplayPrefix(front, n);
      assert front[..n] == log[..n];
    }
  }

  /**
   If directory id is up after n acts but not after the first i of them, it was started in between and not
   stopped since.
   */
  lemma {:induction false} UpSince(log: seq<Act>, n: nat, id: nat) returns (i: nat)
    requires n <= |log| && Replay(log[..n]) == Some(Some(id))
    ensures i < n && log[i] == ChrootStart(id, true)
    ensures forall k :: i < k < n ==> !log[k].ChrootStart? && !log[k].ChrootStop?
    decreases n
  {
    var front := log[..n];
    assert front != [];
    assert front[..|front| - 1] == log[..n - 1];
    if log[n - 1].ChrootStart? {
      i := n - 1;
    } else {
      i := UpSince(log, n - 1, id);
    }
  }

  /**
   Every judging happens in a directory whose chroot was started successfully, from that directory,
   with neither a start nor a stop in between.
   */
  lemma JudgesInsideOwnChroot(pid: nat, endpoints: nat, events: seq<Event>, d: Daemon, l: Life, j: nat) returns (i: nat)
    requires Reached(pid, endpoints, events, d) && l in Lives(d) && j < |l.log| && l.log[j].Judge?
    ensures i < j && l.log[i] == ChrootStart(l.log[j].dir, true)
    ensures forall k :: i < k < j ==> !l.log[k].ChrootStart? && !l.log[k].ChrootStop?
  {
    LifeReplays(pid, endpoints, events, d, l);
    ReplayPrefix(l.log, j + 1);
    assert l.log[..j + 1][..j] == l.log[..j];
    i := UpSince(l.log, j, l.log[j].dir);
  }

  /** Every stop runs in the directory of the successful start it ends. */
  lemma StopsMatchStarts(pid: nat, endpoints: nat, events: seq<Event>, d: Daemon, l: Life, j: nat) returns (i: nat)
    requires Reached(pid, endpoints, events, d) && l in Lives(d) && j < |l.log| && l.log[j].ChrootStop?
    ensures i < j && l.log[i] == ChrootStart(l.log[j].cwd, true)
    ensures forall k :: i < k < j ==> !l.log[k].ChrootStart? && !l.log[k].ChrootStop?
  {
    LifeReplays(pid, endpoints, events, d, l);
    ReplayPrefix(l.log, j + 1);
    assert l.log[..j + 1][..j] == l.log[..j];
    i := UpSince(l.log, j, l.log[j].cwd);
  }

  /** Between two successful starts there is a stop, in the directory of the first. */
  lemma {:induction false} UpUntilStopped(log: seq<Act>, i: nat, j: nat)
    requires i < j <= |log| && Replay(log).Some? && log[i].ChrootStart? && log[i].ok
    requires forall k :: i < k < j ==> log[k] != ChrootStop(log[i].cwd)
    ensures Replay(log[..j]) == Some(Some(log[i].cwd))
    decreases j
  {
    ReplayPrefix(log, j);
    assert log[..j][..j - 1] == log[..j - 1];
    if j == i + 1 {
      ReplayPrefix(log, i);
    } else {
      UpUntilStopped(log, i, j - 1);
    }
  }

  lemma StartsAlternateWithStops(pid: nat, endpoints: nat, events: seq<Event>, d: Daemon, l: Life, i: nat, j: nat)
    requires Reached(pid, endpoints, events, d) && l in Lives(d) && i < j < |l.log|
    requires l.log[i].ChrootStart? && l.log[i].ok && l.log[j].ChrootStart?
    ensures exists k :: i < k < j && l.log[k] == ChrootStop(l.log[i].cwd)
  {
    LifeReplays(pid, endpoints, events, d, l);
    ReplayPrefix(l.log, j + 1);
    assert l.log[..j + 1][..j] == l.log[..j];
    if forall k :: i < k < j ==> l.log[k] != ChrootStop(l.log[i].cwd) {
      UpUntilStopped(l.log, i, j);
      assert false;
    }
  }

  /** In a running daemon lastWorkdir is set exactly while a chroot is up, and it is the directory the daemon is in. */
  lemma LastWorkdirIffChrootUp(pid: nat, endpoints: nat, events: seq<Event>, d: Daemon)
    requires Reached(pid, endpoints, events, d) && d.running
    ensures d.lastWorkdir.Some? <==> Replay(d.log) == Some(Some(d.cwd))
    ensures d.lastWorkdir == None <==> Replay(d.log) == Some(None)
    ensures d.lastWorkdir.Some? ==> d.lastWorkdir.value in d.fs && d.fs[d.lastWorkdir.value].id == d.cwd
  {
    ReachedInv(pid, endpoints, events, d);
  }

  // ----- a daemon that ends between the start of a chroot and remembering its directory

  function FirstBatch(fatal: Fatal): Input {
    Input([Registered], false, map[], Batch(1, 1, "u", true, true, [], false), fatal)
  }

  lemma FirstPass(pid: nat, fatal: Fatal)
    requires fatal == Never || fatal == AfterStart
    ensures var d := FirstStart(pid, 1);
            && Fits(d, FirstBatch(fatal))
            && Step(d, FirstBatch(fatal)).log == [ChrootStart(1, true)]
            && Step(d, FirstBatch(fatal)).running == (fatal == Never)
            && Step(d, FirstBatch(fatal)).lastWorkdir == if fatal == Never then Some(Path(0, 1, 1)) else None
  {
    var d := FirstStart(pid, 1);
    assert d.endpoints == [Endpoint(false, false, false)];
    assert d.endpoints[0] in d.endpoints;
    assert RegisterFrom(d.endpoints, [Registered], 0) == d.endpoints;
  }

  /**
   The configuration cannot be refreshed after the start: the chroot stays up, unknown to this and every
   later process.
   */
  lemma UnrememberedChrootStaysUp(pid: nat, pid': nat) returns (d: Daemon)
    ensures Reached(pid, 1, [Pass(FirstBatch(AfterStart)), Restart(pid')], d)
    ensures d.running && d.lastWorkdir == None && d.left == {1}
  {
    FirstPass(pid, AfterStart);
    var ended := Step(FirstStart(pid, 1), FirstBatch(AfterStart));
    d := Restarted(ended, pid');
    var events := [Pass(FirstBatch(AfterStart)), Restart(pid')];
    assert events[1..] == [Restart(pid')] && events[1..][1..] == [];
    assert Run(ended, [Restart(pid')]) == Run(d, []);
  }

  // ----- the compilation marker

  lemma {:induction false} NoUnderscore(n: nat)
    ensures Digits(n) != "" && '_' !in Digits(n)
  {
    if n >= 10 {
      NoUnderscore(n / 10);
    }
  }

  lemma {:induction false} DigitsInjective(n: nat, m: nat)
    requires Digits(n) == Digits(m)
    ensures n == m
    decreases n
  {
    NoUnderscore(n / 10);
    NoUnderscore(m / 10);
    var s := Digits(n);
    if n >= 10 && m >= 10 {
      assert s[..|s| - 1] == Digits(n / 10) == Digits(m / 10);
      assert s[|s| - 1] == DigitChar(n % 10) == DigitChar(m % 10);
      DigitsInjective(n / 10, m / 10);
    }
  }

  /** The content of `.uuid_pid` determines both the uuid and the process id, whatever the uuid looks like. */
  lemma TagInjective(uuid: string, pid: nat, uuid': string, pid': nat)
    requires Tag(uuid, pid) == Tag(uuid', pid')
    ensures uuid == uuid' && pid == pid'
  {
    var t, d, d' := Tag(uuid, pid), Digits(pid), Digits(pid');
    NoUnderscore(pid);
    NoUnderscore(pid');
    assert t[|uuid|] == '_' && t[|uuid'|] == '_';
    assert t[|uuid| + 1..] == d && t[|uuid'| + 1..] == d';
    forall x | |uuid| < x < |t| ensures t[x] != '_' {
      assert t[x] == d[x - |uuid| - 1];
    }
    forall x | |uuid'| < x < |t| ensures t[x] != '_' {
      assert t[x] == d'[x - |uuid'| - 1];
    }
    assert t[..|uuid|] == uuid && t[..|uuid'|] == uuid';
    DigitsInjective(pid, pid');
  }

  /** A compilation is reused only within the batches of one uuid and one daemon process. */
  lemma ReuseIsOwn(pid: nat, endpoints: nat, events: seq<Event>, d: Daemon, l: Life, j: nat, uuid: string,
                   madeBy: string, madeIn: nat)
    requires Reached(pid, endpoints, events, d) && l in Lives(d) && j < |l.log|
    requires l.log[j].Judge? && l.log[j].tag == Tag(uuid, l.pid)
    requires l.log[j].compiling == Reused(Tag(madeBy, madeIn))
    ensures madeBy == uuid && madeIn == l.pid
  {
    LifeReplays(pid, endpoints, events, d, l);
    assert l.log[j] in l.log;
    TagInjective(madeBy, madeIn, uuid, l.pid);
  }
}
