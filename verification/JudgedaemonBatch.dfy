/**
 What becomes of a batch of judge tasks: which tasks are judged and how they come by their compilation, what
 the directory is marked with, what a second batch finds, and exactly when a pass ends the daemon.
 */
module JudgedaemonBatch {
  import opened Wrappers
  import opened JudgedaemonState
  import opened JudgedaemonSafety

  // ----- the tasks

  /** Task k succeeds; only the first one of a directory without a compilation has to be compiled. */
  predicate TaskPasses(dir: Dir, tasks: seq<Task>, k: nat)
    requires k < |tasks|
  {
    tasks[k].succeeds && (k == 0 && dir.compiled == None ==> tasks[0].compiles)
  }

  /** How task k comes by its compilation. */
  function CompilingOf(dir: Dir, tag: string, tasks: seq<Task>, k: nat): Compiling
    requires k < |tasks|
  {
    if dir.compiled.Some? then Reused(dir.compiled.value)
    else if k > 0 then Reused(tag)
    else if tasks[0].compiles then Success
    else Failure
  }

  /** The first n tasks were judged, in order, and nothing else was done. */
  ghost predicate FirstJudged(d: Daemon, workdir: Path, tag: string, tasks: seq<Task>, n: nat, d': Daemon)
    requires workdir in d.fs
  {
    var dir := d.fs[workdir];
    && n <= |tasks| && |d'.log| == |d.log| + n && d'.log[..|d.log|] == d.log
    && (forall k :: 0 <= k < n ==> d'.log[|d.log| + k] == Judge(dir.id, tag, CompilingOf(dir, tag, tasks, k)))
    && d' == d.(log := d'.log, fs := d.fs[workdir := dir.(compiled :=
                                 if n > 0 && dir.compiled == None && tasks[0].compiles then Some(tag)
                                 else dir.compiled)])
  }

  lemma JudgeFirst(d: Daemon, workdir: Path, tag: string, tasks: seq<Task>)
    requires workdir in d.fs && tasks != []
    ensures FirstJudged(d, workdir, tag, tasks, 1, JudgedOne(d, workdir, tag, tasks[0]))
    ensures CompileResult(d.fs[workdir], tasks[0]) != Failure && tasks[0].succeeds <==>
              TaskPasses(d.fs[workdir], tasks, 0)
  {
    assert d.fs[workdir := d.fs[workdir]] == d.fs;
  }

  lemma JudgeRest(d: Daemon, workdir: Path, tag: string, tasks: seq<Task>, d1: Daemon, n: nat, d': Daemon)
    requires workdir in d.fs && tasks != [] && TaskPasses(d.fs[workdir], tasks, 0)
    requires FirstJudged(d, workdir, tag, tasks, 1, d1) && FirstJudged(d1, workdir, tag, tasks[1..], n, d')
    ensures FirstJudged(d, workdir, tag, tasks, n + 1, d')
  {
    var dir, dir1, log := d.fs[workdir], d1.fs[workdir], d'.log;
    assert log[..|d.log|] == d.log by {
      assert log[..|d1.log|][..|d.log|] == log[..|d.log|];
    }
    forall k | 0 <= k < n + 1 ensures log[|d.log| + k] == Judge(dir.id, tag, CompilingOf(dir, tag, tasks, k)) {
      if k == 0 {
        assert log[..|d1.log|][|d.log|] == log[|d.log|];
      } else {
        assert log[|d1.log| + (k - 1)] == Judge(dir1.id, tag, CompilingOf(dir1, tag, tasks[1..], k - 1));
      }
    }
  }

  lemma PassesRest(d: Daemon, workdir: Path, tag: string, tasks: seq<Task>, d1: Daemon, k: nat)
    requires workdir in d.fs && k + 1 < |tasks| && TaskPasses(d.fs[workdir], tasks, 0)
    requires FirstJudged(d, workdir, tag, tasks, 1, d1)
    ensures TaskPasses(d1.fs[workdir], tasks[1..], k) <==> TaskPasses(d.fs[workdir], tasks, k + 1)
  {
  }

  /** The tasks are judged in order up to the first that does not pass, and compiled once at most. */
  lemma {:induction false} TasksInOrder(d: Daemon, workdir: Path, tag: string, tasks: seq<Task>) returns (n: nat)
    requires workdir in d.fs
    ensures FirstJudged(d, workdir, tag, tasks, n, JudgedAll(d, workdir, tag, tasks))
    ensures tasks != [] ==> n > 0
    ensures forall k :: 0 <= k < n - 1 ==> TaskPasses(d.fs[workdir], tasks, k)
    ensures n < |tasks| ==> n > 0 && !TaskPasses(d.fs[workdir], tasks, n - 1)
    decreases |tasks|
  {
    if tasks == [] {
      n := 0;
      assert d.fs[workdir := d.fs[workdir]] == d.fs;
    } else {
      var d1 := JudgedOne(d, workdir, tag, tasks[0]);
      JudgeFirst(d, workdir, tag, tasks);
      if TaskPasses(d.fs[workdir], tasks, 0) {
        var m := TasksInOrder(d1, workdir, tag, tasks[1..]);
        JudgeRest(d, workdir, tag, tasks, d1, m, JudgedAll(d, workdir, tag, tasks));
        forall k: nat | k + 1 < |tasks|
          ensures TaskPasses(d1.fs[workdir], tasks[1..], k) <==> TaskPasses(d.fs[workdir], tasks, k + 1)
        {
          PassesRest(d, workdir, tag, tasks, d1, k);
        }
        n := m + 1;
        forall k | 0 <= k < n - 1 ensures TaskPasses(d.fs[workdir], tasks, k) {
          if k > 0 {
            assert TaskPasses(d1.fs[workdir], tasks[1..], k - 1);
          }
        }
      } else {
        n := 1;
      }
    }
  }

  // ----- a whole batch

  function WorkdirOf(d: Daemon, w: Work): Path
    requires w.Batch?
  {
    Path(d.current, w.submitid, w.jobid)
  }

  /** The directory belongs to another batch and cannot be renamed. */
  predicate CannotRename(d: Daemon, w: Work)
    requires w.Batch?
  {
    && WorkdirOf(d, w) in d.fs && d.fs[WorkdirOf(d, w)].uuidPid != Some(Tag(w.uuid, d.pid))
    && !w.renames
  }

  /** The batch gets to its tasks: nothing fails before, and the chroot is up already or is started. */
  predicate ReachesTasks(d: Daemon, w: Work, fatal: Fatal) {
    && w.Batch? && !CannotRename(d, w) && fatal != AfterCleanup && fatal != OnEntering
    && (CleansUp(d, w) ==> w.starts && fatal != AfterStart && !(fatal == InCleanup && d.lastWorkdir.Some?))
  }

  /** Everything by which a batch ends the daemon. */
  predicate BatchEnds(d: Daemon, w: Work, fatal: Fatal) {
    && w.Batch?
    && (|| CannotRename(d, w) || fatal == AfterCleanup || fatal == OnEntering
        || (CleansUp(d, w) && (fatal == AfterStart || (fatal == InCleanup && d.lastWorkdir.Some?)))
        || (ReachesTasks(d, w, fatal) && (fatal == InTasks || w.signalled)))
  }

  lemma ReadyCases(d: Daemon, w: Work, fatal: Fatal)
    requires w.Batch? && d.running && !RenameFails(d, w)
    ensures var d' := ReadyForTasks(d, WorkdirOf(d, w), Tag(w.uuid, d.pid), w.starts, fatal);
            && (d'.running && d'.lastWorkdir == Some(WorkdirOf(d, w)) <==> ReachesTasks(d, w, fatal))
            && (!d'.running <==>
                  (|| fatal == AfterCleanup || fatal == OnEntering
                   || (CleansUp(d, w) && (fatal == AfterStart || (fatal == InCleanup && d.lastWorkdir.Some?)))))
  {
  }

  /** The directory of a batch is in use: its chroot is up, and the daemon is in it. */
  ghost predicate InUse(d: Daemon, workdir: Path, tag: string) {
    && d.running && d.lastWorkdir == Some(workdir) && workdir in d.fs
    && d.fs[workdir].uuidPid == Some(tag) && d.fs[workdir].id == d.cwd
  }

  /** Exactly when a batch ends the daemon, and what it leaves behind otherwise. */
  lemma BatchEndsIff(d: Daemon, w: Work, fatal: Fatal)
    requires w.Batch? && d.running
    ensures !BatchDone(d, w, fatal).running <==> BatchEnds(d, w, fatal)
    ensures ReachesTasks(d, w, fatal) && fatal != InTasks ==>
              var d' := BatchDone(d, w, fatal);
              && d'.lastWorkdir == Some(WorkdirOf(d, w)) && WorkdirOf(d, w) in d'.fs
              && d'.fs[WorkdirOf(d, w)].uuidPid == Some(Tag(w.uuid, d.pid))
  {
    if !RenameFails(d, w) {
      var workdir, tag := WorkdirOf(d, w), Tag(w.uuid, d.pid);
      ReadyCases(d, w, fatal);
      var d' := ReadyForTasks(d, workdir, tag, w.starts, fatal);
      if ReachesTasks(d, w, fatal) {
        ReadyHasDir(d, workdir, tag, w.starts, fatal);
        var n := TasksInOrder(d', workdir, tag, w.tasks);
      }
    }
  }

  /** After a batch that got through its tasks its directory is in use. */
  lemma BatchLeavesInUse(d: Daemon, w: Work, fatal: Fatal)
    requires Inv(d) && d.running && ReachesTasks(d, w, fatal) && !BatchEnds(d, w, fatal)
    ensures InUse(BatchDone(d, w, fatal), WorkdirOf(d, w), Tag(w.uuid, d.pid))
  {
    BatchEndsIff(d, w, fatal);
    BatchDoneInv(d, w, fatal);
  }

  /** A further batch of the same kind finds its directory in use: nothing is renamed, stopped or started. */
  lemma FurtherBatchOnlyJudges(d: Daemon, w: Work) returns (n: nat, d': Daemon)
    requires w.Batch? && InUse(d, WorkdirOf(d, w), Tag(w.uuid, d.pid))
    ensures FirstJudged(d, WorkdirOf(d, w), Tag(w.uuid, d.pid), w.tasks, n, d') && WorkdirOf(d, w) in d'.fs
    ensures BatchDone(d, w, Never) == Ended(d', WorkdirOf(d, w), Tag(w.uuid, d.pid), w.signalled, Never)
  {
    var workdir, tag := WorkdirOf(d, w), Tag(w.uuid, d.pid);
    assert ReadyForTasks(d, workdir, tag, w.starts, Never) == d;
    n := TasksInOrder(d, workdir, tag, w.tasks);
    d' := JudgedAll(d, workdir, tag, w.tasks);
  }

  // ----- the disk

  lemma PreparedFs(d: Daemon, input: Input, p: Path)
    requires Fits(d, input) && p in d.fs
    ensures var prepared := Prepared(d, input);
            p in prepared.fs <==>
              !(&& prepared.current < |prepared.endpoints| && !prepared.endpoints[prepared.current].waiting
                && p in input.removals && input.removals[p].Gone? && p.endpoint == prepared.current
                && !HasMounts(d, d.fs[p].id))
    ensures Waited(d, input.registrations).fs == d.fs
  {
  }

  lemma WorkKeepsFs(d: Daemon, w: Work, fatal: Fatal)
    requires d.current < |d.endpoints| && d.running && !w.Batch?
    ensures Worked(d, w, fatal).fs == d.fs && Worked(d, w, fatal).current == d.current
  {
  }

  /**
   In a pass without a batch, exactly those directories go that belong to the endpoint whose turn it is and were
   removed, if the endpoint is neither in error nor waiting; mounted ones stay.
   */
  lemma PassCleansDisk(d: Daemon, input: Input, p: Path)
    requires Fits(d, input) && d.running && !input.work.Batch? && p in d.fs
    ensures var prepared := Prepared(d, input);
            p in Step(d, input).fs <==>
              !(&& !input.exitSignalled && prepared.current < |prepared.endpoints|
                && !prepared.endpoints[prepared.current].errorred && !prepared.endpoints[prepared.current].waiting
                && p in input.removals && input.removals[p].Gone? && p.endpoint == Step(d, input).current
                && !HasMounts(d, d.fs[p].id))
  {
    PreparedFs(d, input, p);
    if GetsToWork(d, input) {
      WorkKeepsFs(Prepared(d, input), input.work, input.fatal);
    }
  }

  // ----- the end of the daemon

  /** Everything by which the work of a pass ends the daemon. */
  predicate WorkEnds(d: Daemon, w: Work, fatal: Fatal) {
    match w
    case NoWork => CleansUp(d, w) && (fatal == AfterCleanup || (fatal == InCleanup && d.lastWorkdir.Some?))
    case Prefetch => fatal == AfterCleanup || (fatal == InCleanup && d.lastWorkdir.Some?)
    case DebugInfo => fatal == AfterCleanup || (fatal == InCleanup && d.lastWorkdir.Some?)
    case Batch(_, _, _, _, _, _, _) => BatchEnds(d, w, fatal)
    case _ => false
  }

  lemma WorkEndsIff(d: Daemon, w: Work, fatal: Fatal)
    requires d.current < |d.endpoints| && d.running
    ensures !Worked(d, w, fatal).running <==> WorkEnds(d, w, fatal)
  {
    if w.Batch? {
      var e := d.endpoints[d.current];
      var d' := SetEndpoint(d, e.(waiting := false, retrying := false));
      BatchEndsIff(d', w, fatal);
      assert BatchEnds(d', w, fatal) == BatchEnds(d, w, fatal);
    }
  }

  /**
   A pass ends the daemon exactly if an exit was signalled, or the endpoint is not in error and a fatal error
   strikes where the pass gets to, or a rename fails, or a signal came while tasks were judged.
   */
  lemma DaemonEndsIff(d: Daemon, input: Input)
    requires Fits(d, input) && d.running
    ensures var p := Prepared(d, input);
            !Step(d, input).running <==>
              || input.exitSignalled
              || (p.current < |p.endpoints| && !p.endpoints[p.current].errorred
                  && (input.fatal == BeforeWork || WorkEnds(p, input.work, input.fatal)))
  {
    if GetsToWork(d, input) {
      WorkEndsIff(Prepared(d, input), input.work, input.fatal);
    }
  }
}
