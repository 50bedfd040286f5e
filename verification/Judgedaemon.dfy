/**
 The judgedaemon as an object: its variables, and one method for a pass of the main loop. What the
 API, the file system and the scripts answer is the input of a pass.
 */
module Judgedaemon {
  import opened Numbers
  import opened Wrappers
  import opened JudgedaemonState

  /** One more directory is removed, or keeps only what could not be removed; the order does not matter. */
  lemma CleanedStep(d: Daemon, removals: map<Path, Removal>, left: set<Path>, dir: Path)
    requires left <= removals.Keys && dir in left
    ensures var before, after := DiskCleaned(d, removals - left), DiskCleaned(d, removals - (left - {dir}));
            after == if dir in before.fs && dir.endpoint == d.current then
                       if removals[dir].Gone? && !HasMounts(d, before.fs[dir].id) then before.(fs := before.fs - {dir})
                       else before.(fs := before.fs[dir := Weaken(before.fs[dir], removals[dir])])
                     else before
  {
    var before, after := DiskCleaned(d, removals - left), DiskCleaned(d, removals - (left - {dir}));
    if dir in before.fs && dir.endpoint == d.current {
      if removals[dir].Gone? && !HasMounts(d, before.fs[dir].id) {
        assert after.fs == before.fs - {dir};
      } else {
        assert after.fs == before.fs[dir := Weaken(before.fs[dir], removals[dir])];
      }
    } else {
      assert after.fs == before.fs;
    }
  }

  class Judgehost {
    var pid: nat
    var running: bool
    var endpoints: seq<Endpoint>
    var currentEndpoint: nat
    var waittime: nat
    var lastWorkdir: Option<Path>
    var cwd: nat
    var fs: map<Path, Dir>
    var nextId: nat
    var log: seq<Act>
    const past: seq<Life>
    const left: set<nat>

    constructor (pid: nat, endpoints: seq<Endpoint>, fs: map<Path, Dir>, nextId: nat, past: seq<Life>, left: set<nat>)
      ensures State() == Daemon(pid, true, endpoints, 0, INITIAL_WAITTIME, None, 0, fs, nextId, [], past, left)
    {
      this.past, this.left := past, left;
      this.pid, running, this.endpoints, currentEndpoint := pid, true, endpoints, 0;
      waittime, lastWorkdir, cwd := INITIAL_WAITTIME, None, 0;
      this.fs, this.nextId, log := fs, nextId, [];
    }

    ghost function State(): Daemon
      reads this
    {
      Daemon(pid, running, endpoints, currentEndpoint, waittime, lastWorkdir, cwd, fs, nextId, log, past, left)
    }

    /** Registers at endpoints in error and sleeps if there is nothing else to do. */
    method RegisterAndSleep(registrations: seq<Registration>)
      requires |registrations| == |endpoints|
      modifies this
      ensures State() == Waited(old(State()), registrations)
    {
      var dosleep := true;
      var snapshot := endpoints;
      var k := 0;
      while k < |snapshot|
        invariant 0 <= k <= |snapshot| && |endpoints| == |snapshot|
        invariant State() == old(State()).(endpoints := endpoints)
        invariant forall i :: 0 <= i < k ==> snapshot[i].waiting
        invariant forall i :: k <= i < |snapshot| ==> endpoints[i] == snapshot[i]
        invariant RegisterFrom(snapshot, registrations, 0) == RegisterFrom(endpoints, registrations, k)
        invariant dosleep
      {
        if snapshot[k].errorred {
          endpoints := endpoints[k := Register(endpoints[k], registrations[k])];
        }
        if !snapshot[k].waiting {
          dosleep := false;
          waittime := INITIAL_WAITTIME;
          assert snapshot[k] in snapshot;
          break;
        }
        k := k + 1;
      }
      if dosleep && currentEndpoint == 0 {
        log := log + [Sleep(waittime)];
        waittime := Min(waittime * 2, MAXIMAL_WAITTIME);
      }
    }

    /** Low on disk space: old judging directories of the current endpoint are removed, as far as that succeeds. */
    method CleanUpDisk(removals: map<Path, Removal>)
      modifies `fs
      ensures State() == DiskCleaned(old(State()), removals)
    {
      var candidateDirs := removals.Keys;
      while candidateDirs != {}
        invariant candidateDirs <= removals.Keys
        invariant State() == DiskCleaned(old(State()), removals - candidateDirs)
        decreases |candidateDirs|
      {
        var dir :| dir in candidateDirs;
        CleanedStep(old(State()), removals, candidateDirs, dir);
        if dir in fs && dir.endpoint == currentEndpoint {
          var up := (lastWorkdir.Some? && cwd == fs[dir].id) || fs[dir].id in left;
          if removals[dir].Gone? && !up {
            fs := fs - {dir};
          } else {
            fs := fs[dir := Weaken(fs[dir], removals[dir])];
          }
        }
        candidateDirs := candidateDirs - {dir};
      }
      assert removals - candidateDirs == removals;
    }

    /** Stops the chroot from the directory the daemon is in. */
    method CleanupJudging()
      modifies `log
      ensures log == old(log) + [ChrootStop(cwd)]
    {
      log := log + [ChrootStop(cwd)];
    }

    method CleanupLast(fatal: Fatal)
      modifies `log, `lastWorkdir, `running
      ensures State() == Cleaning(old(State()), fatal)
    {
      if lastWorkdir != None {
        CleanupJudging();
        if fatal == InCleanup {
          running := false;
          return;
        }
        lastWorkdir := None;
      }
    }

    /** Renames a stale directory and cleans up when switching directories; ok is false if renaming failed. */
    method ClaimWorkdir(workdir: Path, expectedUuidPid: string, renames: bool, fatal: Fatal) returns (ok: bool)
      modifies this
      ensures ok == (!Stale(old(State()), workdir, expectedUuidPid) || renames)
      ensures ok ==> State() == Claimed(old(State()), workdir, expectedUuidPid, fatal)
      ensures !ok ==>
                State() == old(State()).(fs := old(fs)[workdir := old(fs)[workdir].(uuidPid := None)], running := false)
    {
      var needsCleanup := false;
      if lastWorkdir != Some(workdir) {
        needsCleanup := true;
      }
      if workdir in fs {
        if fs[workdir].uuidPid.Some? {
          if fs[workdir].uuidPid.value != expectedUuidPid {
            needsCleanup := true;
            fs := fs[workdir := fs[workdir].(uuidPid := None)];
          }
        } else {
          needsCleanup := true;
        }
        if fs[workdir].uuidPid == None {
          if !renames {
            assert old(fs)[workdir].uuidPid == None ==> fs == old(fs)[workdir := old(fs)[workdir].(uuidPid := None)];
            running := false;
            return false;
          }
          assert fs - {workdir} == old(fs) - {workdir};
          fs := fs - {workdir};
        }
      }
      if needsCleanup {
        CleanupLast(fatal);
      }
      return true;
    }

    /** The compile step with its shortcut, then the rest of the judge task. */
    method JudgeTask(workdir: Path, tag: string, t: Task) returns (ok: bool)
      requires workdir in fs
      modifies `log, `fs
      ensures State() == JudgedOne(old(State()), workdir, tag, t)
      ensures ok == (CompileResult(old(fs)[workdir], t) != Failure && t.succeeds)
    {
      var dir := fs[workdir];
      if dir.compiled.Some? {
        log := log + [Judge(dir.id, tag, Reused(dir.compiled.value))];
      } else if !t.compiles {
        log := log + [Judge(dir.id, tag, Failure)];
        return false;
      } else {
        fs := fs[workdir := dir.(compiled := Some(tag))];
        log := log + [Judge(dir.id, tag, Success)];
      }
      return t.succeeds;
    }

    method JudgeTasks(workdir: Path, tag: string, tasks: seq<Task>)
      requires workdir in fs
      modifies `log, `fs
      ensures State() == JudgedAll(old(State()), workdir, tag, tasks)
      ensures workdir in fs
    {
      var k := 0;
      while k < |tasks|
        invariant 0 <= k <= |tasks| && workdir in fs
        invariant JudgedAll(old(State()), workdir, tag, tasks) == JudgedAll(State(), workdir, tag, tasks[k..])
      {
        assert tasks[k..][1..] == tasks[k + 1..];
        var ok := JudgeTask(workdir, tag, tasks[k]);
        if !ok {
          return;
        }
        k := k + 1;
      }
    }

    /** mkdir -p and chdir; ok is false if changing into the directory failed. */
    method EnterWorkdir(workdir: Path, enters: bool) returns (ok: bool)
      modifies `fs, `cwd, `nextId, `running
      ensures ok == enters && workdir in fs
      ensures ok ==> State() == Entered(old(State()), workdir)
      ensures !ok ==> State() == Entered(old(State()), workdir).(running := false, cwd := old(cwd))
    {
      if workdir !in fs {
        fs := fs[workdir := Dir(nextId, None, None)];
        nextId := nextId + 1;
      }
      if !enters {
        running := false;
        return false;
      }
      cwd := fs[workdir].id;
      return true;
    }

    /** Starts the chroot unless it is up already; ok is false if that failed or the daemon ended. */
    method StartChroot(workdir: Path, starts: bool, fatal: Fatal) returns (ok: bool)
      requires running
      modifies `log, `lastWorkdir, `running
      ensures State() == Started(old(State()), workdir, starts, fatal)
      ensures ok == (running && lastWorkdir == Some(workdir))
    {
      if lastWorkdir != Some(workdir) {
        log := log + [ChrootStart(cwd, starts)];
        if fatal == AfterStart {
          running := false;
          return false;
        }
        if !starts {
          return false;
        }
        lastWorkdir := Some(workdir);
      }
      return true;
    }

    method JudgeAndMark(workdir: Path, expectedUuidPid: string, tasks: seq<Task>, signalled: bool, fatal: Fatal)
      requires workdir in fs
      modifies `log, `fs, `running
      ensures (JudgedAllKeepsDir(old(State()), workdir, expectedUuidPid, tasks);
               State() == Ended(JudgedAll(old(State()), workdir, expectedUuidPid, tasks), workdir, expectedUuidPid,
                   signalled, fatal))
    {
      JudgedAllKeepsDir(State(), workdir, expectedUuidPid, tasks);
      JudgeTasks(workdir, expectedUuidPid, tasks);
      if fatal == InTasks {
        running := false;
        return;
      }
      fs := fs[workdir := fs[workdir].(uuidPid := Some(expectedUuidPid))];
      if signalled {
        running := false;
      }
    }

    method RunBatch(w: Work, fatal: Fatal)
      requires w.Batch? && running
      modifies this
      ensures State() == BatchDone(old(State()), w, fatal)
    {
      var workdir := Path(currentEndpoint, w.submitid, w.jobid);
      var expectedUuidPid := Tag(w.uuid, pid);
      var ok := ClaimWorkdir(workdir, expectedUuidPid, w.renames, fatal);
      if !ok || !running {
        return;
      }
      if fatal == AfterCleanup {
        running := false;
        return;
      }
      ok := EnterWorkdir(workdir, fatal != OnEntering);
      if !ok {
        return;
      }
      ok := StartChroot(workdir, w.starts, fatal);
      if !ok {
        return;
      }
      JudgeAndMark(workdir, expectedUuidPid, w.tasks, w.signalled, fatal);
    }

    /** One pass of the main loop. */
    method Iterate(input: Input)
      requires Fits(State(), input)
      modifies this
      ensures State() == Step(old(State()), input)
    {
      if !running {
        return;
      }
      RegisterAndSleep(input.registrations);
      currentEndpoint := (currentEndpoint + 1) % |endpoints|;
      if input.exitSignalled {
        running := false;
        return;
      }
      var e := endpoints[currentEndpoint];
      if e.errorred {
        return;
      }
      if !e.waiting {
        CleanUpDisk(input.removals);
      }
      if input.fatal == BeforeWork {
        running := false;
        return;
      }
      HandleWork(input.work, input.fatal);
    }

    /** The requests that follow a cleanup may fail and end the daemon. */
    method HandleWork(work: Work, fatal: Fatal)
      requires currentEndpoint < |endpoints| && running
      modifies this
      ensures State() == Worked(old(State()), work, fatal)
    {
      var e := endpoints[currentEndpoint];
      if work.FetchError? {
        endpoints := endpoints[currentEndpoint := e.(errorred := true)];
        return;
      }
      if work.NoWork? {
        if !e.waiting {
          endpoints := endpoints[currentEndpoint := e.(waiting := true)];
          CleanupLast(fatal);
          if fatal == AfterCleanup {
            running := false;
          }
        }
        return;
      }
      if work.TryAgain? {
        endpoints := endpoints[currentEndpoint := e.(waiting := false, retrying := true)];
        return;
      }
      endpoints := endpoints[currentEndpoint := e.(waiting := false, retrying := false)];
      if work.Prefetch? || work.DebugInfo? {
        CleanupLast(fatal);
        if fatal == AfterCleanup {
          running := false;
        }
        return;
      }
      RunBatch(work, fatal);
    }
  }
}
