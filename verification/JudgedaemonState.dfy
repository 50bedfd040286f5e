/**
 The main loop of the judgedaemon as a function of what the outside world answers. One step is one
 pass of the loop; what it does to chroots and judging directories is noted in a log.
 */
module JudgedaemonState {
  import opened Numbers
  import opened Wrappers

  /** A judging directory: endpoint, submission and job. */
  datatype Path = Path(endpoint: nat, submitid: int, jobid: int)

  /**
   A directory on disk. Its identity survives renaming. uuidPid is the content of its `.uuid_pid` file;
   compiled is the tag of the batch that created `compile.success`, if that file exists.
   */
  datatype Dir = Dir(id: nat, uuidPid: Option<string>, compiled: Option<string>)

  datatype Endpoint = Endpoint(waiting: bool, errorred: bool, retrying: bool)

  datatype Compiling = Reused(tag: string) | Success | Failure

  /** Chroot scripts run in the current directory; judging happens in the directory of the judge task. */
  datatype Act =
    | ChrootStart(cwd: nat, ok: bool)
    | ChrootStop(cwd: nat)
    | Judge(dir: nat, tag: string, compiling: Compiling)
    | Sleep(tenths: nat)

  // Tenths of a second.
  const INITIAL_WAITTIME: nat := 1
  const MAXIMAL_WAITTIME: nat := 50

  /** What a daemon process did on this host. */
  datatype Life = Life(pid: nat, log: seq<Act>)

  /** past: the processes before this one. left: the directories whose chroots they left up. */
  datatype Daemon = Daemon(
    pid: nat, running: bool,
    endpoints: seq<Endpoint>, current: nat, waittime: nat,
    lastWorkdir: Option<Path>, cwd: nat,
    fs: map<Path, Dir>, nextId: nat,
    log: seq<Act>, past: seq<Life>, left: set<nat>)

  /** What became of an attempt to register at an endpoint in error. */
  datatype Registration = Throttled | Registered | Failed

  /** What removing an old directory achieved: everything, or only some of its marker files. */
  datatype Removal = Gone | Partial(uuidPidLost: bool, compiledLost: bool)

  /** One judge task: what the compiler would say, and whether the rest of it succeeds. */
  datatype Task = Task(compiles: bool, succeeds: bool)

  /**
   Where a fatal error or a kill strikes, if the pass gets there: while registering, checking the disk or
   asking for work; when a chroot has been stopped but its directory is not forgotten yet; after the
   cleanup, up to the creation of the directory; on entering it; after the start script, before the
   directory is remembered; or in the tasks.
   */
  datatype Fatal = Never | BeforeWork | InCleanup | AfterCleanup | OnEntering | AfterStart | InTasks

  datatype Work =
    | FetchError
    | NoWork
    | TryAgain
    | Prefetch
    | DebugInfo
    | Batch(submitid: int, jobid: int, uuid: string, renames: bool, starts: bool, tasks: seq<Task>, signalled: bool)

  datatype Input = Input(
    registrations: seq<Registration>, exitSignalled: bool, removals: map<Path, Removal>, work: Work, fatal: Fatal)

  // ----- the tag of a batch

  function Tag(uuid: string, pid: nat): string {
    uuid + "_" + Digits(pid)
  }

  // ----- registering and waiting

  function Register(e: Endpoint, r: Registration): Endpoint {
    match r
    case Throttled => e.(waiting := true)
    case Registered => e.(waiting := false, errorred := false)
    case Failed => e
  }

  /** Endpoints in error register again, up to the first one that was not waiting. */
  function RegisterFrom(es: seq<Endpoint>, rs: seq<Registration>, k: nat): (r: seq<Endpoint>)
    requires k <= |es| && |rs| == |es|
    ensures |r| == |es|
    decreases |es| - k
  {
    if k == |es| then es
    else
      var es' := if es[k].errorred then es[k := Register(es[k], rs[k])] else es;
      if !es[k].waiting then es' else RegisterFrom(es', rs, k + 1)
  }

  predicate AllWaiting(es: seq<Endpoint>) {
    forall e :: e in es ==> e.waiting
  }

  function Waited(d: Daemon, rs: seq<Registration>): Daemon
    requires |rs| == |d.endpoints|
  {
    var d' := d.(endpoints := RegisterFrom(d.endpoints, rs, 0));
    if !AllWaiting(d.endpoints) then d'.(waittime := INITIAL_WAITTIME)
    else if d.current == 0 then
      d'.(waittime := Min(d.waittime * 2, MAXIMAL_WAITTIME), log := d.log + [Sleep(d.waittime)])
    else d'
  }

  function Advanced(d: Daemon): Daemon
    requires d.endpoints != []
  {
    d.(current := (d.current + 1) % |d.endpoints|)
  }

  // ----- directories

  /** The directory whose chroot is up, if any. */
  function Mounted(d: Daemon): Option<nat> {
    if d.lastWorkdir == None then None else Some(d.cwd)
  }

  function Weaken(dir: Dir, r: Removal): Dir {
    dir.(uuidPid := if r.Gone? || r.uuidPidLost then None else dir.uuidPid,
         compiled := if r.Gone? || r.compiledLost then None else dir.compiled)
  }

  /** A chroot of this or an earlier process is up in directory id. */
  predicate HasMounts(d: Daemon, id: nat) {
    Mounted(d) == Some(id) || id in d.left
  }

  /** Removing old directories of the current endpoint; mount points keep a mounted directory in place. */
  function DiskCleaned(d: Daemon, removals: map<Path, Removal>): Daemon {
    d.(fs := map p | p in d.fs &&
        !(p in removals && p.endpoint == d.current && removals[p].Gone? && !HasMounts(d, d.fs[p].id))
               :: if p in removals && p.endpoint == d.current then Weaken(d.fs[p], removals[p]) else d.fs[p])
  }

  /** cleanup_judging followed by forgetting the directory. */
  function CleanedUp(d: Daemon): Daemon {
    if d.lastWorkdir == None then d
    else d.(log := d.log + [ChrootStop(d.cwd)], lastWorkdir := None)
  }

  /** The same, unless a fatal error strikes in between. */
  function Cleaning(d: Daemon, fatal: Fatal): Daemon {
    if d.lastWorkdir.Some? && fatal == InCleanup then d.(log := d.log + [ChrootStop(d.cwd)], running := false)
    else CleanedUp(d)
  }

  function StopIf(d: Daemon, stop: bool): Daemon {
    if stop then d.(running := false) else d
  }

  predicate Stale(d: Daemon, workdir: Path, tag: string) {
    workdir in d.fs && d.fs[workdir].uuidPid != Some(tag)
  }

  /** A stale directory is renamed; a directory that is stale or not the last one requires cleanup. */
  function Claimed(d: Daemon, workdir: Path, tag: string, fatal: Fatal): Daemon {
    var d' := if Stale(d, workdir, tag) then d.(fs := d.fs - {workdir}) else d;
    if d.lastWorkdir != Some(workdir) || Stale(d, workdir, tag) then Cleaning(d', fatal) else d'
  }

  /** mkdir -p and chdir. */
  function Entered(d: Daemon, workdir: Path): Daemon {
    if workdir in d.fs then d.(cwd := d.fs[workdir].id)
    else d.(fs := d.fs[workdir := Dir(d.nextId, None, None)], cwd := d.nextId, nextId := d.nextId + 1)
  }

  function Started(d: Daemon, workdir: Path, starts: bool, fatal: Fatal): Daemon {
    if d.lastWorkdir == Some(workdir) then d
    else
      var d' := d.(log := d.log + [ChrootStart(d.cwd, starts)]);
      if fatal == AfterStart then d'.(running := false)
      else if starts then d'.(lastWorkdir := Some(workdir))
      else d'
  }

  /**
   From the claim to the start of the chroot. The daemon has ended, or is ready for the tasks, or goes on
   without them.
   */
  function ReadyForTasks(d: Daemon, workdir: Path, tag: string, starts: bool, fatal: Fatal): Daemon {
    var d' := Claimed(d, workdir, tag, fatal);
    if !d'.running then d'
    else if fatal == AfterCleanup then d'.(running := false)
    else if fatal == OnEntering then Entered(d', workdir).(running := false, cwd := d'.cwd)
    else Started(Entered(d', workdir), workdir, starts, fatal)
  }

  function CompileResult(dir: Dir, t: Task): Compiling {
    if dir.compiled.Some? then Reused(dir.compiled.value) else if t.compiles then Success else Failure
  }

  function JudgedOne(d: Daemon, workdir: Path, tag: string, t: Task): Daemon
    requires workdir in d.fs
  {
    var dir := d.fs[workdir];
    var c := CompileResult(dir, t);
    d.(log := d.log + [Judge(dir.id, tag, c)],
       fs := if c == Success then d.fs[workdir := dir.(compiled := Some(tag))] else d.fs)
  }

  /** Tasks are judged in order until one fails. */
  function JudgedAll(d: Daemon, workdir: Path, tag: string, tasks: seq<Task>): Daemon
    requires workdir in d.fs
    decreases |tasks|
  {
    if tasks == [] then d
    else
      var d' := JudgedOne(d, workdir, tag, tasks[0]);
      if CompileResult(d.fs[workdir], tasks[0]) != Failure && tasks[0].succeeds
      then JudgedAll(d', workdir, tag, tasks[1..]) else d'
  }

  function Marked(d: Daemon, workdir: Path, tag: string): Daemon
    requires workdir in d.fs
  {
    d.(fs := d.fs[workdir := d.fs[workdir].(uuidPid := Some(tag))])
  }

  function Ended(d: Daemon, workdir: Path, tag: string, signalled: bool, fatal: Fatal): Daemon
    requires workdir in d.fs
  {
    if fatal == InTasks then d.(running := false) else StopIf(Marked(d, workdir, tag), signalled)
  }

  lemma JudgedAllKeepsDir(d: Daemon, workdir: Path, tag: string, tasks: seq<Task>)
    requires workdir in d.fs
    ensures workdir in JudgedAll(d, workdir, tag, tasks).fs
    decreases |tasks|
  {
    if tasks != [] {
      JudgedAllKeepsDir(JudgedOne(d, workdir, tag, tasks[0]), workdir, tag, tasks[1..]);
    }
  }

  predicate RenameFails(d: Daemon, w: Work) {
    w.Batch? && Stale(d, Path(d.current, w.submitid, w.jobid), Tag(w.uuid, d.pid)) && !w.renames
  }

  lemma ReadyHasDir(d: Daemon, workdir: Path, tag: string, starts: bool, fatal: Fatal)
    requires d.running && ReadyForTasks(d, workdir, tag, starts, fatal).running
    ensures workdir in ReadyForTasks(d, workdir, tag, starts, fatal).fs
  {
  }

  function BatchDone(d: Daemon, w: Work, fatal: Fatal): Daemon
    requires w.Batch? && d.running
  {
    var workdir := Path(d.current, w.submitid, w.jobid);
    var tag := Tag(w.uuid, d.pid);
    if RenameFails(d, w) then
      d.(fs := d.fs[workdir := d.fs[workdir].(uuidPid := None)], running := false)
    else
      var d' := ReadyForTasks(d, workdir, tag, w.starts, fatal);
      if !d'.running || d'.lastWorkdir != Some(workdir) then d'
      else
        ReadyHasDir(d, workdir, tag, w.starts, fatal);
        JudgedAllKeepsDir(d', workdir, tag, w.tasks);
        Ended(JudgedAll(d', workdir, tag, w.tasks), workdir, tag, w.signalled, fatal)
  }

  // ----- one pass of the loop

  function SetEndpoint(d: Daemon, e: Endpoint): Daemon
    requires d.current < |d.endpoints|
  {
    d.(endpoints := d.endpoints[d.current := e])
  }

  /** What the branches without a batch do after their cleanup may fail. */
  function CleanedAfter(d: Daemon, fatal: Fatal): Daemon {
    StopIf(Cleaning(d, fatal), fatal == AfterCleanup)
  }

  function Worked(d: Daemon, w: Work, fatal: Fatal): Daemon
    requires d.current < |d.endpoints| && d.running
  {
    var e := d.endpoints[d.current];
    match w
    case FetchError => SetEndpoint(d, e.(errorred := true))
    case NoWork => if e.waiting then d else CleanedAfter(SetEndpoint(d, e.(waiting := true)), fatal)
    case TryAgain => SetEndpoint(d, e.(waiting := false, retrying := true))
    case Prefetch => CleanedAfter(SetEndpoint(d, e.(waiting := false, retrying := false)), fatal)
    case DebugInfo => CleanedAfter(SetEndpoint(d, e.(waiting := false, retrying := false)), fatal)
    case Batch(_, _, _, _, _, _, _) => BatchDone(SetEndpoint(d, e.(waiting := false, retrying := false)), w, fatal)
  }

  predicate Fits(d: Daemon, input: Input) {
    d.current < |d.endpoints| && |input.registrations| == |d.endpoints|
  }

  /** Up to the moment when the daemon asks for work. */
  function Prepared(d: Daemon, input: Input): (d': Daemon)
    requires Fits(d, input)
  {
    var d1 := Advanced(Waited(d, input.registrations));
    if d1.endpoints[d1.current].waiting then d1 else DiskCleaned(d1, input.removals)
  }

  function Step(d: Daemon, input: Input): Daemon
    requires Fits(d, input)
  {
    if !d.running then d
    else
      var d1 := Advanced(Waited(d, input.registrations));
      if input.exitSignalled then d1.(running := false)
      else if d1.endpoints[d1.current].errorred then d1
      else if input.fatal == BeforeWork then Prepared(d, input).(running := false)
      else Worked(Prepared(d, input), input.work, input.fatal)
  }
}
