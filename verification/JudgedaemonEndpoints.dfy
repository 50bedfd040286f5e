/**
 How the judgedaemon goes around its endpoints: every endpoint has its turn, what a turn makes of its
 status, and how long a daemon without work sleeps.
 */
module JudgedaemonEndpoints {
  import opened Numbers
  import opened Wrappers
  import opened JudgedaemonState
  import opened JudgedaemonSafety

  // ----- one pass

  ghost predicate SameLoop(d: Daemon, d': Daemon) {
    d'.endpoints == d.endpoints && d'.current == d.current && d'.waittime == d.waittime
  }

  lemma {:induction false} JudgedAllSameLoop(d: Daemon, workdir: Path, tag: string, tasks: seq<Task>)
    requires workdir in d.fs
    ensures SameLoop(d, JudgedAll(d, workdir, tag, tasks))
    decreases |tasks|
  {
    if tasks != [] {
      JudgedAllSameLoop(JudgedOne(d, workdir, tag, tasks[0]), workdir, tag, tasks[1..]);
    }
  }

  lemma TasksSameLoop(d: Daemon, workdir: Path, tag: string, tasks: seq<Task>, signalled: bool, fatal: Fatal)
    requires workdir in d.fs
    ensures workdir in JudgedAll(d, workdir, tag, tasks).fs
    ensures SameLoop(d, Ended(JudgedAll(d, workdir, tag, tasks), workdir, tag, signalled, fatal))
  {
    JudgedAllKeepsDir(d, workdir, tag, tasks);
    JudgedAllSameLoop(d, workdir, tag, tasks);
  }

  lemma ClaimedSameLoop(d: Daemon, workdir: Path, tag: string, fatal: Fatal)
    ensures SameLoop(d, Claimed(d, workdir, tag, fatal))
  {
  }

  lemma EnteredSameLoop(d: Daemon, workdir: Path)
    ensures SameLoop(d, Entered(d, workdir))
  {
  }

  lemma StartedSameLoop(d: Daemon, workdir: Path, starts: bool, fatal: Fatal)
    ensures SameLoop(d, Started(d, workdir, starts, fatal))
  {
  }

  lemma ReadySameLoop(d: Daemon, workdir: Path, tag: string, starts: bool, fatal: Fatal)
    ensures SameLoop(d, ReadyForTasks(d, workdir, tag, starts, fatal))
  {
    var d' := Claimed(d, workdir, tag, fatal);
    ClaimedSameLoop(d, workdir, tag, fatal);
    EnteredSameLoop(d', workdir);
    StartedSameLoop(Entered(d', workdir), workdir, starts, fatal);
  }

  lemma AfterReadySameLoop(d: Daemon, w: Work, fatal: Fatal, d': Daemon)
    requires w.Batch? && d.running && !RenameFails(d, w)
    requires d' == ReadyForTasks(d, Path(d.current, w.submitid, w.jobid), Tag(w.uuid, d.pid), w.starts, fatal)
    ensures SameLoop(d', BatchDone(d, w, fatal))
  {
    var workdir, tag := Path(d.current, w.submitid, w.jobid), Tag(w.uuid, d.pid);
    if d'.running && d'.lastWorkdir == Some(workdir) {
      ReadyHasDir(d, workdir, tag, w.starts, fatal);
      TasksSameLoop(d', workdir, tag, w.tasks, w.signalled, fatal);
    }
  }

  lemma BatchDoneSameLoop(d: Daemon, w: Work, fatal: Fatal)
    requires w.Batch? && d.running
    ensures SameLoop(d, BatchDone(d, w, fatal))
  {
    if !RenameFails(d, w) {
      var workdir, tag := Path(d.current, w.submitid, w.jobid), Tag(w.uuid, d.pid);
      ReadySameLoop(d, workdir, tag, w.starts, fatal);
      AfterReadySameLoop(d, w, fatal, ReadyForTasks(d, workdir, tag, w.starts, fatal));
    }
  }

  /** Work changes nothing of the loop but the status of the current endpoint. */
  lemma WorkedLoop(d: Daemon, w: Work, fatal: Fatal)
    requires d.current < |d.endpoints| && d.running
    ensures var e, d' := d.endpoints[d.current], Worked(d, w, fatal);
            && d'.current == d.current && d'.waittime == d.waittime
            && d'.endpoints == d.endpoints[d.current := Endpoint(
                 w.NoWork? || (w.FetchError? && e.waiting),
                 w.FetchError? || e.errorred,
                 w.TryAgain? || ((w.FetchError? || w.NoWork?) && e.retrying))]
  {
    var e := d.endpoints[d.current];
    if w.Batch? {
      BatchDoneSameLoop(SetEndpoint(d, e.(waiting := false, retrying := false)), w, fatal);
    }
  }

  lemma OneOn(c: nat, n: nat)
    requires c < n
    ensures (c + 1) % n == if c + 1 < n then c + 1 else 0
  {
  }

  lemma PreparedTurns(d: Daemon, input: Input)
    requires Fits(d, input)
    ensures var p := Prepared(d, input);
            && p.endpoints == RegisterFrom(d.endpoints, input.registrations, 0)
            && p.current == if d.current + 1 < |d.endpoints| then d.current + 1 else 0
  {
    OneOn(d.current, |d.endpoints|);
  }

  /** A pass of a running daemon is the turn of the next endpoint, whatever becomes of it. */
  lemma StepTurns(d: Daemon, input: Input)
    requires Fits(d, input) && d.running
    ensures |Step(d, input).endpoints| == |d.endpoints|
    ensures Step(d, input).current == if d.current + 1 < |d.endpoints| then d.current + 1 else 0
  {
    PreparedTurns(d, input);
    if GetsToWork(d, input) {
      WorkedLoop(Prepared(d, input), input.work, input.fatal);
    }
  }

  // ----- the status of an endpoint

  /** The endpoint is in error, and all endpoints before it are waiting. */
  ghost predicate GetsToRegister(d: Daemon, j: nat)
    requires j < |d.endpoints|
  {
    d.endpoints[j].errorred && forall i :: 0 <= i < j ==> d.endpoints[i].waiting
  }

  lemma {:induction false} RegisterFromAt(es: seq<Endpoint>, rs: seq<Registration>, k: nat, j: nat)
    requires k <= |es| && |rs| == |es| && j < |es|
    ensures RegisterFrom(es, rs, k)[j] ==
            if k <= j && es[j].errorred && (forall i :: k <= i < j ==> es[i].waiting) then Register(es[j], rs[j])
            else es[j]
    decreases |es| - k
  {
    if k < |es| && es[k].waiting {
      var es' := if es[k].errorred then es[k := Register(es[k], rs[k])] else es;
      RegisterFromAt(es', rs, k + 1, j);
      if i :| k < i < j && !es'[i].waiting {
        assert !es[i].waiting;
      } else {
        forall i | k < i < j ensures es[i].waiting {
          assert es'[i].waiting;
        }
      }
    }
  }

  /**
   What a pass makes of the status of an endpoint. It is in error exactly if fetching work from it failed
   just now, or it was and has not registered again.
   */
  lemma StatusAfterPass(d: Daemon, input: Input, j: nat)
    requires Fits(d, input) && d.running && j < |d.endpoints| == |Step(d, input).endpoints|
    ensures var e, e' := d.endpoints[j], Step(d, input).endpoints[j];
            var turn := GetsToWork(d, input) && Step(d, input).current == j;
            var r := if GetsToRegister(d, j) then Some(input.registrations[j]) else None;
            && (e'.errorred <==> (turn && input.work.FetchError?) || (e.errorred && r != Some(Registered)))
            && (e'.waiting <==>
                  if turn && !input.work.FetchError? then input.work.NoWork?
                  else r == Some(Throttled) || (e.waiting && r != Some(Registered)))
            && (e'.retrying <==>
                  if turn && !input.work.FetchError? && !input.work.NoWork? then input.work.TryAgain? else e.retrying)
  {
    PreparedTurns(d, input);
    RegisterFromAt(d.endpoints, input.registrations, 0, j);
    StepTurns(d, input);
    if GetsToWork(d, input) {
      WorkedLoop(Prepared(d, input), input.work, input.fatal);
    }
  }

  // ----- turns over a run

  ghost predicate Passes(events: seq<Event>) {
    forall ev :: ev in events ==> ev.Pass?
  }

  lemma {:induction false} EndedStays(d: Daemon, events: seq<Event>)
    requires Passes(events) && Run(d, events).Some? && !d.running
    ensures Run(d, events) == Some(d)
    decreases |events|
  {
    if events != [] {
      assert events[0] in events;
      EndedStays(After(d, events[0]), events[1..]);
    }
  }

  /** The endpoint k turns after endpoint c. */
  function Around(c: nat, n: nat, k: nat): nat
    decreases k
  {
    if k == 0 then c else Around(if c + 1 < n then c + 1 else 0, n, k - 1)
  }

  lemma ScaleInt(a: int, b: int, n: nat)
    requires a <= b
    ensures a * n <= b * n
  {
  }

  lemma StepLarger(a: int, b: int, n: nat)
    requires a < b
    ensures a * n + n <= b * n
  {
    ScaleInt(a + 1, b, n);
    assert (a + 1) * n == a * n + n;
  }

  /** The quotient and the remainder of a division are the only ones. */
  lemma DivisionUnique(q: int, r: nat, q': int, r': nat, n: nat)
    requires r < n && r' < n && q * n + r == q' * n + r'
    ensures r == r'
  {
    if q > q' {
      StepLarger(q', q, n);
    } else if q < q' {
      StepLarger(q, q', n);
    }
  }

  lemma OnceAroundMore(x: nat, n: nat)
    requires n > 0
    ensures (x + n) % n == x % n
  {
    var q, q' := x / n, (x + n) / n;
    assert x == q * n + x % n && x + n == q' * n + (x + n) % n;
    assert (q + 1) * n == q * n + n;
    DivisionUnique(q + 1, x % n, q', (x + n) % n, n);
  }

  lemma {:induction false} AroundIsModulo(c: nat, n: nat, k: nat)
    requires c < n
    ensures Around(c, n, k) == (c + k) % n
    decreases k
  {
    if k > 0 {
      if c + 1 < n {
        AroundIsModulo(c + 1, n, k - 1);
      } else {
        AroundIsModulo(0, n, k - 1);
        OnceAroundMore(k - 1, n);
        assert c + k == k - 1 + n;
      }
    }
  }

  lemma AroundModulo(c: nat, n: nat, k: nat, r: nat)
    requires c < n && r == Around(c, n, k)
    ensures r == (c + k) % n
  {
    AroundIsModulo(c, n, k);
  }

  lemma {:induction false} AroundOnce(c: nat, n: nat, k: nat)
    requires c < n && k <= n
    ensures Around(c, n, k) == if c + k < n then c + k else c + k - n
    decreases k
  {
    if k > 0 {
      AroundOnce(if c + 1 < n then c + 1 else 0, n, k - 1);
    }
  }

  lemma {:induction false} GoesAround(d: Daemon, events: seq<Event>, d': Daemon)
    requires Passes(events) && Run(d, events) == Some(d') && d'.running && d.current < |d.endpoints|
    ensures d.running && |d'.endpoints| == |d.endpoints|
    ensures d'.current == Around(d.current, |d.endpoints|, |events|)
    decreases |events|
  {
    if events != [] {
      assert events[0] in events;
      if !d.running {
        EndedStays(d, events);
      }
      StepTurns(d, events[0].input);
      GoesAround(Step(d, events[0].input), events[1..], d');
    }
  }

  /** After k passes the daemon is k endpoints on, around the circle. */
  lemma Turns(d: Daemon, events: seq<Event>, d': Daemon)
    requires Passes(events) && Run(d, events) == Some(d') && d'.running && d.current < |d.endpoints|
    ensures |d'.endpoints| == |d.endpoints| && d'.current == (d.current + |events|) % |d.endpoints|
  {
    GoesAround(d, events, d');
    AroundModulo(d.current, |d.endpoints|, |events|, d'.current);
  }

  lemma {:induction false} RunSplits(d: Daemon, events: seq<Event>, k: nat)
    requires k <= |events| && Run(d, events).Some?
    ensures Run(d, events[..k]).Some? && Run(Run(d, events[..k]).value, events[k..]) == Run(d, events)
    decreases |events|
  {
    if k == 0 {
      assert events[..k] == [] && events[k..] == events;
    } else {
      RunSplits(After(d, events[0]), events[1..], k - 1);
      assert events[..k][0] == events[0] && events[..k][1..] == events[1..][..k - 1];
      assert events[1..][k - 1..] == events[k..];
    }
  }

  /** The endpoint whose turn it is in pass k of a run. */
  ghost function TurnOf(d: Daemon, events: seq<Event>, k: nat): (current: nat)
    requires k < |events| && Run(d, events).Some?
  {
    RunSplits(d, events, k + 1);
    Run(d, events[..k + 1]).value.current
  }

  lemma TurnAt(d: Daemon, events: seq<Event>, k: nat)
    requires k < |events| && Passes(events) && Run(d, events).Some? && Run(d, events).value.running
    requires d.current < |d.endpoints|
    ensures TurnOf(d, events, k) == Around(d.current, |d.endpoints|, k + 1)
  {
    RunSplits(d, events, k + 1);
    var mid := Run(d, events[..k + 1]).value;
    assert forall ev :: ev in events[..k + 1] ==> ev in events;
    assert forall ev :: ev in events[k + 1..] ==> ev in events;
    if !mid.running {
      EndedStays(mid, events[k + 1..]);
    }
    GoesAround(d, events[..k + 1], mid);
  }

  /** In as many passes as there are endpoints every endpoint has its turn exactly once. */
  lemma EveryEndpointOnce(d: Daemon, events: seq<Event>, e: nat) returns (k: nat)
    requires Passes(events) && Run(d, events).Some? && Run(d, events).value.running
    requires d.current < |d.endpoints| == |events| && e < |d.endpoints|
    ensures k < |events| && forall j: nat :: j < |events| ==> (TurnOf(d, events, j) == e <==> j == k)
  {
    var c, n := d.current, |d.endpoints|;
    k := if e > c then e - c - 1 else e + n - c - 1;
    forall j: nat | j < |events| ensures TurnOf(d, events, j) == e <==> j == k {
      TurnAt(d, events, j);
      AroundOnce(c, n, j + 1);
    }
  }

  // ----- waiting for work

  /** As soon as an endpoint does not wait, the next sleep is the shortest again. */
  lemma WorkShortensSleep(d: Daemon, input: Input)
    requires Fits(d, input) && d.running && !AllWaiting(d.endpoints)
    ensures Step(d, input).waittime == INITIAL_WAITTIME
  {
    if GetsToWork(d, input) {
      WorkedLoop(Prepared(d, input), input.work, input.fatal);
    }
  }

  /** A pass in which nobody registers and there is no work. */
  predicate Idle(input: Input) {
    && !input.exitSignalled && input.work.NoWork? && input.fatal.Never?
    && forall r :: r in input.registrations ==> !r.Registered?
  }

  ghost predicate IdlePasses(events: seq<Event>) {
    forall ev :: ev in events ==> ev.Pass? && Idle(ev.input)
  }

  lemma {:induction false} NobodyRegisters(es: seq<Endpoint>, rs: seq<Registration>, k: nat)
    requires k <= |es| && |rs| == |es| && AllWaiting(es) && forall r :: r in rs ==> !r.Registered?
    ensures RegisterFrom(es, rs, k) == es
    decreases |es| - k
  {
    if k < |es| {
      assert es[k] in es && rs[k] in rs;
      assert es[k := es[k]] == es;
      NobodyRegisters(es, rs, k + 1);
    }
  }

  /** The daemon k endpoints on, with one sleep if it came past the first endpoint. */
  function Idled(d: Daemon, k: nat, slept: bool): Daemon {
    d.(current := Around(d.current, |d.endpoints|, k),
       log := if slept then d.log + [Sleep(d.waittime)] else d.log,
       waittime := if slept then Min(d.waittime * 2, MAXIMAL_WAITTIME) else d.waittime)
  }

  lemma IdleStep(d: Daemon, input: Input)
    requires Fits(d, input) && d.running && AllWaiting(d.endpoints) && Idle(input)
    ensures Step(d, input) == Idled(d, 1, d.current == 0)
  {
    NobodyRegisters(d.endpoints, input.registrations, 0);
    PreparedTurns(d, input);
    assert Prepared(d, input).endpoints[Prepared(d, input).current] in d.endpoints;
    assert Around(d.current, |d.endpoints|, 1) == Prepared(d, input).current;
  }

  ghost predicate CanIdle(d: Daemon, events: seq<Event>) {
    && d.running && AllWaiting(d.endpoints) && d.current < |d.endpoints|
    && IdlePasses(events) && Run(d, events).Some?
  }

  lemma IdledMore(d: Daemon, k: nat)
    requires d.current + 1 + k <= |d.endpoints|
    ensures var d1 := Idled(d, 1, d.current == 0);
            d1.current + k <= |d.endpoints| && d1.current < |d.endpoints|
            && Idled(d1, k, d1.current == 0 && k > 0) == Idled(d, k + 1, d.current == 0)
  {
    assert Around(d.current, |d.endpoints|, 1) == if d.current + 1 < |d.endpoints| then d.current + 1 else 0;
  }

  /** Up to the end of the round. */
  lemma {:induction false} IdleRun(d: Daemon, events: seq<Event>)
    requires CanIdle(d, events) && d.current + |events| <= |d.endpoints|
    ensures Run(d, events) == Some(Idled(d, |events|, d.current == 0 && events != []))
    decreases |events|
  {
    if events != [] {
      assert events[0] in events;
      IdleStep(d, events[0].input);
      IdledMore(d, |events| - 1);
      assert forall ev :: ev in events[1..] ==> ev in events;
      IdleRun(Idled(d, 1, d.current == 0), events[1..]);
    }
  }

  /** The daemon after one sleep. */
  function Sleeps(d: Daemon): Daemon {
    d.(log := d.log + [Sleep(d.waittime)], waittime := Min(d.waittime * 2, MAXIMAL_WAITTIME))
  }

  lemma IdleFromFirst(d: Daemon, events: seq<Event>)
    requires CanIdle(d, events) && d.current == 0 && 0 < |events| <= |d.endpoints|
    ensures Run(d, events) == Some(Sleeps(d).(current := if |events| < |d.endpoints| then |events| else 0))
  {
    IdleRun(d, events);
    AroundOnce(0, |d.endpoints|, |events|);
  }

  lemma IdleToFirst(d: Daemon, events: seq<Event>)
    requires CanIdle(d, events) && 0 < d.current && d.current + |events| == |d.endpoints|
    ensures Run(d, events) == Some(d.(current := 0))
  {
    IdleRun(d, events);
    AroundOnce(d.current, |d.endpoints|, |events|);
  }

  lemma IdleSplit(d: Daemon, events: seq<Event>, k: nat)
    requires CanIdle(d, events) && k <= |events|
    ensures CanIdle(d, events[..k]) && IdlePasses(events[k..])
    ensures Run(Run(d, events[..k]).value, events[k..]) == Run(d, events)
  {
    RunSplits(d, events, k);
    assert forall ev :: ev in events[..k] ==> ev in events;
    assert forall ev :: ev in events[k..] ==> ev in events;
  }

  /** Once around while all endpoints wait: one sleep, and the next one is twice as long, up to the maximum. */
  lemma IdleCycle(d: Daemon, events: seq<Event>)
    requires CanIdle(d, events) && |events| == |d.endpoints|
    ensures Run(d, events) == Some(Sleeps(d))
  {
    var k := |d.endpoints| - d.current;
    if d.current == 0 {
      IdleFromFirst(d, events);
    } else {
      IdleSplit(d, events, k);
      IdleToFirst(d, events[..k]);
      IdleFromFirst(d.(current := 0), events[k..]);
    }
  }

  function Pow2(k: nat): (p: nat)
    ensures p >= 1
  {
    if k == 0 then 1 else 2 * Pow2(k - 1)
  }

  /** The k-th sleep of a daemon that finds no work. */
  function WaitOf(waittime: nat, k: nat): nat {
    Min(waittime * Pow2(k), MAXIMAL_WAITTIME)
  }

  lemma WaitOn(waittime: nat, k: nat)
    requires waittime <= MAXIMAL_WAITTIME
    ensures WaitOf(waittime, 0) == waittime
    ensures WaitOf(Min(waittime * 2, MAXIMAL_WAITTIME), k) == WaitOf(waittime, k + 1)
  {
    assert waittime * 2 * Pow2(k) == waittime * Pow2(k + 1);
    if waittime * 2 >= MAXIMAL_WAITTIME {
      ScaleInt(MAXIMAL_WAITTIME, waittime * 2, Pow2(k));
      ScaleInt(1, Pow2(k), MAXIMAL_WAITTIME);
    }
  }

  function Sleepings(waittime: nat, m: nat): (acts: seq<Act>)
    ensures |acts| == m && forall k :: 0 <= k < m ==> acts[k] == Sleep(WaitOf(waittime, k))
  {
    seq(m, k requires 0 <= k < m => Sleep(WaitOf(waittime, k)))
  }

  lemma SleepingsOn(waittime: nat, m: nat)
    requires waittime <= MAXIMAL_WAITTIME && m > 0
    ensures Sleepings(waittime, m) ==
              [Sleep(waittime)] + Sleepings(Min(waittime * 2, MAXIMAL_WAITTIME), m - 1)
    ensures WaitOf(Min(waittime * 2, MAXIMAL_WAITTIME), m - 1) == WaitOf(waittime, m)
  {
    WaitOn(waittime, 0);
    forall k: nat ensures WaitOf(Min(waittime * 2, MAXIMAL_WAITTIME), k) == WaitOf(waittime, k + 1) {
      WaitOn(waittime, k);
    }
  }

  lemma OneRoundLess(m: nat, n: nat)
    requires m > 0
    ensures m * n == n + (m - 1) * n && n <= m * n
  {
    ScaleInt(1, m, n);
  }

  lemma MoreActs(log: seq<Act>, a: Act, more: seq<Act>)
    ensures log + ([a] + more) == (log + [a]) + more
  {
  }

  /** m times around: m sleeps, each twice as long as the one before, up to the maximum. */
  lemma {:induction false} IdleCycles(d: Daemon, events: seq<Event>, m: nat)
    requires CanIdle(d, events) && d.waittime <= MAXIMAL_WAITTIME && |events| == m * |d.endpoints|
    ensures Run(d, events) ==
            Some(d.(log := d.log + Sleepings(d.waittime, m), waittime := WaitOf(d.waittime, m)))
    decreases m
  {
    WaitOn(d.waittime, 0);
    if m == 0 {
      assert events == [] && d.log + Sleepings(d.waittime, 0) == d.log;
    } else {
      var n := |d.endpoints|;
      OneRoundLess(m, n);
      IdleSplit(d, events, n);
      IdleCycle(d, events[..n]);
      IdleCycles(Sleeps(d), events[n..], m - 1);
      SleepingsOn(d.waittime, m);
      MoreActs(d.log, Sleep(d.waittime), Sleepings(Sleeps(d).waittime, m - 1));
    }
  }
}
