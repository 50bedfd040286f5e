/**
 The state that runpipe itself keeps, and what its operations do to it. The step machine in
 RunpipeWorld and the class in Runpipe are both stated with these functions.
 */
module RunpipeProgram {
  import opened Transcript

  /** One of the two processes: 0 is the main process. */
  type Id = i: nat | i < 2

  function Other(i: Id): Id {
    1 - i
  }

  /** How a child ended, as its wait status tells. */
  datatype ExitInfo = Unknown | Code(code: nat) | Signal(signal: nat)

  /** inOpen: the pipe proxy -> process is open. outOpen: the pipe process -> proxy is open. */
  datatype Proc = Proc(pid: int, exited: bool, exitInfo: ExitInfo, inOpen: bool, outOpen: bool)

  datatype Program = Program(p0: Proc, p1: Proc, firstExit: int, timelimit: bool, total: nat, records: seq<Record>) {
    function At(i: Id): Proc {
      if i == 0 then p0 else p1
    }

    predicate EveryoneExited() {
      p0.exited && p1.exited
    }

    /** The exit code of runpipe: that of the main process, or -1. */
    function ExitCode(): int {
      if p0.exited && p0.exitInfo.Code? then p0.exitInfo.code else -1
    }

    predicate AnyoneExited() {
      p0.exited || p1.exited
    }

    /** The field written to the meta file. */
    predicate ValidatorExitedFirst() {
      firstExit == p0.pid
    }
  }

  function Start(pid0: int, pid1: int): Program {
    Program(Proc(pid0, false, Unknown, true, true), Proc(pid1, false, Unknown, true, true), -1, false, 0, [])
  }

  function ExitProc(q: Proc, pid: int, status: ExitInfo): Proc {
    if q.pid == pid then q.(exited := true, exitInfo := status) else q
  }

  /** No more data comes in; nothing more is taken from a process that exited. */
  function CloseFds(q: Proc): Proc {
    q.(inOpen := false, outOpen := q.outOpen && !q.exited)
  }

  function Reaped(p: Program, pid: int, status: ExitInfo): Program {
    p.(firstExit := if p.firstExit == -1 && !p.timelimit then pid else p.firstExit,
       p0 := CloseFds(ExitProc(p.p0, pid, status)),
       p1 := CloseFds(ExitProc(p.p1, pid, status)))
  }

  function Noticed(p: Program): Program {
    p.(timelimit := true)
  }

  /** One chunk read from process i and passed on. */
  function Copied(p: Program, i: Id, chunk: string, sec: nat, millis: nat): Program {
    p.(total := p.total + |chunk|, records := p.records + [Data(sec, millis, i, chunk)])
  }

  /** End of file on the output of process i. */
  function Ended(p: Program, i: Id, sec: nat, millis: nat): Program {
    p.(records := p.records + [Eof(sec, millis, i)],
       p0 := if i == 0 then p.p0.(outOpen := false) else p.p0.(inOpen := false),
       p1 := if i == 0 then p.p1.(inOpen := false) else p.p1.(outOpen := false))
  }

  // ----- what the records say about one direction

  function Part(r: Record, i: Id): string {
    if r.Data? && r.from == i then r.payload else ""
  }

  function Recorded(rs: seq<Record>, i: Id): string {
    if rs == [] then "" else Recorded(rs[..|rs| - 1], i) + Part(rs[|rs| - 1], i)
  }

  ghost predicate HasEof(rs: seq<Record>, i: Id) {
    exists k :: 0 <= k < |rs| && rs[k].Eof? && rs[k].from == i
  }

  /** No record of direction i follows an end-of-file record of direction i. */
  ghost predicate EofIsLast(rs: seq<Record>, i: Id) {
    forall k, l :: 0 <= k < l < |rs| && rs[k].Eof? && rs[k].from == i ==> rs[l].from != i
  }

  lemma RecordsAppend(rs: seq<Record>, r: Record, i: Id)
    ensures Recorded(rs + [r], i) == Recorded(rs, i) + Part(r, i)
    ensures HasEof(rs + [r], i) <==> HasEof(rs, i) || (r.Eof? && r.from == i)
    ensures EofIsLast(rs, i) && !(HasEof(rs, i) && r.from == i) ==> EofIsLast(rs + [r], i)
  {
    var rs' := rs + [r];
    assert rs'[..|rs|] == rs;
    assert rs'[|rs|] == r;
    if HasEof(rs, i) {
      var k :| 0 <= k < |rs| && rs[k].Eof? && rs[k].from == i;
      assert rs'[k] == rs[k];
    }
  }
}
