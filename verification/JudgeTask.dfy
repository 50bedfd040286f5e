/**
 The judging of one test case in passes, and the requests that the judgedaemon sends.
 */
module JudgeTask {

  // ----- passes

  datatype Verdict = Correct | Incorrect | CompareError | UnknownExitcode

  /** What a pass yields: its verdict, and whether the validator left input for another pass. */
  datatype Pass = Pass(verdict: Verdict, nextInput: bool)

  /** The input of a pass: that of the test case, or what the given pass left. */
  datatype Input = TestcaseInput | LeftBy(pass: nat)

  /** What becomes of the judge task; the number is that of the pass whose run is reported. */
  datatype Outcome =
    | Accepted(pass: nat)
    | Rejected(pass: nat)
    | CompareScriptFailed(pass: nat)
    | TooManyPasses
    | Crashed(pass: nat)

  predicate Continues(p: Pass) {
    p.verdict == Correct && p.nextInput
  }

  /** Pass n is run exactly if all passes before it ask for another one. */
  ghost predicate Reached(run: nat -> Pass, n: nat) {
    forall k :: 1 <= k < n ==> Continues(run(k))
  }

  function Judged(n: nat, p: Pass): Outcome
    requires !Continues(p)
  {
    match p.verdict
    case Correct => Accepted(n)
    case Incorrect => Rejected(n)
    case CompareError => CompareScriptFailed(n)
    case UnknownExitcode => Crashed(n)
  }

  /**
   The pass that does not ask for another one decides. If even the last pass allowed asks for one,
   the compare script is to blame. Without any pass allowed, an empty run is reported.
   */
  method RunPasses(passLimit: nat, run: nat -> Pass) returns (outcome: Outcome, inputs: seq<Input>)
    ensures |inputs| <= passLimit && Reached(run, |inputs|)
    ensures forall k :: 0 <= k < |inputs| ==> inputs[k] == if k == 0 then TestcaseInput else LeftBy(k)
    ensures forall n :: 1 <= n <= passLimit && Reached(run, n) && !Continues(run(n)) ==>
              outcome == Judged(n, run(n)) && |inputs| == n
    ensures forall k :: 1 <= k < |inputs| ==> run(k) == Pass(Correct, true)
    ensures outcome.Accepted? ==> outcome.pass == |inputs| && run(|inputs|) == Pass(Correct, false)
    ensures outcome.Rejected? && passLimit > 0 ==> outcome.pass == |inputs| && run(|inputs|).verdict == Incorrect
    ensures outcome.CompareScriptFailed? ==> outcome.pass == |inputs| && run(|inputs|).verdict == CompareError
    ensures outcome.Crashed? ==> outcome.pass == |inputs| && run(|inputs|).verdict == UnknownExitcode
    ensures outcome == TooManyPasses <==> passLimit > 0 && Reached(run, passLimit + 1)
    ensures outcome == TooManyPasses ==> |inputs| == passLimit
    ensures passLimit == 0 ==> outcome == Rejected(0)
  {
    inputs := [];
    var passCnt, nextPass, result := 1, false, Incorrect;
    var input := TestcaseInput;
    while passCnt <= passLimit
      invariant 1 <= passCnt <= passLimit + 1 && |inputs| == passCnt - 1
      invariant Reached(run, passCnt)
      invariant forall k :: 0 <= k < |inputs| ==> inputs[k] == if k == 0 then TestcaseInput else LeftBy(k)
      invariant input == if passCnt == 1 then TestcaseInput else LeftBy(passCnt - 1)
      invariant nextPass == (passCnt > 1) && (passCnt == 1 ==> result == Incorrect)
    {
      nextPass := false;
      inputs := inputs + [input];
      var pass := run(passCnt);
      result := pass.verdict;
      if pass.verdict == UnknownExitcode {
        return Crashed(passCnt), inputs;
      }
      if pass.verdict == CompareError {
        return CompareScriptFailed(passCnt), inputs;
      }
      if pass.verdict != Correct {
        break;
      }
      if pass.nextInput {
        input := LeftBy(passCnt);
        nextPass := true;
      } else {
        break;
      }
      passCnt := passCnt + 1;
    }
    if nextPass {
      return TooManyPasses, inputs;
    }
    outcome := if result == Correct then Accepted(|inputs|) else Rejected(|inputs|);
  }

  // ----- requests

  datatype Reply = Unreachable | Status(code: int)

  /** The answer of a request: the reply to the given trial, none after an error, or the end of the daemon. */
  datatype Answer = Response(trial: nat) | NoAnswer | Died

  predicate Success(r: Reply) {
    r.Status? && 200 <= r.code < 300
  }

  /** A reply after which the request is not repeated. */
  predicate Final(r: Reply) {
    Success(r) || r == Status(401)
  }

  ghost predicate Tried(replies: nat -> Reply, n: nat) {
    forall k :: 1 <= k < n ==> !Final(replies(k))
  }

  /** The delay after trial n + 1, apart from the jitter. */
  function Delay(initial: real, factor: real, n: nat): real {
    if n == 0 then initial else Delay(initial, factor, n - 1) * factor
  }

  function Delays(initial: real, factor: real, n: nat): real {
    if n == 0 then 0.0 else Delays(initial, factor, n - 1) + Delay(initial, factor, n - 1)
  }

  function Jitters(jitter: nat -> real, n: nat): real {
    if n == 0 then 0.0 else Jitters(jitter, n - 1) + jitter(n)
  }

  /** The time slept between n trials. */
  function Slept(initial: real, factor: real, jitter: nat -> real, n: nat): real {
    if n == 0 then 0.0 else Delays(initial, factor, n - 1) + Jitters(jitter, n - 1)
  }

  /** The delays form a geometric series. */
  lemma {:induction false} DelaysClosedForm(initial: real, factor: real, n: nat)
    ensures (factor - 1.0) * Delays(initial, factor, n) == Delay(initial, factor, n) - initial
  {
    if n > 0 {
      DelaysClosedForm(initial, factor, n - 1);
      var d, s := Delay(initial, factor, n - 1), Delays(initial, factor, n - 1);
      assert (factor - 1.0) * (s + d) == (factor - 1.0) * s + (factor - 1.0) * d;
    }
  }

  function Power(x: real, n: nat): real {
    if n == 0 then 1.0 else Power(x, n - 1) * x
  }

  lemma {:induction false} DelayIsPower(initial: real, factor: real, n: nat)
    ensures Delay(initial, factor, n) == initial * Power(factor, n)
  {
    if n > 0 {
      DelayIsPower(initial, factor, n - 1);
      var p := Power(factor, n - 1);
      assert (initial * p) * factor == initial * (p * factor);
    }
  }

  /** Nothing is slept before the first trial; before each further one the next delay with its jitter. */
  lemma SleptBeforeTrial(initial: real, factor: real, jitter: nat -> real, n: nat)
    ensures Slept(initial, factor, jitter, 0) == Slept(initial, factor, jitter, 1) == 0.0
    ensures n > 0 ==> Slept(initial, factor, jitter, n + 1) ==
                      Slept(initial, factor, jitter, n) + initial * Power(factor, n - 1) + jitter(n)
  {
    if n > 0 {
      DelayIsPower(initial, factor, n - 1);
    }
  }

  class Endpoint {
    var errorred: bool
    var waiting: bool

    constructor ()
      ensures !errorred && !waiting
    {
      errorred, waiting := false, false;
    }

    /**
     A request is repeated with growing delays until it succeeds, authentication fails or the steps
     are used up. A success clears the error of the endpoint; a failure marks it, or ends the daemon.
     */
    method Request(steps: nat, initial: real, factor: real, replies: nat -> Reply, jitter: nat -> real,
                   failOnError: bool)
      returns (answer: Answer, trials: nat, slept: real)
      modifies this
      ensures trials <= steps && Tried(replies, trials) && (trials == steps || Final(replies(trials)))
      ensures answer == if trials > 0 && Success(replies(trials)) then Response(trials) else
                if failOnError then Died else NoAnswer
      ensures trials < steps ==> replies(trials).Status? &&
                                 (200 <= replies(trials).code <= 299 || replies(trials).code == 401)
      ensures forall k :: 1 <= k < trials ==>
                replies(k).Status? ==> replies(k).code != 401 && !(200 <= replies(k).code <= 299)
      ensures answer.Response? <==>
                trials > 0 && replies(trials).Status? && 200 <= replies(trials).code <= 299
      ensures slept == Slept(initial, factor, jitter, trials)
      ensures errorred == if answer.Died? then old(errorred) else answer == NoAnswer
      ensures waiting == (old(waiting) && !(answer.Response? && old(errorred)))
    {
      trials, slept := 0, 0.0;
      var delay, succeeded := initial, false;
      while trials < steps
        invariant 0 <= trials <= steps && !succeeded && Tried(replies, trials + 1)
        invariant trials < steps ==> delay == Delay(initial, factor, trials)
        invariant slept == Slept(initial, factor, jitter, if trials < steps then trials + 1 else trials)
        invariant errorred == old(errorred) && waiting == old(waiting)
      {
        trials := trials + 1;
        var reply := replies(trials);
        if reply.Status? {
          if reply.code == 401 {
            break;
          } else if !(reply.code < 200 || reply.code >= 300) {
            succeeded := true;
            break;
          }
        }
        if trials < steps {
          slept := slept + (delay + jitter(trials));
          delay := delay * factor;
        }
      }
      if !succeeded {
        if failOnError {
          return Died, trials, slept;
        }
        errorred := true;
        return NoAnswer, trials, slept;
      }
      if errorred {
        errorred, waiting := false, false;
      }
      answer := Response(trials);
    }
  }
}
