// resource-guard.py, lines 318-369: judging a round, the reason and exit code, the
// report.
module Verdicts {
  import opened Options
  import opened Processes
  import opened World
  import opened Sampling

  const SIGTERM_NUMBER: nat := 15

  // ---- Judging a sample ----

  datatype Reason =
    | Completed | MemoryLimit | Cancelled | Timeout | Orphaned | WorkerFailed
    | GuardError | CleanupFailed

  // One completed sample and what the loop looks at after it.
  datatype Round = Round(current: nat, moment: Moment, elapsed: nat, returned: Option<int>, survivors: set<Pid>)

  ghost predicate InLimits(r: Round, limit: nat, timeout: nat) {
    r.current <= limit && r.moment.interrupt == None && !r.moment.parentGone && r.elapsed < timeout
  }

  // The leader returned zero and left nothing behind, inside every limit.
  ghost predicate Clean(r: Round, limit: nat, timeout: nat) {
    InLimits(r, limit, timeout) && r.returned == Some(0) && r.survivors == {}
  }

  // The checks of the loop before it polls the leader, in order.
  function JudgeLimits(r: Round, limit: nat, timeout: nat): Option<(Reason, int)> {
    if r.current > limit then Some((MemoryLimit, 125))
    else if r.moment.interrupt.Some? || r.moment.parentGone then
      Some((Cancelled, 128 + if r.moment.interrupt.Some? then r.moment.interrupt.value else SIGTERM_NUMBER))
    else if r.elapsed >= timeout then Some((Timeout, 124))
    else None
  }

  // A worker ended by a signal has a negative return code.
  function ExitCode(returned: int): (code: int)
    ensures code == 0 <==> returned == 0
    ensures code >= 0
  {
    if returned >= 0 then returned else 128 - returned
  }

  // Why the loop ended: what the last round must look like for each reason and code.
  ghost predicate Explains(reason: Reason, code: int, last: Option<Round>, limit: nat, timeout: nat) {
    match last
    case None => reason == GuardError && code == 126
    case Some(r) =>
      match reason
      case MemoryLimit => code == 125 && r.current > limit
      case Cancelled =>
        && r.current <= limit && (r.moment.interrupt.Some? || r.moment.parentGone)
        && code == if r.moment.interrupt.Some? then 128 + r.moment.interrupt.value else 143
      case Timeout =>
        code == 124 && r.current <= limit && r.moment.interrupt == None && !r.moment.parentGone && r.elapsed >= timeout
      case Orphaned => code == 126 && InLimits(r, limit, timeout) && r.returned.Some? && r.survivors != {}
      case WorkerFailed =>
        && InLimits(r, limit, timeout) && r.survivors == {}
        && r.returned.Some? && r.returned.value != 0
        && code == if r.returned.value > 0 then r.returned.value else 128 - r.returned.value
      case Completed => code == 0 && Clean(r, limit, timeout)
      case _ => false
  }

  lemma LimitsExplain(r: Round, limit: nat, timeout: nat)
    ensures var verdict := JudgeLimits(r, limit, timeout);
            if verdict == None then InLimits(r, limit, timeout)
            else Explains(verdict.value.0, verdict.value.1, Some(r), limit, timeout)
                 && (verdict.value.0 == MemoryLimit <==> r.current > limit)
  {
  }

  lemma EndExplains(r: Round, code: int, limit: nat, timeout: nat)
    requires InLimits(r, limit, timeout) && r.returned.Some? && code == ExitCode(r.returned.value)
    ensures if r.survivors == {}
            then Explains(if code == 0 then Completed else WorkerFailed, code, Some(r), limit, timeout)
            else Explains(Orphaned, 126, Some(r), limit, timeout)
  {
  }

  // What a round comes to: the end of the loop, or another round after a sleep.
  datatype Settled =
    | End(reason: Reason, code: int, last: Round)
    | Go(returned: Option<int>, finishedAt: Option<nat>, sleep: nat)

  // The limits; the leader's return code; and, once it has one, what it left behind,
  // with half a second of grace from the first round that finds it gone.
  function Settle(r: Round, finishedAt: Option<nat>, limit: nat, timeout: nat): Settled {
    var verdict := JudgeLimits(r, limit, timeout);
    if verdict.Some? then End(verdict.value.0, verdict.value.1, r)
    else
      var now := if r.returned == None then r.moment.exit else r.returned;
      if now == None then Go(None, finishedAt, 100)
      else
        var last, code := r.(returned := now), ExitCode(now.value);
        var since := if finishedAt == None then r.elapsed else finishedAt.value;
        if r.survivors == {} then End(if code == 0 then Completed else WorkerFailed, code, last)
        else if r.elapsed >= since + 500 then End(Orphaned, 126, last)
        else Go(now, Some(since), 50)
  }

  lemma SettleExplains(r: Round, finishedAt: Option<nat>, limit: nat, timeout: nat)
    ensures match Settle(r, finishedAt, limit, timeout)
            case End(reason, code, last) =>
              && Explains(reason, code, Some(last), limit, timeout)
              && last in {r, r.(returned := if r.returned == None then r.moment.exit else r.returned)}
              && (reason == MemoryLimit <==> r.current > limit)
            case Go(returned, _, sleep) =>
              && InLimits(r, limit, timeout) && sleep >= 50
              && returned == if r.returned == None then r.moment.exit else r.returned
  {
    LimitsExplain(r, limit, timeout);
    if JudgeLimits(r, limit, timeout) == None {
      var now := if r.returned == None then r.moment.exit else r.returned;
      if now.Some? { EndExplains(r.(returned := now), ExitCode(now.value), limit, timeout); }
    }
  }

  // Exit code 0 means completed, which means a clean last round; and memory-limit
  // means the last sample was over the limit.
  lemma ExplainedCodes(reason: Reason, code: int, last: Option<Round>, limit: nat, timeout: nat)
    requires Explains(reason, code, last, limit, timeout)
    ensures reason == Completed <==> code == 0
    ensures code == 0 <==> last.Some? && Clean(last.value, limit, timeout)
    ensures reason == MemoryLimit <==> last.Some? && last.value.current > limit
    ensures reason == GuardError <==> last == None
  {
  }

  function MaxOf(samples: seq<nat>): nat {
    if samples == [] then 0
    else
      var rest := MaxOf(samples[..|samples| - 1]);
      if samples[|samples| - 1] > rest then samples[|samples| - 1] else rest
  }

  lemma MaxOfAppend(samples: seq<nat>, s: nat)
    ensures MaxOf(samples + [s]) == if s > MaxOf(samples) then s else MaxOf(samples)
  {
    assert (samples + [s])[..|samples|] == samples;
  }

  lemma {:induction false} MaxOfIsMaximum(samples: seq<nat>)
    ensures forall s | s in samples :: s <= MaxOf(samples)
    ensures samples != [] ==> MaxOf(samples) in samples
  {
    if samples != [] {
      var front, last := samples[..|samples| - 1], samples[|samples| - 1];
      MaxOfIsMaximum(front);
      assert samples == front + [last];
    }
  }

  // ---- The report ----

  datatype CleanupError = CleanupError(operation: string, pid: Option<Pid>)

  // What the guard reports: why the loop ended, unless only the cleanup went wrong.
  ghost predicate Reported(reason: Reason, code: int, last: Option<Round>, errors: seq<CleanupError>, limit: nat,
                           timeout: nat)
  {
    if reason == CleanupFailed
    then code == 126 && errors != [] && Explains(Completed, 0, last, limit, timeout)
    else Explains(reason, code, last, limit, timeout) && (code == 0 ==> errors == [])
  }

  // Exit code 0 is reported exactly for a completed run: the leader returned zero,
  // the last sample was in every limit and showed no other process of the worker,
  // and the cleanup recorded no error.
  lemma ReportedCodes(reason: Reason, code: int, last: Option<Round>, errors: seq<CleanupError>, limit: nat,
                      timeout: nat)
    requires Reported(reason, code, last, errors, limit, timeout)
    ensures reason == Completed <==> code == 0
    ensures code == 0 <==> last.Some? && Clean(last.value, limit, timeout) && errors == []
    ensures reason == MemoryLimit <==> last.Some? && last.value.current > limit
    ensures reason == GuardError <==> last == None
  {
    if reason != CleanupFailed { ExplainedCodes(reason, code, last, limit, timeout); }
  }
}
