// resource-guard.py, lines 296-345: the sampling loop as a function of the moments it
// sees. How a sample is taken does not matter here.
module SampleLoop {
  import opened Options
  import opened Processes
  import opened World
  import opened Sampling
  import opened Verdicts

  // Time is counted from the start of the loop; every look and every sleep takes some. A
  // loop that ended has recorded `known`, or more where a read raised in its last round.
  datatype Loop =
    | Running(known: map<Pid, Identity>, samples: seq<nat>, returned: Option<int>, finishedAt: Option<nat>, time: nat)
    | Ended(reason: Reason, code: int, last: Option<Round>, samples: seq<nat>, known: map<Pid, Identity>)

  function AfterRound(s: Settled, known: map<Pid, Identity>, samples: seq<nat>, time: nat): Loop {
    match s
    case End(reason, code, last) => Ended(reason, code, Some(last), samples, known)
    case Go(returned, finishedAt, sleep) => Running(known, samples, returned, finishedAt, time + sleep)
  }

  function LoopStep(sample: Sampler, l: Loop, m: Moment, limit: nat, timeout: nat): Loop {
    match l
    case Ended(_, _, _, _, _) => l
    case Running(known, samples, returned, finishedAt, time) =>
      match sample(m, known, returned == None)
      case None => Ended(GuardError, 126, None, samples, known)
      case Some(s) =>
        var r := Round(s.current, m, time + m.elapsed, returned, s.survivors);
        AfterRound(Settle(r, finishedAt, limit, timeout), s.known, samples + [s.current], r.elapsed)
  }

  function LoopRun(sample: Sampler, ms: seq<Moment>, known: map<Pid, Identity>, limit: nat, timeout: nat): Loop {
    if ms == [] then Running(known, [], None, None, 0)
    else LoopStep(sample, LoopRun(sample, ms[..|ms| - 1], known, limit, timeout), ms[|ms| - 1], limit, timeout)
  }

  lemma LoopAppend(sample: Sampler, ms: seq<Moment>, m: Moment, known: map<Pid, Identity>, limit: nat, timeout: nat)
    ensures LoopRun(sample, ms + [m], known, limit, timeout)
         == LoopStep(sample, LoopRun(sample, ms, known, limit, timeout), m, limit, timeout)
  {
    assert (ms + [m])[..|ms|] == ms;
  }

  // The loop ends at the last of these moments, and not before.
  ghost predicate EndsAt(sample: Sampler, ms: seq<Moment>, known: map<Pid, Identity>, limit: nat, timeout: nat,
                         end: Loop)
  {
    && ms != [] && LoopRun(sample, ms[..|ms| - 1], known, limit, timeout).Running?
    && LoopRun(sample, ms, known, limit, timeout) == end && end.Ended?
  }

  // One round more of a running loop.
  lemma RoundDone(sample: Sampler, ms: seq<Moment>, m: Moment, before: map<Pid, Identity>, limit: nat, timeout: nat,
                  known: map<Pid, Identity>, samples: seq<nat>, returned: Option<int>, finishedAt: Option<nat>,
                  time: nat, round: Option<Round>, later: map<Pid, Identity>)
    requires LoopRun(sample, ms, before, limit, timeout) == Running(known, samples, returned, finishedAt, time)
    requires match sample(m, known, returned == None)
             case None => round == None
             case Some(s) =>
               && round == Some(Round(s.current, m, time + m.elapsed, returned, s.survivors))
               && later == s.known
    ensures match round
            case None =>
              EndsAt(sample, ms + [m], before, limit, timeout, Ended(GuardError, 126, None, samples, known))
            case Some(r) =>
              match Settle(r, finishedAt, limit, timeout)
              case End(reason, code, last) =>
                EndsAt(sample, ms + [m], before, limit, timeout,
                       Ended(reason, code, Some(last), samples + [r.current], later))
              case Go(now, since, sleep) =>
                LoopRun(sample, ms + [m], before, limit, timeout)
                == Running(later, samples + [r.current], now, since, r.elapsed + sleep)
  {
    LoopAppend(sample, ms, m, before, limit, timeout);
    assert (ms + [m])[..|ms|] == ms;
  }

  // The most rounds that fit before the timeout, each with the shortest sleep.
  function MostRounds(timeout: nat): nat {
    (timeout + 49) / 50
  }

  lemma RoundFits(n: nat, timeout: nat)
    requires 50 * n < timeout
    ensures n + 1 <= MostRounds(timeout)
  {
  }

  // Where it ends, the last round explains it; that round shows the last sample.
  lemma EndExplained(sample: Sampler, ms: seq<Moment>, known: map<Pid, Identity>, limit: nat, timeout: nat, end: Loop)
    returns (now: map<Pid, Identity>, unreaped: bool)
    requires EndsAt(sample, ms, known, limit, timeout, end)
    ensures Explains(end.reason, end.code, end.last, limit, timeout)
    ensures end.last.Some? ==>
              var last := end.last.value;
              sample(ms[|ms| - 1], now, unreaped) == Some(Sample(last.current, last.survivors, end.known))
  {
    var l, m := LoopRun(sample, ms[..|ms| - 1], known, limit, timeout), ms[|ms| - 1];
    now, unreaped := l.known, l.returned == None;
    var s := sample(m, now, unreaped);
    if s.Some? {
      SettleExplains(Round(s.value.current, m, l.time + m.elapsed, l.returned, s.value.survivors), l.finishedAt, limit,
                     timeout);
    }
  }

  // ---- The same by the clock ----

  ghost predicate NoReturn(ms: seq<Moment>) {
    forall i | 0 <= i < |ms| :: ms[i].exit == None
  }

  // Moment k is the first that shows the leader's return.
  ghost predicate FirstReturn(ms: seq<Moment>, k: nat) {
    k < |ms| && ms[k].exit.Some? && NoReturn(ms[..k])
  }

  // After a look the loop sleeps for 100 ms, or for 50 ms once the leader has returned.
  ghost function Pause(ms: seq<Moment>): nat {
    if NoReturn(ms) then 100 else 50
  }

  // When the last of these moments has been seen, counted from the start of the loop.
  ghost function LookTime(ms: seq<Moment>): nat {
    if ms == [] then 0
    else
      var before, m := ms[..|ms| - 1], ms[|ms| - 1];
      (if before == [] then 0 else LookTime(before) + Pause(before)) + m.elapsed
  }

  // What a loop that goes on remembers of the leader, and when it looks again.
  ghost predicate Remembers(ms: seq<Moment>, l: Loop) {
    && l.Running?
    && (ms != [] ==> l.time == LookTime(ms) + Pause(ms))
    && (ms == [] ==> l.time == 0)
    && (NoReturn(ms) ==> l.returned == None && l.finishedAt == None)
    && forall k: nat | FirstReturn(ms, k) ::
         l.returned == ms[k].exit && l.finishedAt == Some(LookTime(ms[..k + 1]))
  }

  // Why a round with this sample does not end the loop.
  ghost predicate GoesOn(ms: seq<Moment>, s: Sample, limit: nat, timeout: nat) {
    && ms != [] && s.current <= limit && LookTime(ms) < timeout
    && ms[|ms| - 1].interrupt == None && !ms[|ms| - 1].parentGone
    && (NoReturn(ms) || s.survivors != {})
    && forall k: nat | FirstReturn(ms, k) :: LookTime(ms) < LookTime(ms[..k + 1]) + 500
  }

  // The leader has returned: what it left, and for how long.
  ghost predicate EndsReturned(returned: int, s: Sample, time: nat, since: nat, reason: Reason, code: int) {
    if s.survivors != {} then time >= since + 500 && reason == Orphaned && code == 126
    else if returned == 0 then reason == Completed && code == 0
    else reason == WorkerFailed && code == if returned > 0 then returned else 128 - returned
  }

  // Why it does, in the order of the checks.
  ghost predicate EndsWith(ms: seq<Moment>, s: Sample, limit: nat, timeout: nat, reason: Reason, code: int) {
    ms != [] &&
    var m, time := ms[|ms| - 1], LookTime(ms);
    if s.current > limit then reason == MemoryLimit && code == 125
    else if m.interrupt.Some? then reason == Cancelled && code == 128 + m.interrupt.value
    else if m.parentGone then reason == Cancelled && code == 143
    else if time >= timeout then reason == Timeout && code == 124
    else
      exists k: nat ::
        FirstReturn(ms, k) && EndsReturned(ms[k].exit.value, s, time, LookTime(ms[..k + 1]), reason, code)
  }

  lemma ReturnStays(ms: seq<Moment>, m: Moment, k: nat)
    ensures FirstReturn(ms, k) ==> FirstReturn(ms + [m], k) && !NoReturn(ms) && (ms + [m])[..k + 1] == ms[..k + 1]
    ensures FirstReturn(ms + [m], k) && k < |ms| ==> FirstReturn(ms, k)
    ensures NoReturn(ms) && m.exit.Some? ==> FirstReturn(ms + [m], |ms|)
    ensures NoReturn(ms + [m]) <==> NoReturn(ms) && m.exit == None
    ensures FirstReturn(ms + [m], |ms|) ==> NoReturn(ms) && m.exit.Some?
  {
    var longer := ms + [m];
    assert longer[..|ms|] == ms && longer[|ms|] == m;
    assert k <= |ms| ==> longer[..k] == ms[..k];
    assert forall i | 0 <= i < |ms| :: longer[i] == ms[i];
  }

  lemma {:induction false} ReturnIsFirst(ms: seq<Moment>) returns (k: nat)
    requires !NoReturn(ms)
    ensures FirstReturn(ms, k)
  {
    var before, m := ms[..|ms| - 1], ms[|ms| - 1];
    assert ms == before + [m];
    if NoReturn(before) {
      k := |before|;
    } else {
      k := ReturnIsFirst(before);
    }
    ReturnStays(before, m, k);
  }

  lemma NoneBefore(ms: seq<Moment>, j: nat, k: nat)
    requires FirstReturn(ms, k) && j < k
    ensures ms[j].exit == None
  {
    assert ms[..k][j] == ms[j];
  }

  lemma OneFirstReturn(ms: seq<Moment>, j: nat, k: nat)
    requires FirstReturn(ms, j) && FirstReturn(ms, k)
    ensures j == k
  {
    if j < k { NoneBefore(ms, j, k); }
    if k < j { NoneBefore(ms, k, j); }
  }

  lemma LookTimeAppend(ms: seq<Moment>, m: Moment)
    ensures LookTime(ms + [m]) == (if ms == [] then 0 else LookTime(ms) + Pause(ms)) + m.elapsed
  {
    assert (ms + [m])[..|ms|] == ms;
  }

  lemma TimeOfNext(ms: seq<Moment>, m: Moment, l: Loop)
    requires Remembers(ms, l)
    ensures LookTime(ms + [m]) == l.time + m.elapsed
  {
    LookTimeAppend(ms, m);
  }

  // Before any return.
  lemma SettledBefore(ms: seq<Moment>, m: Moment, l: Loop, s: Sample, limit: nat, timeout: nat)
    requires Remembers(ms, l) && NoReturn(ms + [m])
    ensures var next := ms + [m];
            var r := Round(s.current, m, l.time + m.elapsed, l.returned, s.survivors);
            match Settle(r, l.finishedAt, limit, timeout)
            case End(reason, code, last) => EndsWith(next, s, limit, timeout, reason, code)
            case Go(returned, finishedAt, sleep) =>
              GoesOn(next, s, limit, timeout)
              && Remembers(next, Running(s.known, l.samples + [s.current], returned, finishedAt, r.elapsed + sleep))
  {
    var next := ms + [m];
    TimeOfNext(ms, m, l);
    ReturnStays(ms, m, 0);
    assert forall k: nat :: !FirstReturn(next, k);
  }

  // A round once the leader has returned, `since` after the start of the loop.
  lemma SettleReturned(r: Round, finishedAt: Option<nat>, limit: nat, timeout: nat, returned: int, since: nat,
                       s: Sample)
    requires s.current == r.current && s.survivors == r.survivors
    requires || (r.returned == None && r.moment.exit == Some(returned) && finishedAt == None && since == r.elapsed)
             || (r.returned == Some(returned) && finishedAt == Some(since))
    ensures match Settle(r, finishedAt, limit, timeout)
            case End(reason, code, _) =>
              if InLimits(r, limit, timeout) then EndsReturned(returned, s, r.elapsed, since, reason, code)
              else JudgeLimits(r, limit, timeout) == Some((reason, code))
            case Go(now, at, sleep) =>
              && InLimits(r, limit, timeout) && s.survivors != {} && r.elapsed < since + 500
              && now == Some(returned) && at == Some(since) && sleep == 50
  {
  }

  lemma WaitsAfter(next: seq<Moment>, s: Sample, limit: nat, timeout: nat, k: nat, l: Loop)
    requires FirstReturn(next, k) && l.Running? && l.time == LookTime(next) + 50
    requires l.returned == next[k].exit && l.finishedAt == Some(LookTime(next[..k + 1]))
    requires s.current <= limit && s.survivors != {} && LookTime(next) < timeout
    requires next[|next| - 1].interrupt == None && !next[|next| - 1].parentGone
    requires LookTime(next) < LookTime(next[..k + 1]) + 500
    ensures GoesOn(next, s, limit, timeout) && Remembers(next, l)
  {
    assert !NoReturn(next);
    forall j: nat | FirstReturn(next, j) ensures j == k {
      OneFirstReturn(next, j, k);
    }
  }

  // What the loop remembers of the first return, which moment k of the next shows.
  lemma RemembersFirst(ms: seq<Moment>, m: Moment, l: Loop, k: nat)
    requires Remembers(ms, l) && FirstReturn(ms + [m], k)
    ensures var next := ms + [m];
            var returned, since := next[k].exit.value, LookTime(next[..k + 1]);
            || (l.returned == None && m.exit == Some(returned) && l.finishedAt == None && since == l.time + m.elapsed)
            || (l.returned == Some(returned) && l.finishedAt == Some(since))
  {
    var next := ms + [m];
    TimeOfNext(ms, m, l);
    ReturnStays(ms, m, k);
    assert if k == |ms| then next[..k + 1] == next else next[..k + 1] == ms[..k + 1] && next[k] == ms[k];
  }

  // From the first return on.
  lemma SettledAfter(ms: seq<Moment>, m: Moment, l: Loop, s: Sample, limit: nat, timeout: nat, k: nat)
    requires Remembers(ms, l) && FirstReturn(ms + [m], k)
    ensures var next := ms + [m];
            var r := Round(s.current, m, l.time + m.elapsed, l.returned, s.survivors);
            match Settle(r, l.finishedAt, limit, timeout)
            case End(reason, code, last) => EndsWith(next, s, limit, timeout, reason, code)
            case Go(returned, finishedAt, sleep) =>
              GoesOn(next, s, limit, timeout)
              && Remembers(next, Running(s.known, l.samples + [s.current], returned, finishedAt, r.elapsed + sleep))
  {
    var next := ms + [m];
    TimeOfNext(ms, m, l);
    RemembersFirst(ms, m, l, k);
    var r := Round(s.current, m, l.time + m.elapsed, l.returned, s.survivors);
    SettleReturned(r, l.finishedAt, limit, timeout, next[k].exit.value, LookTime(next[..k + 1]), s);
    match Settle(r, l.finishedAt, limit, timeout)
    case Go(returned, finishedAt, sleep) =>
      WaitsAfter(next, s, limit, timeout, k,
                 Running(s.known, l.samples + [s.current], returned, finishedAt, r.elapsed + sleep));
    case _ =>
  }

  lemma SettledByClock(ms: seq<Moment>, m: Moment, l: Loop, s: Sample, limit: nat, timeout: nat)
    requires Remembers(ms, l)
    ensures var next := ms + [m];
            var r := Round(s.current, m, l.time + m.elapsed, l.returned, s.survivors);
            match Settle(r, l.finishedAt, limit, timeout)
            case End(reason, code, last) => EndsWith(next, s, limit, timeout, reason, code)
            case Go(returned, finishedAt, sleep) =>
              GoesOn(next, s, limit, timeout)
              && Remembers(next, Running(s.known, l.samples + [s.current], returned, finishedAt, r.elapsed + sleep))
  {
    if NoReturn(ms + [m]) {
      SettledBefore(ms, m, l, s, limit, timeout);
    } else {
      var k := ReturnIsFirst(ms + [m]);
      SettledAfter(ms, m, l, s, limit, timeout, k);
    }
  }

  lemma RemembersReturn(ms: seq<Moment>, l: Loop)
    requires Remembers(ms, l)
    ensures l.returned == None <==> NoReturn(ms)
  {
    if !NoReturn(ms) { var k := ReturnIsFirst(ms); }
  }

  lemma StepByClock(sample: Sampler, ms: seq<Moment>, m: Moment, l: Loop, next: Loop, limit: nat, timeout: nat)
    requires Remembers(ms, l) && next == LoopStep(sample, l, m, limit, timeout)
    ensures match sample(m, l.known, NoReturn(ms))
            case None => next == Ended(GuardError, 126, None, l.samples, l.known)
            case Some(s) =>
              && next.samples == l.samples + [s.current] && next.known == s.known
              && if next.Running? then GoesOn(ms + [m], s, limit, timeout) && Remembers(ms + [m], next)
                 else EndsWith(ms + [m], s, limit, timeout, next.reason, next.code)
  {
    RemembersReturn(ms, l);
    var s := sample(m, l.known, NoReturn(ms));
    if s.Some? { SettledByClock(ms, m, l, s.value, limit, timeout); }
  }

  lemma {:induction false} RunningRemembers(sample: Sampler, ms: seq<Moment>, before: map<Pid, Identity>, limit: nat,
                                            timeout: nat)
    requires LoopRun(sample, ms, before, limit, timeout).Running?
    ensures Remembers(ms, LoopRun(sample, ms, before, limit, timeout))
  {
    if ms != [] {
      var front, m := ms[..|ms| - 1], ms[|ms| - 1];
      assert ms == front + [m];
      RunningRemembers(sample, front, before, limit, timeout);
      LoopAppend(sample, front, m, before, limit, timeout);
      StepByClock(sample, front, m, LoopRun(sample, front, before, limit, timeout),
                  LoopRun(sample, ms, before, limit, timeout), limit, timeout);
    } else {
      assert forall k: nat :: !FirstReturn(ms, k);
    }
  }

  lemma NotBoth(ms: seq<Moment>, s: Sample, limit: nat, timeout: nat, reason: Reason, code: int)
    requires EndsWith(ms, s, limit, timeout, reason, code)
    ensures !GoesOn(ms, s, limit, timeout)
  {
    if !NoReturn(ms) && exists k: nat :: FirstReturn(ms, k) {
      var k: nat :| FirstReturn(ms, k);
      forall j: nat | FirstReturn(ms, j) ensures j == k {
        OneFirstReturn(ms, j, k);
      }
    }
  }

  // Whether the loop ends at a moment, and with which reason and code: by the clock, the
  // sample taken there and the first return. Where it neither fails to take the sample
  // nor has a reason to end, it goes on.
  lemma EndsByClock(sample: Sampler, ms: seq<Moment>, m: Moment, before: map<Pid, Identity>, limit: nat, timeout: nat)
    requires LoopRun(sample, ms, before, limit, timeout).Running?
    ensures var l := LoopRun(sample, ms, before, limit, timeout);
            var next := LoopRun(sample, ms + [m], before, limit, timeout);
            match sample(m, l.known, NoReturn(ms))
            case None => next == Ended(GuardError, 126, None, l.samples, l.known)
            case Some(s) =>
              && next.samples == l.samples + [s.current] && next.known == s.known
              && (next.Running? <==> GoesOn(ms + [m], s, limit, timeout))
              && (next.Ended? ==> EndsWith(ms + [m], s, limit, timeout, next.reason, next.code))
  {
    RunningRemembers(sample, ms, before, limit, timeout);
    var l := LoopRun(sample, ms, before, limit, timeout);
    var s, next := sample(m, l.known, NoReturn(ms)), LoopRun(sample, ms + [m], before, limit, timeout);
    LoopAppend(sample, ms, m, before, limit, timeout);
    StepByClock(sample, ms, m, l, next, limit, timeout);
    if s.Some? && next.Ended? { NotBoth(ms + [m], s.value, limit, timeout, next.reason, next.code); }
  }
}
