// Runs of the guard that end unexpectedly.
module GuardExamples {
  import opened Options
  import opened Processes
  import opened World
  import opened Sampling
  import opened Signals
  import opened Verdicts
  import opened SampleLoop
  import opened Cleanup
  import opened Guard

  // A moment in which everything can be read, nothing has a footprint, and the leader
  // has returned zero.
  function Quiet(procs: map<Pid, Proc>, elapsed: nat): Moment {
    Moment(procs, false, {}, _ => OtherError, {}, Some(0), None, false, Some(0), _ => Gone, elapsed)
  }

  // The parent of a process whose own parent is gone.
  const INIT: Pid := 1

  function Plain(parent: Pid, group: Pid, id: Identity): Proc {
    Proc(parent, group, id, false, 0)
  }

  lemma {:induction false} TotalZero(m: Moment, pids: set<Pid>)
    requires forall pid | pid in m.procs :: m.procs[pid].footprint == 0
    ensures Total(m, pids) == 0
    decreases |pids|
  {
    if pids != {} { TotalZero(m, pids - {AnyOf(pids)}); }
  }

  // A sample of such a moment, if the selection is the one given.
  lemma QuietSample(procs: map<Pid, Proc>, elapsed: nat, known: map<Pid, Identity>, leader: Pid, unreaped: bool,
                    selected: set<Pid>)
    requires forall pid | pid in procs :: procs[pid].footprint == 0
    requires selected == Select(Quiet(procs, elapsed), known, leader, unreaped)
    ensures var m := Quiet(procs, elapsed);
            SampleAt(m, known, leader, unreaped)
            == Some(Sample(0, selected * Live(m).Keys - {leader}, Recorded(m, known, Accounted(m, known, selected))))
  {
    var m := Quiet(procs, elapsed);
    TotalZero(m, Accounted(m, known, selected));
  }

  // What is selected: at least the base and its groups, at most that and the living.
  lemma SelectedBetween(m: Moment, known: map<Pid, Identity>, leader: Pid, unreaped: bool)
    ensures var base := Leading(leader, unreaped) + Verified(m, known);
            var members := Members(Live(m), GroupsOf(Live(m), base) + Leading(leader, unreaped));
            base + members <= Select(m, known, leader, unreaped) <= base + members + Live(m).Keys
    ensures Leading(leader, unreaped) + Verified(m, known) == {} ==> Select(m, known, leader, unreaped) == {}
  {
    var base := Leading(leader, unreaped) + Verified(m, known);
    var members := Members(Live(m), GroupsOf(Live(m), base) + Leading(leader, unreaped));
    DescendantsClosed(base + members, Live(m));
    if base == {} {
      assert members == {};
      EmptyClosure(Live(m));
    }
  }

  // ---- Zero, nothing left, and yet a timeout ----

  // The leader has exited and left a child in its group; it is not reaped yet.
  function ChildLeft(leader: Pid, leaderId: Identity, child: Pid, childId: Identity, elapsed: nat): Moment {
    Quiet(map[leader := Proc(INIT, leader, leaderId, true, 0), child := Plain(INIT, leader, childId)], elapsed)
  }

  lemma ChildIsSampled(leader: Pid, leaderId: Identity, child: Pid, childId: Identity, elapsed: nat)
    requires leader != child
    ensures SampleAt(ChildLeft(leader, leaderId, child, childId, elapsed), map[], leader, true)
         == Some(Sample(0, {child}, map[child := childId]))
  {
    var m := ChildLeft(leader, leaderId, child, childId, elapsed);
    var selected := Select(m, map[], leader, true);
    SelectedBetween(m, map[], leader, true);
    assert Live(m).Keys == {child};
    assert child in Members(Live(m), GroupsOf(Live(m), {leader}) + {leader});
    QuietSample(m.procs, elapsed, map[], leader, true, selected);
    assert selected * Live(m).Keys - {leader} == {child};
    assert Accounted(m, map[], selected) == {child};
    assert Recorded(m, map[], {child}) == map[child := childId];
  }

  lemma NothingIsSampled(known: map<Pid, Identity>, leader: Pid)
    ensures SampleAt(Quiet(map[], 0), known, leader, false) == Some(Sample(0, {}, known))
  {
    var m := Quiet(map[], 0);
    assert Verified(m, known) == {};
    SelectedBetween(m, known, leader, false);
    QuietSample(map[], 0, known, leader, false, {});
    assert Accounted(m, known, {}) == {} && Recorded(m, known, {}) == known;
    assert {} * Live(m).Keys - {leader} == {};
  }

  // No interrupt, and the leader has returned zero.
  predicate Calm(m: Moment) {
    m.interrupt == None && !m.parentGone && m.exit == Some(0)
  }

  // A calm round in which something is left: the loop waits.
  lemma Waits(sample: Sampler, ms: seq<Moment>, m: Moment, limit: nat, timeout: nat, known: map<Pid, Identity>,
              samples: seq<nat>, returned: Option<int>, finishedAt: Option<nat>, time: nat, left: set<Pid>,
              later: map<Pid, Identity>)
    requires LoopRun(sample, ms, map[], limit, timeout) == Running(known, samples, returned, finishedAt, time)
    requires Calm(m) && left != {} && (returned == None || returned == Some(0))
    requires sample(m, known, returned == None) == Some(Sample(0, left, later)) && time + m.elapsed < timeout
    requires finishedAt.Some? ==> time + m.elapsed < finishedAt.value + 500
    ensures LoopRun(sample, ms + [m], map[], limit, timeout)
         == Running(later, samples + [0], Some(0),
                    Some(if finishedAt == None then time + m.elapsed else finishedAt.value), time + m.elapsed + 50)
  {
    LoopAppend(sample, ms, m, map[], limit, timeout);
  }

  // A calm round in which nothing is left: the loop ends, in time or too late.
  lemma Finishes(sample: Sampler, ms: seq<Moment>, m: Moment, limit: nat, timeout: nat, known: map<Pid, Identity>,
                 samples: seq<nat>, finishedAt: Option<nat>, time: nat)
    requires LoopRun(sample, ms, map[], limit, timeout) == Running(known, samples, Some(0), finishedAt, time)
    requires Calm(m) && sample(m, known, false) == Some(Sample(0, {}, known))
    ensures var last, late := Round(0, m, time + m.elapsed, Some(0), {}), time + m.elapsed >= timeout;
            EndsAt(sample, ms + [m], map[], limit, timeout,
                   Ended(if late then Timeout else Completed, if late then 124 else 0, Some(last), samples + [0],
                         known))
  {
    LoopAppend(sample, ms, m, map[], limit, timeout);
    assert (ms + [m])[..|ms|] == ms;
  }

  lemma EndsInTwo(sample: Sampler, m1: Moment, m2: Moment, left: set<Pid>, known: map<Pid, Identity>, limit: nat,
                  timeout: nat)
    requires Calm(m1) && Calm(m2) && left != {} && timeout > 0 && m1.elapsed == timeout - 1 && m2.elapsed == 0
    requires sample(m1, map[], true) == Some(Sample(0, left, known))
    requires sample(m2, known, false) == Some(Sample(0, {}, known))
    ensures EndsAt(sample, [m1, m2], map[], limit, timeout,
                   Ended(Timeout, 124, Some(Round(0, m2, timeout + 49, Some(0), {})), [0, 0], known))
  {
    Waits(sample, [], m1, limit, timeout, map[], [], None, None, 0, left, known);
    assert [] + [m1] == [m1] && [m1] + [m2] == [m1, m2] && [0] + [0] == [0, 0];
    Finishes(sample, [m1], m2, limit, timeout, known, [0], Some(timeout - 1), timeout + 49);
  }

  // A slow first look finds the leader gone with zero and a child left, just before the
  // timeout; the loop waits. After the sleep everything is gone, and the time is up: the
  // loop ends with code 124, although the leader returned zero and nothing survives.
  lemma ZeroAndAloneTimesOut(sample: Sampler, leader: Pid, leaderId: Identity, child: Pid, childId: Identity,
                             limit: nat, timeout: nat)
    requires Samples(sample, leader) && leader != child && timeout > 0
    ensures var m1, m2 := ChildLeft(leader, leaderId, child, childId, timeout - 1), Quiet(map[], 0);
            var last := Round(0, m2, timeout + 49, Some(0), {});
            EndsAt(sample, [m1, m2], map[], limit, timeout,
                   Ended(Timeout, 124, Some(last), [0, 0], map[child := childId]))
  {
    var m1, m2 := ChildLeft(leader, leaderId, child, childId, timeout - 1), Quiet(map[], 0);
    var known := map[child := childId];
    ChildIsSampled(leader, leaderId, child, childId, timeout - 1);
    NothingIsSampled(known, leader);
    EndsInTwo(sample, m1, m2, {child}, known, limit, timeout);
  }

  // ---- Zero, and yet a process left ----

  // The child has moved to a group of its own, so that the pid of the reaped leader was
  // free; a child of the child has got it.
  function PidTaken(leader: Pid, heirId: Identity, child: Pid, childId: Identity): Moment {
    Quiet(map[child := Plain(INIT, child, childId), leader := Plain(child, child, heirId)], 0)
  }

  // The child has gone.
  function HeirLeft(leader: Pid, heirId: Identity, child: Pid): Moment {
    Quiet(map[leader := Plain(INIT, child, heirId)], 0)
  }

  lemma HeirIsRecorded(leader: Pid, heirId: Identity, child: Pid, childId: Identity)
    requires leader != child
    ensures var m, known := PidTaken(leader, heirId, child, childId), map[child := childId];
            Recorded(m, known, Accounted(m, known, {child, leader})) == map[child := childId, leader := heirId]
  {
    var m, known := PidTaken(leader, heirId, child, childId), map[child := childId];
    assert Accounted(m, known, {child, leader}) == {child, leader};
  }

  lemma HeirIsSampled(leader: Pid, heirId: Identity, child: Pid, childId: Identity)
    requires leader != child
    ensures SampleAt(PidTaken(leader, heirId, child, childId), map[child := childId], leader, false)
         == Some(Sample(0, {child}, map[child := childId, leader := heirId]))
  {
    var m, known := PidTaken(leader, heirId, child, childId), map[child := childId];
    var selected := Select(m, known, leader, false);
    SelectedBetween(m, known, leader, false);
    assert Verified(m, known) == {child} && Live(m).Keys == {child, leader};
    assert Live(m)[child].pgid in GroupsOf(Live(m), {child});
    assert leader in Members(Live(m), GroupsOf(Live(m), {child}) + {});
    QuietSample(m.procs, 0, known, leader, false, selected);
    assert selected == {child, leader} && selected * Live(m).Keys - {leader} == {child};
    HeirIsRecorded(leader, heirId, child, childId);
  }

  lemma HeirAloneIsSampled(leader: Pid, heirId: Identity, child: Pid, childId: Identity)
    requires leader != child
    ensures var known := map[child := childId, leader := heirId];
            SampleAt(HeirLeft(leader, heirId, child), known, leader, false) == Some(Sample(0, {}, known))
  {
    var m, known := HeirLeft(leader, heirId, child), map[child := childId, leader := heirId];
    var selected := Select(m, known, leader, false);
    SelectedBetween(m, known, leader, false);
    assert Verified(m, known) == {leader} && Live(m).Keys == {leader};
    QuietSample(m.procs, 0, known, leader, false, selected);
    assert selected * Live(m).Keys - {leader} == {};
    assert Recorded(m, known, Accounted(m, known, selected)) == known;
  }

  lemma HeirIsTarget(leader: Pid, heirId: Identity, child: Pid, childId: Identity)
    requires leader != child
    ensures CleanupTargets(HeirLeft(leader, heirId, child), map[child := childId, leader := heirId], leader, false)
         == {leader}
  {
    var m, known := HeirLeft(leader, heirId, child), map[child := childId, leader := heirId];
    var verified := Verified(m, known) - m.unreadable;
    assert verified == {leader} && Live(m).Keys == {leader};
    DescendantsClosed(verified + {} + Members(Live(m), {}), Live(m));
  }

  lemma EndsInThree(sample: Sampler, m1: Moment, m2: Moment, m3: Moment, left: set<Pid>, known1: map<Pid, Identity>,
                    known: map<Pid, Identity>, limit: nat, timeout: nat)
    requires Calm(m1) && Calm(m2) && Calm(m3) && m1.elapsed == m2.elapsed == m3.elapsed == 0
    requires left != {} && timeout > 100
    requires sample(m1, map[], true) == Some(Sample(0, left, known1))
    requires sample(m2, known1, false) == Some(Sample(0, left, known))
    requires sample(m3, known, false) == Some(Sample(0, {}, known))
    ensures EndsAt(sample, [m1, m2, m3], map[], limit, timeout,
                   Ended(Completed, 0, Some(Round(0, m3, 100, Some(0), {})), [0, 0, 0], known))
  {
    Waits(sample, [], m1, limit, timeout, map[], [], None, None, 0, left, known1);
    assert [] + [m1] == [m1] && [m1] + [m2] == [m1, m2] && [m1, m2] + [m3] == [m1, m2, m3];
    assert [0] + [0] == [0, 0] && [0, 0] + [0] == [0, 0, 0];
    Waits(sample, [m1], m2, limit, timeout, known1, [0], Some(0), Some(0), 50, left, known);
    Finishes(sample, [m1, m2], m3, limit, timeout, known, [0, 0], Some(0), 100);
  }

  lemma MortalThree(leader: Pid, leaderId: Identity, heirId: Identity, child: Pid, childId: Identity)
    requires leader != child && leaderId != heirId
    ensures var ms := [ChildLeft(leader, leaderId, child, childId, 0), PidTaken(leader, heirId, child, childId),
                       HeirLeft(leader, heirId, child)];
            Mortal(ms) && Pinned(ms[0], leader, leaderId) && GoneSince(ms, 1, leader, leaderId)
  {
  }

  // The loop looks for survivors among all pids but the leader's, also when the leader
  // was reaped. So a process of the worker that has taken over that pid is overlooked:
  // the loop ends completed, with code 0, while the cleanup still has a target.
  lemma HeirIsOverlooked(sample: Sampler, leader: Pid, leaderId: Identity, heirId: Identity, child: Pid,
                         childId: Identity, limit: nat, timeout: nat)
    requires Samples(sample, leader) && leader != child && leaderId != heirId && timeout > 100
    ensures var m1, m2, m3 := ChildLeft(leader, leaderId, child, childId, 0), PidTaken(leader, heirId, child, childId),
                              HeirLeft(leader, heirId, child);
            var known := map[child := childId, leader := heirId];
            && Mortal([m1, m2, m3]) && Pinned(m1, leader, leaderId) && GoneSince([m1, m2, m3], 1, leader, leaderId)
            && EndsAt(sample, [m1, m2, m3], map[], limit, timeout,
                      Ended(Completed, 0, Some(Round(0, m3, 100, Some(0), {})), [0, 0, 0], known))
            && LeaderPidTaken(known, leader, leaderId)
            && CleanupTargets(m3, known, leader, false) == {leader}
  {
    var m1, m2, m3 := ChildLeft(leader, leaderId, child, childId, 0), PidTaken(leader, heirId, child, childId),
                      HeirLeft(leader, heirId, child);
    var known1, known := map[child := childId], map[child := childId, leader := heirId];
    ChildIsSampled(leader, leaderId, child, childId, 0);
    HeirIsSampled(leader, heirId, child, childId);
    HeirAloneIsSampled(leader, heirId, child, childId);
    EndsInThree(sample, m1, m2, m3, {child}, known1, known, limit, timeout);
    MortalThree(leader, leaderId, heirId, child, childId);
    HeirIsTarget(leader, heirId, child, childId);
  }

  // ---- A cleanup that raises ----

  function Family(leader: Pid, leaderId: Identity, child: Pid, childId: Identity): map<Pid, Proc> {
    map[leader := Plain(INIT, leader, leaderId), child := Plain(leader, child, childId)]
  }

  // The leader and a child in a group of its own live; from the second look on, a read
  // of the child falls for another pid.
  function Crossed(leader: Pid, leaderId: Identity, child: Pid, childId: Identity, first: bool): Moment {
    Moment(Family(leader, leaderId, child, childId), false, if first then {} else {child}, _ => WrongPid, {}, Some(0),
           None, false, None, _ => Gone, 0)
  }

  predicate Both(m: Moment, leader: Pid, leaderId: Identity, child: Pid, childId: Identity) {
    IdentityAt(m, leader) == Some(leaderId) && IdentityAt(m, child) == Some(childId)
  }

  predicate AlwaysBoth(seen: seq<Moment>, leader: Pid, leaderId: Identity, child: Pid, childId: Identity) {
    forall t | 0 <= t < |seen| :: Both(seen[t], leader, leaderId, child, childId)
  }

  // They live for as long as they were seen alive and the leader is not reaped.
  function NextCrossed(seen: seq<Moment>, reaped: bool, leader: Pid, leaderId: Identity, child: Pid, childId: Identity)
    : Moment
  {
    if reaped then Quiet(map[], 0)
    else if AlwaysBoth(seen, leader, leaderId, child, childId)
    then Crossed(leader, leaderId, child, childId, seen == [])
    else Quiet(map[leader := Proc(INIT, leader, leaderId, true, 0)], 0)
  }

  function Crossing(leader: Pid, leaderId: Identity, child: Pid, childId: Identity): (seq<Moment>, bool) -> Moment {
    (seen: seq<Moment>, reaped: bool) => NextCrossed(seen, reaped, leader, leaderId, child, childId)
  }

  lemma MortalCrossing(seen: seq<Moment>, m: Moment, leader: Pid, leaderId: Identity, child: Pid, childId: Identity)
    requires Mortal(seen)
    requires AlwaysBoth(seen, leader, leaderId, child, childId) || forall pid, id :: !Alive(m, pid, id)
    requires forall pid, id | Alive(m, pid, id) :: (pid == leader && id == leaderId) || (pid == child && id == childId)
    ensures Mortal(seen + [m])
  {
    var all := seen + [m];
    forall i, j, k, pid, id | 0 <= i <= j < k < |all| && Existing(all[i], pid, id) && !Alive(all[j], pid, id)
      ensures !Alive(all[k], pid, id)
    {
      var first, next := seen[i], seen[j];
      assert all[i] == first && all[j] == next;
      assert AlwaysBoth(seen, leader, leaderId, child, childId) ==> Both(next, leader, leaderId, child, childId);
      if k < |seen| { assert all[k] == seen[k]; }
    }
  }

  lemma CrossingShown(seen: seq<Moment>, reaped: bool, leader: Pid, leaderId: Identity, child: Pid, childId: Identity)
    requires leader != child
    ensures var m := NextCrossed(seen, reaped, leader, leaderId, child, childId);
            && (if reaped then !Alive(m, leader, leaderId) else Pinned(m, leader, leaderId))
            && (Mortal(seen) ==> Mortal(seen + [m]))
  {
    var m := NextCrossed(seen, reaped, leader, leaderId, child, childId);
    if Mortal(seen) {
      MortalCrossing(seen, m, leader, leaderId, child, childId);
    }
  }

  lemma CrossingIsLawful(leader: Pid, leaderId: Identity, child: Pid, childId: Identity)
    requires leader != child
    ensures Lawful(Crossing(leader, leaderId, child, childId), leader, leaderId)
  {
    forall seen: seq<Moment>, reaped: bool {
      CrossingShown(seen, reaped, leader, leaderId, child, childId);
    }
  }

  // As long as the leader is not reaped, the machine shows the two, and from the second
  // look on the crossed reads.
  lemma {:induction false} CrossingShows(seen: seq<Moment>, reaped: bool, cut: nat, leader: Pid, leaderId: Identity,
                                         child: Pid, childId: Identity, t: nat)
    requires leader != child && t < |seen| && (reaped ==> cut == |seen|)
    requires forall i: nat | i < |seen| :: Given(Crossing(leader, leaderId, child, childId), seen, i, reaped, cut)
    ensures seen[t] == Crossed(leader, leaderId, child, childId, t == 0)
  {
    assert Given(Crossing(leader, leaderId, child, childId), seen, t, reaped, cut);
    assert AlwaysBoth(seen[..t], leader, leaderId, child, childId) by {
      forall i | 0 <= i < t ensures Both(seen[..t][i], leader, leaderId, child, childId) {
        CrossingShows(seen, reaped, cut, leader, leaderId, child, childId, i);
      }
    }
  }

  lemma ChildIsTarget(leader: Pid, leaderId: Identity, child: Pid, childId: Identity)
    requires leader != child
    ensures child in CleanupTargets(Crossed(leader, leaderId, child, childId, true), map[], leader, true)
  {
    var m := Crossed(leader, leaderId, child, childId, true);
    var table := CleanupTable(m);
    var verified := Verified(m, map[]) - m.unreadable;
    var base := verified + {leader} + Members(table, {leader});
    DescendantsClosed(base, table);
    var selected := Descendants(base, table);
    assert leader in selected && child in table && table[child].ppid == leader;
    assert child in selected * table.Keys - verified - m.unreadable;
  }

  // A cleanup of the two that was done has checked the child, after the first look.
  lemma ChildWasRead(seen: seq<Moment>, log: seq<Signal>, checks: seq<Check>, leader: Pid, leaderId: Identity,
                     child: Pid, childId: Identity, p: Passes, known: map<Pid, Identity>)
    requires leader != child && CleanedUp(seen, log, checks, leader, p, known)
    requires p.from == 0 && p.before == map[] && p.unreaped
    requires forall t | 0 <= t < |seen| :: seen[t] == Crossed(leader, leaderId, child, childId, t == 0)
    ensures SomeWrong(seen, checks, 0)
  {
    ChildIsTarget(leader, leaderId, child, childId);
    var pids := CleanupTargets(seen[0], map[], leader, true);
    assert pids <= p.between.Keys && ProcessesChecked(seen, log, checks, 1, p.middle, pids, p.between, Term);
    assert child in pids && child in p.between;
    var id := p.between[child];
    assert ProcessChecked(seen, log, checks, 1, p.middle, child, id, Term);
    var at :| 1 <= at < p.middle && at < |seen| && OfProcess(at, child, id, Term) in checks;
    var k :| 0 <= k < |checks| && checks[k] == OfProcess(at, child, id, Term);
    assert Wrong(seen, checks[k]);
  }

  // On this machine the cleanup raises: it finds the child, and its next read of it falls
  // for another pid.
  method RaisingCleanup(leader: Pid, leaderId: Identity, child: Pid, childId: Identity) returns (raised: bool)
    requires leader != child
    ensures raised
  {
    CrossingIsLawful(leader, leaderId, child, childId);
    var machine := new Machine(leader, leaderId, Crossing(leader, leaderId, child, childId));
    var guard := new ResourceGuard(machine);
    ghost var p;
    raised, p := guard.StopTree();
    if !raised {
      ghost var seen, cut := machine.seen, machine.reapedAt;
      forall t: nat | t < |seen| ensures seen[t] == Crossed(leader, leaderId, child, childId, t == 0) {
        CrossingShows(seen, machine.reaped, cut, leader, leaderId, child, childId, t);
      }
      ChildWasRead(seen, guard.log, guard.checks, leader, leaderId, child, childId, p, guard.known);
    }
  }
}
