// resource-guard.py, lines 231-271: what may be signalled. Each signal is logged with
// the moment at which it was sent.
module Signals {
  import opened Options
  import opened Processes
  import opened World

  datatype Sig = Term | Kill

  datatype Signal = ToGroup(at: nat, group: Pid, sig: Sig) | ToProcess(at: nat, pid: Pid, id: Identity, sig: Sig)

  ghost predicate Anchors(seen: seq<Moment>, leader: Pid, leaderId: Identity, known: map<Pid, Identity>, at: nat,
                          pid: Pid, group: Pid)
  {
    && at < |seen|
    && pid in known && IdentityAt(seen[at], pid) == Some(known[pid])
    && seen[at].procs[pid].pgid == group
    && OwnedNow(seen, leader, leaderId, at, pid)
  }

  // What must hold at the moment a signal is sent. A process has its recorded
  // identity and belongs to the worker; a group is the unreaped leader's or holds
  // such a process.
  ghost predicate SignalOk(seen: seq<Moment>, leader: Pid, leaderId: Identity, known: map<Pid, Identity>, s: Signal) {
    s.at < |seen| &&
    match s
    case ToGroup(at, group, _) =>
      || (group == leader && Pinned(seen[at], leader, leaderId))
      || exists pid | pid in known :: Anchors(seen, leader, leaderId, known, at, pid, group)
    case ToProcess(at, pid, id, _) =>
      && pid in known && known[pid] == id
      && IdentityAt(seen[at], pid) == Some(id)
      && OwnedNow(seen, leader, leaderId, at, pid)
  }

  // So every signalled group held, at that moment, a process of the worker.
  lemma SignalledGroupIsOwned(seen: seq<Moment>, leader: Pid, leaderId: Identity, known: map<Pid, Identity>, at: nat,
                              group: Pid, sig: Sig)
    requires SignalOk(seen, leader, leaderId, known, ToGroup(at, group, sig))
    ensures exists pid | pid in seen[at].procs ::
              seen[at].procs[pid].pgid == group && OwnedNow(seen, leader, leaderId, at, pid)
  {
    if group == leader && Pinned(seen[at], leader, leaderId) {
      LeaderOwned(seen, leader, leaderId, at);
    } else {
      var pid :| pid in known && Anchors(seen, leader, leaderId, known, at, pid, group);
    }
  }

  // Recorded identities are never replaced or dropped.
  ghost predicate Extends(known: map<Pid, Identity>, later: map<Pid, Identity>) {
    forall pid | pid in known :: pid in later && later[pid] == known[pid]
  }

  lemma SignalOkLater(seen: seq<Moment>, longer: seq<Moment>, leader: Pid, leaderId: Identity,
                      known: map<Pid, Identity>, later: map<Pid, Identity>, s: Signal)
    requires SignalOk(seen, leader, leaderId, known, s) && seen <= longer && Extends(known, later)
    ensures SignalOk(longer, leader, leaderId, later, s)
  {
    assert longer[s.at] == seen[s.at];
    match s
    case ToGroup(at, group, _) =>
      if !(group == leader && Pinned(seen[at], leader, leaderId)) {
        var pid :| pid in known && Anchors(seen, leader, leaderId, known, at, pid, group);
        OwnedLonger(seen, longer, leader, leaderId, Link(at, pid, seen[at].procs[pid].identity));
        assert Anchors(longer, leader, leaderId, later, at, pid, group);
      }
    case ToProcess(at, pid, id, _) =>
      OwnedLonger(seen, longer, leader, leaderId, Link(at, pid, id));
  }

  // What the guard looks at before it signals: a group, a target that may be in it, or
  // the process itself.
  datatype Check =
    | OfGroup(at: nat, group: Pid, sig: Sig)
    | OfMember(at: nat, pid: Pid, group: Pid, sig: Sig)
    | OfProcess(at: nat, pid: Pid, id: Identity, sig: Sig)

  // The read falls for another pid: no OSError, so it is not handled where signals are
  // sent.
  ghost predicate Wrong(seen: seq<Moment>, c: Check) {
    && c.at < |seen| && !c.OfGroup?
    && c.pid in seen[c.at].unreadable && seen[c.at].refusal(c.pid) == WrongPid
  }

  // Among the checks from `start` on.
  ghost predicate SomeWrong(seen: seq<Moment>, checks: seq<Check>, start: nat) {
    exists k | start <= k < |checks| :: Wrong(seen, checks[k])
  }

  ghost predicate ChecksSeen(seen: seq<Moment>, checks: seq<Check>) {
    forall c | c in checks :: c.at < |seen|
  }

  // More moments make no check wrong.
  lemma WrongLater(seen: seq<Moment>, longer: seq<Moment>, checks: seq<Check>, start: nat)
    requires seen <= longer && ChecksSeen(seen, checks)
    ensures SomeWrong(longer, checks, start) <==> SomeWrong(seen, checks, start)
  {
    forall k | start <= k < |checks| ensures Wrong(seen, checks[k]) <==> Wrong(longer, checks[k]) {
      assert checks[k] in checks;
    }
  }

  lemma WrongAppend(seen: seq<Moment>, checks: seq<Check>, more: seq<Check>, start: nat)
    requires checks <= more && start <= |checks|
    ensures SomeWrong(seen, more, start) <==> SomeWrong(seen, checks, start) || SomeWrong(seen, more, |checks|)
  {
    if SomeWrong(seen, checks, start) {
      var k :| start <= k < |checks| && Wrong(seen, checks[k]);
      assert more[k] == checks[k];
    }
    if SomeWrong(seen, more, start) {
      var k :| start <= k < |more| && Wrong(seen, more[k]);
      assert k < |checks| ==> checks[k] == more[k];
    }
  }
}
