// resource-guard.py, lines 158-369: the guard, sampling a worker's process tree, judging
// each sample, and stopping the tree.
module Guard {
  import opened Options
  import opened Sequences
  import opened Processes
  import opened World
  import opened Sampling
  import opened Signals
  import opened Verdicts
  import opened SampleLoop
  import opened Cleanup

  const MAX_ERRORS: nat := 32

  class ResourceGuard {
    const machine: Machine
    var known: map<Pid, Identity>
    var cleanupErrors: seq<CleanupError>
    ghost const sample: Sampler
    ghost var log: seq<Signal>
    ghost var checks: seq<Check>

    constructor (m: Machine)
      requires m.Valid()
      ensures Valid() && machine == m && known == map[] && cleanupErrors == [] && log == [] && checks == []
    {
      machine, known, cleanupErrors, log, checks := m, map[], [], [], [];
      var leader := m.leader;
      sample := (m, known, unreaped) => SampleAt(m, known, leader, unreaped);
    }

    ghost predicate Valid()
      reads this, machine
    {
      && machine.Valid()
      && Samples(sample, machine.leader)
      && KnownOwned(machine.seen, machine.leader, machine.leaderId, known)
      && |cleanupErrors| <= 32
      && ChecksSeen(machine.seen, checks)
      && forall s | s in log :: SignalOk(machine.seen, machine.leader, machine.leaderId, known, s)
    }

    // What every part of the guard keeps from one state to the next.
    twostate predicate Continues()
      reads this, machine
    {
      && old(machine.seen) <= machine.seen
      && old(machine.clock) <= machine.clock
      && Extends(old(known), known)
      && old(log) <= log
      && old(checks) <= checks
      && old(cleanupErrors) <= cleanupErrors
      && (old(machine.reaped) ==> machine.reaped && machine.reapedAt == old(machine.reapedAt))
    }

    method Look() returns (m: Moment)
      requires Valid()
      modifies machine
      ensures Valid() && Continues() && known == old(known) && log == old(log) && cleanupErrors == old(cleanupErrors)
      ensures machine.seen == old(machine.seen) + [m] && machine.reaped == old(machine.reaped)
      ensures machine.clock == old(machine.clock) + m.elapsed
      ensures !machine.reaped ==> Pinned(m, machine.leader, machine.leaderId)
    {
      m := machine.Look();
      forall s | s in log ensures SignalOk(machine.seen, machine.leader, machine.leaderId, known, s) {
        SignalOkLater(old(machine.seen), machine.seen, machine.leader, machine.leaderId, known, known, s);
      }
      KnownOwnedLonger(old(machine.seen), machine.seen, machine.leader, machine.leaderId, known);
    }

    // Writes a process of the worker down; an identity written before stays.
    method Record(pid: Pid, identity: Identity)
      requires Valid() && machine.seen != []
      requires OwnedNow(machine.seen, machine.leader, machine.leaderId, |machine.seen| - 1, pid)
      requires identity == machine.seen[|machine.seen| - 1].procs[pid].identity
      requires pid !in known || known[pid] == identity
      modifies this`known
      ensures Valid() && Continues() && known == old(known)[pid := identity]
    {
      ghost var later := known[pid := identity];
      RecordOwned(machine.seen, machine.leader, machine.leaderId, known, pid);
      forall s | s in log ensures SignalOk(machine.seen, machine.leader, machine.leaderId, later, s) {
        SignalOkLater(machine.seen, machine.seen, machine.leader, machine.leaderId, known, later, s);
      }
      known := known[pid := identity];
    }

    // Which processes to account: None where a read raises.
    method FindSelected(m: Moment) returns (r: Option<set<Pid>>)
      ensures r == if SelectionReads(m, known) then Some(Select(m, known, machine.leader, !machine.reaped)) else None
    {
      if m.inventoryFails { return None; }
      var table := Live(m);
      var base := Leading(machine.leader, !machine.reaped);
      var todo := known.Keys;
      while todo != {}
        invariant todo <= known.Keys
        invariant base == Leading(machine.leader, !machine.reaped) + (Verified(m, known) - todo)
        invariant (known.Keys - todo) * table.Keys !! m.unreadable
        decreases todo
      {
        ghost var one := AnyOf(todo);
        var pid :| pid in todo;
        if pid in table {
          if pid in m.unreadable {
            assert pid in known.Keys * table.Keys;
            return None;
          }
          if IdentityAt(m, pid) == Some(known[pid]) { base := base + {pid}; }
        }
        todo := todo - {pid};
      }
      var groups := GroupsOf(table, base) + Leading(machine.leader, !machine.reaped);
      assert base == Leading(machine.leader, !machine.reaped) + Verified(m, known);
      var selected := FindDescendants(base + Members(table, groups), table);
      return Some(selected);
    }

    // One selected process: skipped, or recorded and its footprint added. None where
    // a read raises, and then it may be recorded already.
    method AccountProcess(m: Moment, pid: Pid, current: nat) returns (r: Option<nat>)
      requires Valid() && machine.seen != [] && machine.seen[|machine.seen| - 1] == m
      requires OwnedNow(machine.seen, machine.leader, machine.leaderId, |machine.seen| - 1, pid)
      modifies this`known
      ensures Valid() && Continues()
      ensures r == None <==> pid in m.unreadable || (Accountable(m, old(known), pid) && pid in m.unaccountable)
      ensures r.Some? ==> TalliedOne(m, pid, old(known), known, current, r.value)
    {
      if pid in m.unreadable { return None; }
      var identity := IdentityAt(m, pid);
      if identity == None || (pid in known && known[pid] != identity.value) { return Some(current); }
      Record(pid, identity.value);
      if pid in m.unaccountable { return None; }
      return Some(current + Footprint(m, pid));
    }

    // Records and adds up the selected processes: None where a read raises, and then
    // some of them may be recorded already.
    method Account(m: Moment, selected: set<Pid>) returns (r: Option<nat>)
      requires Valid() && machine.seen != [] && machine.seen[|machine.seen| - 1] == m
      requires forall pid | pid in selected ::
                 OwnedNow(machine.seen, machine.leader, machine.leaderId, |machine.seen| - 1, pid)
      modifies this`known
      ensures Valid() && Continues()
      ensures r == if AccountReads(m, old(known), selected) then Some(Footprints(m, old(known), selected)) else None
      ensures r.Some? ==> known == Recorded(m, old(known), Accounted(m, old(known), selected))
    {
      if m.ownFootprint == None { return None; }
      var current := m.ownFootprint.value;
      var todo := selected;
      TalliedNone(m, selected, known);
      while todo != {}
        invariant Valid() && Continues() && todo <= selected
        invariant TalliedAll(m, selected, todo, old(known), known, current)
        decreases todo
      {
        ghost var one := AnyOf(todo);
        var pid :| pid in todo;
        ghost var now, before := known, current;
        var more := AccountProcess(m, pid, current);
        if more == None {
          TallyStops(m, selected, todo, pid, old(known), now, before);
          return None;
        }
        current := more.value;
        TallyMore(m, selected, todo, pid, old(known), now, known, before, current);
        todo := todo - {pid};
      }
      TallyDone(m, selected, old(known), known, current);
      return Some(current);
    }

    // ---- Stopping the tree ----

    method Remember(operation: string, pid: Option<Pid>)
      requires Valid()
      modifies this`cleanupErrors
      ensures Valid() && Continues()
      ensures cleanupErrors ==
              old(cleanupErrors) + if |old(cleanupErrors)| < MAX_ERRORS then [CleanupError(operation, pid)] else []
    {
      if |cleanupErrors| < MAX_ERRORS {
        cleanupErrors := cleanupErrors + [CleanupError(operation, pid)];
      }
    }

    // Targets are recorded processes.
    ghost predicate Targets(targets: map<Pid, Identity>)
      reads this
    {
      Extends(targets, known)
    }

    // A recorded process, unless it cannot be read or is no longer itself.
    method KeepVerified(m: Moment, pid: Pid, targets: map<Pid, Identity>) returns (more: map<Pid, Identity>)
      requires Valid() && Targets(targets) && pid in known
      modifies this`cleanupErrors
      ensures Valid() && Continues() && Targets(more)
      ensures more.Keys == targets.Keys + if pid !in m.unreadable && pid in Verified(m, known) then {pid} else {}
      ensures if pid in m.unreadable then cleanupErrors != [] else cleanupErrors == old(cleanupErrors)
    {
      more := targets;
      if pid in m.unreadable {
        Remember("cleanup-identity", Some(pid));
      } else if IdentityAt(m, pid) == Some(known[pid]) {
        more := targets[pid := known[pid]];
      }
    }

    // The recorded processes that are still what they were.
    method VerifyKnown(m: Moment) returns (targets: map<Pid, Identity>)
      requires Valid()
      modifies this`cleanupErrors
      ensures Valid() && Continues() && Targets(targets)
      ensures targets.Keys == Verified(m, known) - m.unreadable
      ensures known.Keys !! m.unreadable ==> cleanupErrors == old(cleanupErrors)
      ensures cleanupErrors == [] ==> known.Keys !! m.unreadable
    {
      targets := map[];
      var todo := known.Keys;
      while todo != {}
        invariant Valid() && Continues() && todo <= known.Keys
        invariant Targets(targets) && targets.Keys == (Verified(m, known) - m.unreadable) - todo
        invariant known.Keys - todo !! m.unreadable ==> cleanupErrors == old(cleanupErrors)
        invariant cleanupErrors == [] ==> known.Keys - todo !! m.unreadable
        decreases todo
      {
        ghost var one := AnyOf(todo);
        var pid :| pid in todo;
        todo := todo - {pid};
        targets := KeepVerified(m, pid, targets);
      }
    }

    // One more target, unless it cannot be read, is gone, or is a recorded pid used again.
    method AdoptTarget(m: Moment, pid: Pid, targets: map<Pid, Identity>) returns (more: map<Pid, Identity>)
      requires Valid() && Targets(targets) && machine.seen != [] && machine.seen[|machine.seen| - 1] == m
      requires OwnedNow(machine.seen, machine.leader, machine.leaderId, |machine.seen| - 1, pid)
      modifies this`known, this`cleanupErrors
      ensures Valid() && Continues() && Targets(more)
      ensures AdoptedOne(m, pid, old(known), known, targets, more)
      ensures if pid in m.unreadable then cleanupErrors != [] else cleanupErrors == old(cleanupErrors)
    {
      more := targets;
      if pid in m.unreadable {
        Remember("cleanup-identity", Some(pid));
      } else {
        var identity := IdentityAt(m, pid);
        if identity.Some? && (pid !in known || known[pid] == identity.value) {
          Record(pid, identity.value);
          more := targets[pid := identity.value];
        }
      }
    }

    // Adds the selected processes that are new or unchanged.
    method Adopt(m: Moment, candidates: set<Pid>, verified: map<Pid, Identity>) returns (targets: map<Pid, Identity>)
      requires Valid() && Targets(verified) && machine.seen != [] && machine.seen[|machine.seen| - 1] == m
      requires forall pid | pid in candidates ::
                 OwnedNow(machine.seen, machine.leader, machine.leaderId, |machine.seen| - 1, pid)
      modifies this`known, this`cleanupErrors
      ensures Valid() && Continues() && Targets(targets)
      ensures AdoptedAll(m, candidates, old(known), known, verified, targets)
    {
      targets := verified;
      var todo := candidates;
      AdoptedNone(m, candidates, known, verified);
      while todo != {}
        invariant Valid() && Continues() && Targets(targets) && todo <= candidates
        invariant AdoptedAll(m, candidates - todo, old(known), known, verified, targets)
        decreases todo
      {
        ghost var one := AnyOf(todo);
        var pid :| pid in todo;
        ghost var now, before := known, targets;
        targets := AdoptTarget(m, pid, targets);
        AdoptMore(m, candidates, todo, pid, old(known), now, known, verified, before, targets);
        todo := todo - {pid};
      }
      assert candidates - todo == candidates;
    }

    // After EPERM: an error only if the process is still there, or cannot be read.
    method LookAgain(pid: Pid, identity: Identity)
      requires Valid()
      modifies this`cleanupErrors, machine
      ensures Valid() && Continues() && known == old(known) && log == old(log) && machine.reaped == old(machine.reaped)
      ensures |machine.seen| == old(|machine.seen|) + 1
      ensures var later := machine.seen[old(|machine.seen|)];
              if pid in later.unreadable || IdentityAt(later, pid) == Some(identity) then cleanupErrors != []
              else cleanupErrors == old(cleanupErrors)
    {
      var later := Look();
      if pid in later.unreadable {
        Remember("kill", Some(pid));
        Remember("cleanup-identity", Some(pid));
      } else if IdentityAt(later, pid) == Some(identity) {
        Remember("kill", Some(pid));
      }
    }

    // os.kill on a process just found to be itself, and what a refusal leaves behind.
    method SendToProcess(pid: Pid, identity: Identity, sig: Sig)
      requires Valid() && machine.seen != [] && pid in known && known[pid] == identity
      requires IdentityAt(machine.seen[|machine.seen| - 1], pid) == Some(identity)
      modifies this`log, this`cleanupErrors, machine
      ensures Valid() && Continues() && machine.reaped == old(machine.reaped)
      ensures log == old(log) + [ToProcess(old(|machine.seen|) - 1, pid, identity, sig)]
      ensures |machine.seen| > old(|machine.seen|)
      ensures match machine.seen[old(|machine.seen|)].delivery(pid)
              case Broken => cleanupErrors != []
              case Denied =>
                && |machine.seen| == old(|machine.seen|) + 2
                && var later := machine.seen[old(|machine.seen|) + 1];
                   if pid in later.unreadable || IdentityAt(later, pid) == Some(identity) then cleanupErrors != []
                   else cleanupErrors == old(cleanupErrors)
              case _ => cleanupErrors == old(cleanupErrors)
    {
      KnownIsOwned(machine.seen, machine.leader, machine.leaderId, known, |machine.seen| - 1, pid);
      log := log + [ToProcess(|machine.seen| - 1, pid, identity, sig)];
      var landed := Look();
      match landed.delivery(pid) {
        case Denied => LookAgain(pid, identity);
        case Broken => Remember("kill", Some(pid));
        case _ =>
      }
    }

    // Signals a process if it can be read and has the identity given. The signal
    // lands at a later moment than that check.
    method SignalProcess(pid: Pid, identity: Identity, sig: Sig) returns (raised: bool)
      requires Valid() && pid in known && known[pid] == identity
      modifies this`log, this`checks, this`cleanupErrors, machine
      ensures Valid() && Continues() && known == old(known) && machine.reaped == old(machine.reaped)
      ensures |machine.seen| > old(|machine.seen|)
      ensures var at := old(|machine.seen|);
              var m := machine.seen[at];
              && checks == old(checks) + [OfProcess(at, pid, identity, sig)]
              && log == old(log) + (if pid !in m.unreadable && IdentityAt(m, pid) == Some(identity)
                                    then [ToProcess(at, pid, identity, sig)] else [])
              && (raised <==> pid in m.unreadable && m.refusal(pid) == WrongPid)
              && (pid in m.unreadable && m.refusal(pid) == OtherError ==> cleanupErrors != [])
              && (raised || (pid !in m.unreadable && IdentityAt(m, pid) != Some(identity)) ==>
                    cleanupErrors == old(cleanupErrors))
    {
      ghost var at := |machine.seen|;
      raised := false;
      var m := Look();
      checks := checks + [OfProcess(at, pid, identity, sig)];
      if pid in m.unreadable {
        match m.refusal(pid) {
          case NotPermitted => LookAgain(pid, identity);
          case OtherError => Remember("kill", Some(pid));
          case WrongPid => raised := true;
        }
      } else if IdentityAt(m, pid) == Some(identity) {
        SendToProcess(pid, identity, sig);
      }
    }

    // Whether some target is alive in the group; None where reading `blocker` raises
    // first.
    method Anchored(m: Moment, group: Pid, targets: map<Pid, Identity>, ghost sig: Sig)
      returns (r: Option<bool>, blocker: Pid)
      requires Valid() && Targets(targets) && machine.seen != [] && machine.seen[|machine.seen| - 1] == m
      modifies this`checks
      ensures Valid() && Continues() && MembersRead(m, |machine.seen| - 1, old(checks), checks, r == None, blocker)
      ensures r == Some(true) ==>
                SignalOk(machine.seen, machine.leader, machine.leaderId, known, ToGroup(|machine.seen| - 1, group, sig))
      ensures r == Some(true) ==> !Anchorless(m, targets, group)
      ensures r == Some(false) ==> Anchorless(m, targets, group)
      ensures r == None ==> blocker in targets.Keys * m.unreadable
    {
      blocker := group;
      var todo := targets.Keys;
      while todo != {}
        invariant ChecksSeen(machine.seen, checks) && todo <= targets.Keys
        invariant MembersRead(m, |machine.seen| - 1, old(checks), checks, false, blocker)
        invariant forall pid | pid in targets.Keys - todo :: !InGroup(m, targets, pid, group)
        decreases todo
      {
        ghost var one := AnyOf(todo);
        var pid :| pid in todo;
        todo := todo - {pid};
        checks := checks + [OfMember(|machine.seen| - 1, pid, group, sig)];
        if pid in m.unreadable { return None, pid; }
        if InGroup(m, targets, pid, group) {
          ghost var at := |machine.seen| - 1;
          KnownIsOwned(machine.seen, machine.leader, machine.leaderId, known, at, pid);
          assert Anchors(machine.seen, machine.leader, machine.leaderId, known, at, pid, group);
          return Some(true), pid;
        }
      }
      return Some(false), group;
    }

    // After EPERM: an error only if the group still has members, or none can be listed.
    method LookForGroup(group: Pid)
      requires Valid()
      modifies this`cleanupErrors, machine
      ensures Valid() && Continues() && known == old(known) && log == old(log) && machine.reaped == old(machine.reaped)
      ensures |machine.seen| == old(|machine.seen|) + 1
      ensures var later := machine.seen[old(|machine.seen|)];
              if later.inventoryFails || Members(Live(later), {group}) != {} then cleanupErrors != []
              else cleanupErrors == old(cleanupErrors)
    {
      var later := Look();
      if later.inventoryFails {
        Remember("killpg", Some(group));
        Remember("cleanup-inventory", None);
      } else if Members(Live(later), {group}) != {} {
        Remember("killpg", Some(group));
      }
    }

    // os.killpg on a group found to be the worker's, and what a refusal leaves behind.
    method SendToGroup(group: Pid, sig: Sig)
      requires Valid() && machine.seen != []
      requires SignalOk(machine.seen, machine.leader, machine.leaderId, known, ToGroup(|machine.seen| - 1, group, sig))
      modifies this`log, this`cleanupErrors, machine
      ensures Valid() && Continues() && known == old(known) && machine.reaped == old(machine.reaped)
      ensures log == old(log) + [ToGroup(old(|machine.seen|) - 1, group, sig)]
      ensures |machine.seen| > old(|machine.seen|)
      ensures match machine.seen[old(|machine.seen|)].delivery(group)
              case Broken => cleanupErrors != []
              case Denied =>
                && |machine.seen| == old(|machine.seen|) + 2
                && var later := machine.seen[old(|machine.seen|) + 1];
                   if later.inventoryFails || Members(Live(later), {group}) != {} then cleanupErrors != []
                   else cleanupErrors == old(cleanupErrors)
              case _ => cleanupErrors == old(cleanupErrors)
    {
      log := log + [ToGroup(|machine.seen| - 1, group, sig)];
      var landed := Look();
      match landed.delivery(group) {
        case Denied => LookForGroup(group);
        case Broken => Remember("killpg", Some(group));
        case _ =>
      }
    }

    // Whether the group is the unreaped leader's or a target is alive in it.
    method OwnsGroup(m: Moment, group: Pid, targets: map<Pid, Identity>, ghost sig: Sig)
      returns (owned: Option<bool>, blocker: Pid)
      requires Valid() && Targets(targets) && machine.seen != [] && machine.seen[|machine.seen| - 1] == m
      requires !machine.reaped ==> Pinned(m, machine.leader, machine.leaderId)
      modifies this`checks
      ensures Valid() && Continues() && MembersRead(m, |machine.seen| - 1, old(checks), checks, owned == None, blocker)
      ensures owned == Some(true) ==>
                SignalOk(machine.seen, machine.leader, machine.leaderId, known, ToGroup(|machine.seen| - 1, group, sig))
      ensures group == machine.leader && !machine.reaped ==> owned == Some(true)
      ensures owned == Some(true) ==> (group == machine.leader && !machine.reaped) || !Anchorless(m, targets, group)
      ensures owned == Some(false) ==> Anchorless(m, targets, group)
      ensures owned == None ==> blocker in targets.Keys * m.unreadable
    {
      if group == machine.leader && !machine.reaped {
        owned, blocker := Some(true), group;
      } else {
        owned, blocker := Anchored(m, group, targets, sig);
      }
    }

    // What a failed read for a group leads to.
    method ReadFailed(m: Moment, blocker: Pid, group: Pid) returns (raised: bool)
      requires Valid()
      modifies this`cleanupErrors, machine
      ensures Valid() && Continues() && machine.reaped == old(machine.reaped)
      ensures raised <==> m.refusal(blocker) == WrongPid
    {
      raised := false;
      match m.refusal(blocker) {
        case NotPermitted => LookForGroup(group);
        case OtherError => Remember("killpg", Some(group));
        case WrongPid => raised := true;
      }
    }

    // Signals a group found to be the worker's.
    method SignalGroup(group: Pid, targets: map<Pid, Identity>, sig: Sig) returns (raised: bool)
      requires Valid() && Targets(targets)
      modifies this`log, this`checks, this`cleanupErrors, machine
      ensures Valid() && Continues() && known == old(known) && machine.reaped == old(machine.reaped)
      ensures |machine.seen| > old(|machine.seen|)
      ensures raised <==> SomeWrong(machine.seen, checks, |old(checks)|)
      ensures |checks| > |old(checks)| && checks[|old(checks)|] == OfGroup(old(|machine.seen|), group, sig)
      ensures var sent := [ToGroup(old(|machine.seen|), group, sig)];
              var m, own := machine.seen[old(|machine.seen|)], group == machine.leader && !machine.reaped;
              && (log == old(log) || log == old(log) + sent)
              && (own ==> log == old(log) + sent)
              && (!own && Anchorless(m, targets, group) ==> log == old(log))
              && (!Anchorless(m, targets, group) && targets.Keys * m.unreadable == {} ==> log == old(log) + sent)
    {
      raised := false;
      ghost var at, before := |machine.seen|, checks;
      var m := Look();
      checks := checks + [OfGroup(at, group, sig)];
      var owned, blocker := OwnsGroup(m, group, targets, sig);
      ghost var seen, after := machine.seen, checks;
      GroupWrong(seen, at, before, after, group, sig, owned == None, blocker);
      if owned == None {
        raised := ReadFailed(m, blocker, group);
      } else if owned.value {
        SendToGroup(group, sig);
      }
      WrongLater(seen, machine.seen, checks, |before|);
    }

    // The processes one pass of the cleanup goes for.
    method CollectTargets(m: Moment) returns (targets: map<Pid, Identity>)
      requires Valid() && machine.seen != [] && machine.seen[|machine.seen| - 1] == m
      requires !machine.reaped ==> Pinned(m, machine.leader, machine.leaderId)
      modifies this`known, this`cleanupErrors
      ensures Valid() && Continues() && Targets(targets)
      ensures targets.Keys == CleanupTargets(m, old(known), machine.leader, !machine.reaped)
      ensures known.Keys == old(known).Keys + targets.Keys
    {
      var table := CleanupTable(m);
      var leading := Leading(machine.leader, !machine.reaped);
      var verified := VerifyKnown(m);
      var selected := FindDescendants(verified.Keys + leading + Members(table, leading), table);
      CleanupOwned(machine.seen, machine.leader, machine.leaderId, known, !machine.reaped, table, verified.Keys,
                   selected);
      ghost var before := known;
      targets := Adopt(m, selected * table.Keys - verified.Keys, verified);
      CollectedAre(m, before, known, machine.leader, !machine.reaped, verified, selected, targets);
    }

    // The same with their groups.
    method FindTargets() returns (groups: set<Pid>, targets: map<Pid, Identity>)
      requires Valid()
      modifies this`known, this`cleanupErrors, machine
      ensures Valid() && Continues() && log == old(log) && machine.reaped == old(machine.reaped)
      ensures Targets(targets)
      ensures |machine.seen| == old(|machine.seen|) + 1
      ensures var m := machine.seen[old(|machine.seen|)];
              && targets.Keys == CleanupTargets(m, old(known), machine.leader, !machine.reaped)
              && groups == CleanupGroups(m, old(known), machine.leader, !machine.reaped)
      ensures known.Keys == old(known).Keys + targets.Keys
      ensures machine.seen[old(|machine.seen|)].inventoryFails ==> cleanupErrors != []
    {
      var m := Look();
      if m.inventoryFails { Remember("cleanup-inventory", None); }
      targets := CollectTargets(m);
      groups := Leading(machine.leader, !machine.reaped) + GroupsOf(CleanupTable(m), targets.Keys);
    }

    // Every group is checked, until a read for another pid stops it.
    method SignalGroups(groups: set<Pid>, targets: map<Pid, Identity>, sig: Sig) returns (raised: bool)
      requires Valid() && Targets(targets)
      modifies this`log, this`checks, this`cleanupErrors, machine
      ensures Valid() && Continues() && known == old(known) && machine.reaped == old(machine.reaped)
      ensures raised <==> SomeWrong(machine.seen, checks, |old(checks)|)
      ensures !raised ==>
                GroupsChecked(machine.seen, log, checks, old(|machine.seen|), |machine.seen|, groups,
                              Leading(machine.leader, !machine.reaped), targets, sig)
    {
      raised := false;
      ghost var start, own := |machine.seen|, Leading(machine.leader, !machine.reaped);
      var todo := groups;
      while todo != {}
        invariant Valid() && Continues() && known == old(known) && machine.reaped == old(machine.reaped)
        invariant !SomeWrong(machine.seen, checks, |old(checks)|)
        invariant GroupsChecked(machine.seen, log, checks, start, |machine.seen|, groups - todo, own, targets, sig)
        decreases todo
      {
        ghost var one := AnyOf(todo);
        var group :| group in todo;
        ghost var seen, sent, looked := machine.seen, log, checks;
        raised := SignalGroup(group, targets, sig);
        WrongLater(seen, machine.seen, looked, |old(checks)|);
        WrongAppend(machine.seen, looked, checks, |old(checks)|);
        if raised { return; }
        GroupCheckedNow(machine.seen, sent, log, checks, |looked|, start, |seen|, group in own, targets, group, sig);
        GroupsCheckedMore(seen, machine.seen, sent, log, looked, checks, start, groups, todo, group, own, targets, sig);
        todo := todo - {group};
      }
      assert groups - todo == groups;
    }

    // The same for every target.
    method SignalProcesses(targets: map<Pid, Identity>, sig: Sig) returns (raised: bool)
      requires Valid() && Targets(targets)
      modifies this`log, this`checks, this`cleanupErrors, machine
      ensures Valid() && Continues() && known == old(known) && machine.reaped == old(machine.reaped)
      ensures raised <==> SomeWrong(machine.seen, checks, |old(checks)|)
      ensures !raised ==>
                ProcessesChecked(machine.seen, log, checks, old(|machine.seen|), |machine.seen|, targets.Keys, targets,
                                 sig)
    {
      raised := false;
      ghost var start := |machine.seen|;
      var todo := targets.Keys;
      while todo != {}
        invariant Valid() && Continues() && known == old(known) && machine.reaped == old(machine.reaped)
        invariant todo <= targets.Keys && !SomeWrong(machine.seen, checks, |old(checks)|)
        invariant ProcessesChecked(machine.seen, log, checks, start, |machine.seen|, targets.Keys - todo, targets, sig)
        decreases todo
      {
        ghost var one := AnyOf(todo);
        var pid :| pid in todo;
        ghost var seen, sent, looked := machine.seen, log, checks;
        raised := SignalProcess(pid, targets[pid], sig);
        WrongLater(seen, machine.seen, looked, |old(checks)|);
        WrongAppend(machine.seen, looked, checks, |old(checks)|);
        ProcessWrong(machine.seen, looked, |seen|, pid, targets[pid], sig);
        if raised { return; }
        ProcessCheckedNow(machine.seen, sent, log, looked, start, |seen|, pid, targets[pid], sig);
        ProcessesCheckedMore(seen, machine.seen, sent, log, looked, checks, start, targets.Keys, todo, pid, targets,
                             sig);
        todo := todo - {pid};
      }
      assert targets.Keys - todo == targets.Keys;
    }

    method SignalAll(groups: set<Pid>, targets: map<Pid, Identity>, sig: Sig) returns (raised: bool)
      requires Valid() && Targets(targets)
      modifies this`log, this`checks, this`cleanupErrors, machine
      ensures Valid() && Continues() && known == old(known) && machine.reaped == old(machine.reaped)
      ensures raised <==> SomeWrong(machine.seen, checks, |old(checks)|)
      ensures !raised ==>
                ErrandDone(machine.seen, log, checks, old(|machine.seen|), |machine.seen|,
                           Errand(targets.Keys, groups, Leading(machine.leader, !machine.reaped)), known, sig)
    {
      ghost var start, own, none := |machine.seen|, Leading(machine.leader, !machine.reaped), checks;
      raised := SignalGroups(groups, targets, sig);
      if raised { return; }
      ghost var seen, sent, looked := machine.seen, log, checks;
      raised := SignalProcesses(targets, sig);
      WrongLater(seen, machine.seen, looked, |none|);
      WrongAppend(machine.seen, looked, checks, |none|);
      if raised { return; }
      BothChecked(seen, machine.seen, sent, log, looked, checks, start, groups, own, targets, known, sig);
    }

    // A whole pass: find the targets, then signal them. An idle pass found nothing.
    method Pass(sig: Sig) returns (idle: bool, raised: bool)
      requires Valid()
      modifies this`known, this`log, this`checks, this`cleanupErrors, machine
      ensures Valid() && Continues() && machine.reaped == old(machine.reaped)
      ensures |machine.seen| > old(|machine.seen|) && (idle ==> machine.reaped && !raised)
      ensures idle <==> NothingToDo(machine.seen[old(|machine.seen|)], old(known), machine.leader, !machine.reaped)
      ensures idle ==> |machine.seen| == old(|machine.seen|) + 1 && log == old(log) && checks == old(checks)
      ensures raised <==> SomeWrong(machine.seen, checks, |old(checks)|)
      ensures !raised ==>
                PassDone(machine.seen, log, checks, old(|machine.seen|), |machine.seen|, old(known), machine.leader,
                         !machine.reaped, known, sig)
    {
      ghost var from := |machine.seen|;
      var groups, targets := FindTargets();
      ghost var m := machine.seen[from];
      assert Errand(targets.Keys, groups, Leading(machine.leader, !machine.reaped))
          == ErrandAt(m, old(known), machine.leader, !machine.reaped);
      if groups == {} && targets == map[] { return true, false; }
      idle := false;
      raised := SignalAll(groups, targets, sig);
    }

    // A pass of terminations, a pause, and a pass of kills; a pass that finds nothing
    // ends the cleanup, and so does a read for another pid.
    method BothPasses() returns (idle: bool, raised: bool, ghost p: Passes)
      requires Valid()
      modifies this`known, this`log, this`checks, this`cleanupErrors, machine
      ensures Valid() && Continues() && machine.reaped == old(machine.reaped)
      ensures |machine.seen| > old(|machine.seen|) && (idle ==> machine.reaped)
      ensures p.from == old(|machine.seen|) && p.before == old(known) && p.unreaped == !machine.reaped
      ensures NothingToDo(machine.seen[p.from], old(known), machine.leader, p.unreaped) ==>
                idle && !raised && log == old(log) && checks == old(checks)
      ensures raised <==> SomeWrong(machine.seen, checks, |old(checks)|)
      ensures !raised ==> CleanedUp(machine.seen, log, checks, machine.leader, p, known)
      ensures !raised && !idle ==> p.middle < |machine.seen| && machine.clock >= old(machine.clock) + 200
    {
      ghost var from, none := |machine.seen|, checks;
      idle, raised := Pass(Term);
      p := Passes(from, |machine.seen|, old(known), known, !machine.reaped);
      if idle || raised { return; }
      machine.Sleep(200);
      ghost var seen, sent, looked, between := machine.seen, log, checks, known;
      idle, raised := Pass(Kill);
      WrongLater(seen, machine.seen, looked, |none|);
      WrongAppend(machine.seen, looked, checks, |none|);
      if raised { return; }
      PassStaysDone(seen, machine.seen, sent, log, looked, checks, from, |seen|, |seen|, old(known), machine.leader,
                    !machine.reaped, between, between, Term);
    }

    // child.wait, for two seconds at most.
    method WaitForLeader()
      requires Valid() && !machine.reaped
      modifies this`cleanupErrors, machine
      ensures Valid() && Continues() && |machine.seen| == old(|machine.seen|) + 1
      ensures machine.reaped ==> machine.reapedAt == |machine.seen|
      ensures machine.reaped <==> machine.seen[|machine.seen| - 1].exit.Some?
      ensures if machine.reaped then cleanupErrors == old(cleanupErrors) else cleanupErrors != []
    {
      var m := Look();
      if m.exit.Some? {
        machine.Reap();
      } else {
        Remember("cleanup-wait", Some(machine.leader));
      }
    }

    // stop_tree(). It raises exactly if one of its checks reads another pid; otherwise
    // every process and group that a pass goes for is checked in it. Where the first
    // look finds nothing to do, it does nothing.
    method StopTree() returns (raised: bool, ghost p: Passes)
      requires Valid()
      modifies this`known, this`log, this`checks, this`cleanupErrors, machine
      ensures Valid() && Continues()
      ensures |machine.seen| > old(|machine.seen|)
      ensures machine.reaped && !old(machine.reaped) ==> machine.reapedAt == |machine.seen|
      ensures p.from == old(|machine.seen|) && p.before == old(known) && p.unreaped == !old(machine.reaped)
      ensures NothingToDo(machine.seen[p.from], old(known), machine.leader, p.unreaped) ==>
                !raised && log == old(log) && checks == old(checks)
      ensures raised <==> SomeWrong(machine.seen, checks, |old(checks)|)
      ensures !raised ==> CleanedUp(machine.seen, log, checks, machine.leader, p, known)
    {
      ghost var none := checks;
      var idle;
      idle, raised, p := BothPasses();
      if !raised && !idle && !machine.reaped {
        ghost var seen := machine.seen;
        WaitForLeader();
        WrongLater(seen, machine.seen, checks, |none|);
        StaysCleanedUp(seen, machine.seen, log, checks, machine.leader, p, known);
      }
    }

    // ---- The whole run ----

    // One inventory, and the account of the worker's processes in it.
    method TakeSample() returns (m: Moment, r: Option<(set<Pid>, nat)>)
      requires Valid()
      modifies this`known, machine
      ensures Valid() && Continues() && log == old(log) && cleanupErrors == old(cleanupErrors)
      ensures machine.reaped == old(machine.reaped) && machine.seen == old(machine.seen) + [m]
      ensures machine.clock == old(machine.clock) + m.elapsed
      ensures match SampleAt(m, old(known), machine.leader, !machine.reaped)
              case None => r == None
              case Some(s) =>
                && r.Some? && r.value.1 == s.current && known == s.known
                && r.value.0 * Live(m).Keys - {machine.leader} == s.survivors
    {
      m := Look();
      var selected := FindSelected(m);
      if selected == None { return m, None; }
      SelectionOwned(machine.seen, machine.leader, machine.leaderId, known, !machine.reaped, selected.value);
      var current := Account(m, selected.value);
      if current == None { return m, None; }
      return m, Some((selected.value, current.value));
    }

    // The first half of a round: the sample, and what there is to judge.
    method CompleteRound(began: nat, returned: Option<int>) returns (round: Option<Round>, ghost m: Moment)
      requires Valid() && began <= machine.clock && (machine.reaped <==> returned.Some?)
      modifies this`known, machine
      ensures Valid() && Continues() && log == old(log) && cleanupErrors == old(cleanupErrors)
      ensures machine.reaped == old(machine.reaped) && machine.seen == old(machine.seen) + [m]
      ensures machine.clock == old(machine.clock) + m.elapsed
      ensures match sample(m, old(known), returned == None)
              case None => round == None
              case Some(s) =>
                round == Some(Round(s.current, m, machine.clock - began, returned, s.survivors)) && known == s.known
    {
      var look, sampled := TakeSample();
      m := look;
      if sampled == None { return None, m; }
      var (selected, current) := sampled.value;
      var survivors := selected * Live(look).Keys - {machine.leader};
      return Some(Round(current, look, machine.clock - began, returned, survivors)), m;
    }

    // The second half of a round: the limits, the leader's return code, reaping it
    // when it first shows one, and what it left behind. Otherwise a sleep. finishedAt is
    // when, since the start of the loop, a round first found the leader gone.
    method SettleRound(round: Round, finishedAt: Option<nat>, limit: nat, timeout: nat) returns (settled: Settled)
      requires Valid() && (machine.reaped <==> round.returned.Some?)
      modifies machine`reaped, machine`reapedAt, machine`clock
      ensures Valid() && settled == Settle(round, finishedAt, limit, timeout)
      ensures old(machine.reaped) ==> machine.reaped && machine.reapedAt == old(machine.reapedAt)
      ensures match settled
              case End(_, _, last) => machine.clock == old(machine.clock) && (machine.reaped <==> last.returned.Some?)
              case Go(returned, _, sleep) =>
                machine.clock == old(machine.clock) + sleep && (machine.reaped <==> returned.Some?)
    {
      var verdict := JudgeLimits(round, limit, timeout);
      if verdict.Some? { return End(verdict.value.0, verdict.value.1, round); }
      var now := round.returned;
      if now == None && round.moment.exit.Some? {
        now := round.moment.exit;
        machine.Reap();
      }
      if now == None {
        machine.Sleep(100);
        return Go(None, finishedAt, 100);
      }
      var last, code := round.(returned := now), ExitCode(now.value);
      if last.survivors == {} { return End(if code == 0 then Completed else WorkerFailed, code, last); }
      var since := if finishedAt == None then round.elapsed else finishedAt.value;
      if round.elapsed >= since + 500 { return End(Orphaned, 126, last); }
      machine.Sleep(50);
      return Go(now, Some(since), 50);
    }

    // A whole round, `time` after the start of the loop. None where a read raised.
    method OneRound(began: nat, returned: Option<int>, finishedAt: Option<nat>, limit: nat, timeout: nat,
                    ghost ms: seq<Moment>, ghost before: map<Pid, Identity>, ghost samples: seq<nat>, ghost time: nat)
      returns (how: Option<Settled>, current: nat, ghost m: Moment, ghost later: nat)
      requires Valid() && began <= machine.clock && time == machine.clock - began
      requires machine.reaped <==> returned.Some?
      requires LoopRun(sample, ms, before, limit, timeout) == Running(known, samples, returned, finishedAt, time)
      modifies this`known, machine
      ensures Valid() && Continues() && machine.seen == old(machine.seen) + [m]
      ensures machine.clock >= began && later == machine.clock - began
      ensures match how
              case None =>
                EndsAt(sample, ms + [m], before, limit, timeout, Ended(GuardError, 126, None, samples, old(known)))
              case Some(End(reason, code, last)) =>
                && EndsAt(sample, ms + [m], before, limit, timeout,
                          Ended(reason, code, Some(last), samples + [current], known))
                && (reason == MemoryLimit <==> current > limit) && (machine.reaped <==> last.returned.Some?)
              case Some(Go(now, since, sleep)) =>
                && LoopRun(sample, ms + [m], before, limit, timeout)
                == Running(known, samples + [current], now, since, later)
                && (machine.reaped <==> now.Some?) && current <= limit && time < timeout && later >= time + 50
    {
      var round;
      ghost var recorded := known;
      round, m := CompleteRound(began, returned);
      RoundDone(sample, ms, m, before, limit, timeout, recorded, samples, returned, finishedAt, time, round, known);
      if round == None { return None, 0, m, machine.clock - began; }
      current := round.value.current;
      SettleExplains(round.value, finishedAt, limit, timeout);
      var settled := SettleRound(round.value, finishedAt, limit, timeout);
      how, later := Some(settled), machine.clock - began;
      assert settled.Go? ==> later == round.value.elapsed + settled.sleep;
    }

    // The sampling loop: it ends as LoopRun says of the moments ms it sees. `samples` are
    // the samples completed, and `last` the round that ended the loop, unless a read
    // raised in it.
    method Watch(limit: nat, timeout: nat)
      returns (reason: Reason, code: int, peak: nat, ghost samples: seq<nat>, ghost last: Option<Round>,
               ghost ms: seq<Moment>, ghost recorded: map<Pid, Identity>)
      requires Valid() && !machine.reaped
      modifies this`known, machine
      ensures Valid() && Continues() && machine.seen == old(machine.seen) + ms && |ms| <= MostRounds(timeout) + 1
      ensures EndsAt(sample, ms, old(known), limit, timeout, Ended(reason, code, last, samples, recorded))
      ensures Extends(recorded, known) && (last.Some? ==> recorded == known)
      ensures peak == MaxOf(samples) && (peak > limit <==> reason == MemoryLimit)
      ensures last.Some? ==> (machine.reaped <==> last.value.returned.Some?)
    {
      ghost var before, time: nat := known, 0;
      var began := machine.clock;
      var finishedAt: Option<nat> := None;
      var returned: Option<int> := None;
      reason, code, peak, samples, last, ms, recorded := Completed, 1, 0, [], None, [], known;
      while true
        invariant Valid() && Continues() && last == None
        invariant machine.seen == old(machine.seen) + ms && began <= machine.clock && time == machine.clock - began
        invariant LoopRun(sample, ms, before, limit, timeout) == Running(known, samples, returned, finishedAt, time)
        invariant machine.reaped <==> returned.Some?
        invariant peak == MaxOf(samples) <= limit
        invariant 50 * |ms| <= time && |ms| <= MostRounds(timeout)
        decreases MostRounds(timeout) + 1 - |ms|
      {
        recorded := known;
        var how, current;
        ghost var m, later;
        how, current, m, later := OneRound(began, returned, finishedAt, limit, timeout, ms, before, samples, time);
        Regroup(old(machine.seen), ms, [m]);
        ms := ms + [m];
        if how == None {
          reason, code := GuardError, 126;
          break;
        }
        recorded := known;
        MaxOfAppend(samples, current);
        samples := samples + [current];
        if current > peak { peak := current; }
        match how.value {
          case End(why, number, ended) =>
            reason, code, last := why, number, Some(ended);
            break;
          case Go(after, since, sleep) =>
            RoundFits(|ms| - 1, timeout);
            returned, finishedAt, time := after, since, later;
        }
      }
    }

    // What a clean loop leaves for the cleanup: nothing, unless a process of the worker
    // has taken over the leader's pid.
    lemma CleanRunIsIdle(seen: seq<Moment>, ms: seq<Moment>, before: map<Pid, Identity>, limit: nat, timeout: nat,
                         end: Loop, unreaped: bool)
      requires Valid() && seen != [] && seen <= machine.seen && |seen| < |machine.seen|
      requires EndsAt(sample, ms, before, limit, timeout, end) && seen[|seen| - 1] == ms[|ms| - 1] && end.code == 0
      requires KnownOwned(seen, machine.leader, machine.leaderId, end.known)
      requires machine.reaped && machine.reapedAt <= |seen| && !unreaped
      requires !LeaderPidTaken(end.known, machine.leader, machine.leaderId)
      ensures NothingToDo(machine.seen[|seen|], end.known, machine.leader, unreaped)
    {
      var now, wasUnreaped := EndExplained(sample, ms, before, limit, timeout, end);
      ExplainedCodes(end.reason, end.code, end.last, limit, timeout);
      var last := Sample(end.last.value.current, end.last.value.survivors, end.known);
      assert SampleAt(ms[|ms| - 1], now, machine.leader, wasUnreaped) == Some(last);
      NoneSurvives(ms[|ms| - 1], now, machine.leader, wasUnreaped, last);
      DeadMeansNothing(seen, machine.seen, end.known, machine.leader, machine.leaderId, machine.reapedAt, unreaped);
    }

    // The guard around a worker that was started: watch it, stop its tree, report. The
    // loop sees the moments ms and ends as LoopRun says; the cleanup works as `p` says.
    // Where it raises, the report is still written, but the guard itself ends with
    // status 1.
    method Run(limit: nat, timeout: nat)
      returns (reason: Reason, code: int, status: int, peak: nat, ghost end: Loop, ghost ms: seq<Moment>,
               ghost p: Passes, ghost raised: bool)
      requires Valid() && !machine.reaped && cleanupErrors == []
      modifies this, machine
      ensures Valid() && Continues()
      ensures old(machine.seen) + ms <= machine.seen && p.from == |old(machine.seen)| + |ms| < |machine.seen|
      ensures |ms| <= MostRounds(timeout) + 1
      ensures EndsAt(sample, ms, old(known), limit, timeout, end)
      ensures Extends(end.known, p.before) && (end.last.Some? ==> end.known == p.before)
      ensures raised <==> SomeWrong(machine.seen, checks, |old(checks)|)
      ensures !raised ==> CleanedUp(machine.seen, log, checks, machine.leader, p, known)
      ensures code == 0 && !LeaderPidTaken(p.before, machine.leader, machine.leaderId) ==> !raised && log == old(log)
      ensures peak == MaxOf(end.samples) && (peak > limit <==> reason == MemoryLimit)
      ensures (reason, code) ==
              if end.code == 0 && cleanupErrors != [] then (CleanupFailed, 126) else (end.reason, end.code)
      ensures Reported(reason, code, end.last, cleanupErrors, limit, timeout)
      ensures status == if raised then 1 else code
    {
      // Every exit of the loop leads to the cleanup.
      ghost var samples, last, recorded;
      reason, code, peak, samples, last, ms, recorded := Watch(limit, timeout);
      end := Ended(reason, code, last, samples, recorded);
      ghost var now, unreaped := EndExplained(sample, ms, old(known), limit, timeout, end);
      ExplainedCodes(reason, code, last, limit, timeout);
      ghost var seen, clean := machine.seen, code == 0 && !LeaderPidTaken(known, machine.leader, machine.leaderId);
      var aborted;
      aborted, p := StopTree();
      raised := aborted;
      if clean { CleanRunIsIdle(seen, ms, old(known), limit, timeout, end, p.unreaped); }
      if cleanupErrors != [] && code == 0 {
        reason, code := CleanupFailed, 126;
      }
      status := if aborted then 1 else code;
    }
  }
}
