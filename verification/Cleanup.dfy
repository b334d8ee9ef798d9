// resource-guard.py, lines 188-277: which processes and groups a pass of the cleanup
// goes for, and what it means that all of them were dealt with.
module Cleanup {
  import opened Options
  import opened Processes
  import opened World
  import opened Sampling
  import opened Signals

  // The cleanup passes over what it cannot read: one process adopted or skipped, and
  // all that were looked at.
  predicate AdoptedOne(m: Moment, pid: Pid, known: map<Pid, Identity>, later: map<Pid, Identity>,
                       targets: map<Pid, Identity>, more: map<Pid, Identity>)
  {
    if pid in m.unreadable || !Accountable(m, known, pid)
    then later == known && more.Keys == targets.Keys
    else later == known[pid := IdentityAt(m, pid).value] && more.Keys == targets.Keys + {pid}
  }

  predicate Gathered(m: Moment, adopted: set<Pid>, known: map<Pid, Identity>, later: map<Pid, Identity>,
                     verified: map<Pid, Identity>, targets: map<Pid, Identity>)
  {
    targets.Keys == verified.Keys + adopted && later == Recorded(m, known, adopted)
  }

  predicate AdoptedAll(m: Moment, looked: set<Pid>, known: map<Pid, Identity>, later: map<Pid, Identity>,
                       verified: map<Pid, Identity>, targets: map<Pid, Identity>)
  {
    Gathered(m, Accounted(m, known, looked - m.unreadable), known, later, verified, targets)
  }

  lemma GatherMore(m: Moment, adopted: set<Pid>, pid: Pid, known: map<Pid, Identity>, now: map<Pid, Identity>,
                   later: map<Pid, Identity>, verified: map<Pid, Identity>, targets: map<Pid, Identity>,
                   more: map<Pid, Identity>)
    requires pid !in adopted && pid !in m.unreadable
    requires Gathered(m, adopted, known, now, verified, targets) && AdoptedOne(m, pid, now, later, targets, more)
    ensures Gathered(m, if Accountable(m, known, pid) then adopted + {pid} else adopted, known, later, verified, more)
  {
    AdoptRead(m, adopted, pid, known);
    assert verified.Keys + adopted + {pid} == verified.Keys + (adopted + {pid});
  }

  lemma AdoptedNone(m: Moment, candidates: set<Pid>, known: map<Pid, Identity>, verified: map<Pid, Identity>)
    ensures AdoptedAll(m, candidates - candidates, known, known, verified, verified)
  {
    assert Accounted(m, known, candidates - candidates - m.unreadable) == {};
  }

  lemma AccountedMore(m: Moment, candidates: set<Pid>, todo: set<Pid>, pid: Pid, known: map<Pid, Identity>)
    requires todo <= candidates && pid in todo
    ensures var done := Accounted(m, known, candidates - todo - m.unreadable);
            && pid !in done
            && Accounted(m, known, candidates - (todo - {pid}) - m.unreadable)
            == if pid in m.unreadable || !Accountable(m, known, pid) then done else done + {pid}
  {
    var read, next := candidates - todo - m.unreadable, candidates - (todo - {pid}) - m.unreadable;
    if pid in m.unreadable {
      assert next == read;
    } else {
      assert next == read + {pid};
      AccountedOne(m, known, read, pid);
    }
  }

  lemma AdoptMore(m: Moment, candidates: set<Pid>, todo: set<Pid>, pid: Pid, known: map<Pid, Identity>,
                  now: map<Pid, Identity>, later: map<Pid, Identity>, verified: map<Pid, Identity>,
                  targets: map<Pid, Identity>, more: map<Pid, Identity>)
    requires todo <= candidates && pid in todo
    requires AdoptedAll(m, candidates - todo, known, now, verified, targets)
    requires AdoptedOne(m, pid, now, later, targets, more)
    ensures AdoptedAll(m, candidates - (todo - {pid}), known, later, verified, more)
  {
    AccountedMore(m, candidates, todo, pid, known);
    if pid !in m.unreadable {
      var done := Accounted(m, known, candidates - todo - m.unreadable);
      GatherMore(m, done, pid, known, now, later, verified, targets, more);
    }
  }

  // ---- What a pass of the cleanup goes for ----

  function CleanupTable(m: Moment): Table {
    if m.inventoryFails then map[] else Live(m)
  }

  // The recorded processes that are still themselves, and the new or unchanged ones
  // among the leader's group and all descendants; an unreadable process is left out.
  function CleanupTargets(m: Moment, known: map<Pid, Identity>, leader: Pid, unreaped: bool): set<Pid> {
    var table, leading, verified := CleanupTable(m), Leading(leader, unreaped), Verified(m, known) - m.unreadable;
    var selected := Descendants(verified + leading + Members(table, leading), table);
    verified + Accounted(m, known, (selected * table.Keys - verified) - m.unreadable)
  }

  function CleanupGroups(m: Moment, known: map<Pid, Identity>, leader: Pid, unreaped: bool): set<Pid> {
    Leading(leader, unreaped) + GroupsOf(CleanupTable(m), CleanupTargets(m, known, leader, unreaped))
  }

  predicate InGroup(m: Moment, targets: map<Pid, Identity>, pid: Pid, group: Pid) {
    pid in targets && pid in m.procs && m.procs[pid].pgid == group && IdentityAt(m, pid) == Some(targets[pid])
  }

  ghost predicate Anchorless(m: Moment, targets: map<Pid, Identity>, group: Pid) {
    forall pid | pid in targets :: !InGroup(m, targets, pid, group)
  }

  lemma CollectedAre(m: Moment, known: map<Pid, Identity>, later: map<Pid, Identity>, leader: Pid, unreaped: bool,
                     verified: map<Pid, Identity>, selected: set<Pid>, targets: map<Pid, Identity>)
    requires verified.Keys == Verified(m, known) - m.unreadable
    requires var table, leading := CleanupTable(m), Leading(leader, unreaped);
             && selected == Descendants(verified.Keys + leading + Members(table, leading), table)
             && AdoptedAll(m, selected * table.Keys - verified.Keys, known, later, verified, targets)
    ensures targets.Keys == CleanupTargets(m, known, leader, unreaped)
    ensures later.Keys == known.Keys + targets.Keys
  {
  }

  // ---- What a pass does ----

  // The guard looked at the process at one moment of the pass and, if it could read it
  // and found it to be itself, signalled it.
  ghost predicate ProcessChecked(seen: seq<Moment>, log: seq<Signal>, checks: seq<Check>, start: nat, end: nat,
                                 pid: Pid, id: Identity, sig: Sig)
  {
    exists at | start <= at < end && at < |seen| ::
      && OfProcess(at, pid, id, sig) in checks
      && (pid !in seen[at].unreadable && IdentityAt(seen[at], pid) == Some(id) ==> ToProcess(at, pid, id, sig) in log)
  }

  // The same for a group. The unreaped leader's own is signalled in any case; another
  // one if a target is in it, unless some target cannot be read.
  ghost predicate GroupChecked(seen: seq<Moment>, log: seq<Signal>, checks: seq<Check>, start: nat, end: nat, own: bool,
                               targets: map<Pid, Identity>, group: Pid, sig: Sig)
  {
    exists at | start <= at < end && at < |seen| ::
      && OfGroup(at, group, sig) in checks
      && (ToGroup(at, group, sig) in log
          || (!own && (Anchorless(seen[at], targets, group) || targets.Keys * seen[at].unreadable != {})))
  }

  lemma CheckedLater(seen: seq<Moment>, longer: seq<Moment>, log: seq<Signal>, log': seq<Signal>, checks: seq<Check>,
                     checks': seq<Check>, start: nat, start': nat, end: nat, end': nat)
    requires seen <= longer && log <= log' && checks <= checks' && start' <= start && end <= end'
    ensures forall pid, id, sig | ProcessChecked(seen, log, checks, start, end, pid, id, sig) ::
              ProcessChecked(longer, log', checks', start', end', pid, id, sig)
    ensures forall own, targets, group, sig | GroupChecked(seen, log, checks, start, end, own, targets, group, sig) ::
              GroupChecked(longer, log', checks', start', end', own, targets, group, sig)
  {
    assert forall s | s in log :: s in log';
    assert forall c | c in checks :: c in checks';
    assert forall at | 0 <= at < |seen| :: longer[at] == seen[at];
  }

  function Chosen(pids: set<Pid>, known: map<Pid, Identity>): map<Pid, Identity> {
    map pid | pid in pids && pid in known :: known[pid]
  }

  lemma ChosenStays(pids: set<Pid>, known: map<Pid, Identity>, known': map<Pid, Identity>)
    requires pids <= known.Keys && Extends(known, known')
    ensures Chosen(pids, known) == Chosen(pids, known')
  {
    assert forall pid | pid in pids :: pid in known && pid in known' && known'[pid] == known[pid];
    assert Chosen(pids, known).Keys == pids == Chosen(pids, known').Keys;
  }

  ghost predicate ProcessesChecked(seen: seq<Moment>, log: seq<Signal>, checks: seq<Check>, start: nat, end: nat,
                                   pids: set<Pid>, known: map<Pid, Identity>, sig: Sig)
  {
    forall pid | pid in pids && pid in known :: ProcessChecked(seen, log, checks, start, end, pid, known[pid], sig)
  }

  ghost predicate GroupsChecked(seen: seq<Moment>, log: seq<Signal>, checks: seq<Check>, start: nat, end: nat,
                                groups: set<Pid>, own: set<Pid>, targets: map<Pid, Identity>, sig: Sig)
  {
    forall group | group in groups ::
      GroupChecked(seen, log, checks, start, end, group in own, targets, group, sig)
  }

  ghost predicate AllChecked(seen: seq<Moment>, log: seq<Signal>, checks: seq<Check>, start: nat, end: nat,
                             pids: set<Pid>, groups: set<Pid>, own: set<Pid>, known: map<Pid, Identity>, sig: Sig)
  {
    && pids <= known.Keys
    && ProcessesChecked(seen, log, checks, start, end, pids, known, sig)
    && GroupsChecked(seen, log, checks, start, end, groups, own, Chosen(pids, known), sig)
  }

  lemma AllStayChecked(seen: seq<Moment>, longer: seq<Moment>, log: seq<Signal>, log': seq<Signal>, checks: seq<Check>,
                       checks': seq<Check>, start: nat, end: nat, end': nat, pids: set<Pid>, groups: set<Pid>,
                       own: set<Pid>, known: map<Pid, Identity>, known': map<Pid, Identity>, sig: Sig)
    requires seen <= longer && log <= log' && checks <= checks' && end <= end' && Extends(known, known')
    requires AllChecked(seen, log, checks, start, end, pids, groups, own, known, sig)
    ensures AllChecked(longer, log', checks', start, end', pids, groups, own, known', sig)
  {
    CheckedLater(seen, longer, log, log', checks, checks', start, start, end, end');
    ChosenStays(pids, known, known');
    forall pid | pid in pids ensures pid in known' && known'[pid] == known[pid] {
      assert pid in known;
    }
  }

  // What a pass that looks at moment m goes for.
  datatype Errand = Errand(pids: set<Pid>, groups: set<Pid>, own: set<Pid>)

  function ErrandAt(m: Moment, known: map<Pid, Identity>, leader: Pid, unreaped: bool): Errand {
    Errand(CleanupTargets(m, known, leader, unreaped), CleanupGroups(m, known, leader, unreaped),
           Leading(leader, unreaped))
  }

  ghost predicate ErrandDone(seen: seq<Moment>, log: seq<Signal>, checks: seq<Check>, start: nat, end: nat, e: Errand,
                             known: map<Pid, Identity>, sig: Sig)
  {
    AllChecked(seen, log, checks, start, end, e.pids, e.groups, e.own, known, sig)
  }

  // Everything that a pass starting at moment `from` goes for was checked before
  // moment `end`.
  ghost predicate PassDone(seen: seq<Moment>, log: seq<Signal>, checks: seq<Check>, from: nat, end: nat,
                           known: map<Pid, Identity>, leader: Pid, unreaped: bool, later: map<Pid, Identity>, sig: Sig)
  {
    && from < end && from < |seen|
    && ErrandDone(seen, log, checks, from + 1, end, ErrandAt(seen[from], known, leader, unreaped), later, sig)
  }

  lemma ErrandStaysDone(seen: seq<Moment>, longer: seq<Moment>, log: seq<Signal>, log': seq<Signal>, checks: seq<Check>,
                        checks': seq<Check>, start: nat, end: nat, end': nat, e: Errand, known: map<Pid, Identity>,
                        known': map<Pid, Identity>, sig: Sig)
    requires seen <= longer && log <= log' && checks <= checks' && end <= end' && Extends(known, known')
    requires ErrandDone(seen, log, checks, start, end, e, known, sig)
    ensures ErrandDone(longer, log', checks', start, end', e, known', sig)
  {
    AllStayChecked(seen, longer, log, log', checks, checks', start, end, end', e.pids, e.groups, e.own, known, known',
                   sig);
  }

  lemma PassStaysDone(seen: seq<Moment>, longer: seq<Moment>, log: seq<Signal>, log': seq<Signal>, checks: seq<Check>,
                      checks': seq<Check>, from: nat, end: nat, end': nat, known: map<Pid, Identity>, leader: Pid,
                      unreaped: bool, later: map<Pid, Identity>, later': map<Pid, Identity>, sig: Sig)
    requires seen <= longer && log <= log' && checks <= checks' && end <= end' && Extends(later, later')
    requires PassDone(seen, log, checks, from, end, known, leader, unreaped, later, sig)
    ensures PassDone(longer, log', checks', from, end', known, leader, unreaped, later', sig)
  {
    assert longer[from] == seen[from];
    ErrandStaysDone(seen, longer, log, log', checks, checks', from + 1, end, end',
                    ErrandAt(seen[from], known, leader, unreaped), later, later', sig);
  }

  // ---- One check ----

  // The members read for a group at moment `at`: all could be read but the blocker.
  ghost predicate MembersRead(m: Moment, at: nat, before: seq<Check>, after: seq<Check>, blocked: bool, blocker: Pid) {
    && before <= after
    && (forall k | |before| <= k < |after| ::
          && after[k].OfMember? && after[k].at == at
          && (after[k].pid in m.unreadable ==> blocked && after[k].pid == blocker))
    && (blocked ==> |after| > |before| && after[|after| - 1].pid == blocker && blocker in m.unreadable)
  }

  lemma GroupWrong(seen: seq<Moment>, at: nat, before: seq<Check>, after: seq<Check>, group: Pid, sig: Sig,
                   blocked: bool, blocker: Pid)
    requires at < |seen| && MembersRead(seen[at], at, before + [OfGroup(at, group, sig)], after, blocked, blocker)
    ensures SomeWrong(seen, after, |before|) <==> blocked && seen[at].refusal(blocker) == WrongPid
    ensures |after| > |before| && after[|before|] == OfGroup(at, group, sig)
  {
    assert (before + [OfGroup(at, group, sig)])[|before|] == OfGroup(at, group, sig);
    if blocked { assert after[|after| - 1].OfMember?; }
  }

  lemma ProcessWrong(seen: seq<Moment>, before: seq<Check>, at: nat, pid: Pid, id: Identity, sig: Sig)
    requires at < |seen|
    ensures SomeWrong(seen, before + [OfProcess(at, pid, id, sig)], |before|) <==>
            pid in seen[at].unreadable && seen[at].refusal(pid) == WrongPid
  {
    assert (before + [OfProcess(at, pid, id, sig)])[|before|] == OfProcess(at, pid, id, sig);
  }

  lemma ProcessCheckedNow(seen: seq<Moment>, before: seq<Signal>, log: seq<Signal>, looked: seq<Check>, start: nat,
                          at: nat, pid: Pid, id: Identity, sig: Sig)
    requires start <= at < |seen|
    requires log == before + if pid !in seen[at].unreadable && IdentityAt(seen[at], pid) == Some(id)
                             then [ToProcess(at, pid, id, sig)] else []
    ensures ProcessChecked(seen, log, looked + [OfProcess(at, pid, id, sig)], start, |seen|, pid, id, sig)
  {
    assert OfProcess(at, pid, id, sig) in looked + [OfProcess(at, pid, id, sig)];
  }

  lemma GroupCheckedNow(seen: seq<Moment>, before: seq<Signal>, log: seq<Signal>, checks: seq<Check>, k: nat,
                        start: nat, at: nat, own: bool, targets: map<Pid, Identity>, group: Pid, sig: Sig)
    requires start <= at < |seen| && k < |checks| && checks[k] == OfGroup(at, group, sig)
    requires log == before + [ToGroup(at, group, sig)]
             || (!own && (Anchorless(seen[at], targets, group) || targets.Keys * seen[at].unreadable != {}))
    ensures GroupChecked(seen, log, checks, start, |seen|, own, targets, group, sig)
  {
    assert checks[k] in checks;
    if log == before + [ToGroup(at, group, sig)] {
      assert log[|before|] == ToGroup(at, group, sig);
    }
  }

  lemma ProcessesCheckedMore(seen: seq<Moment>, longer: seq<Moment>, log: seq<Signal>, log': seq<Signal>,
                             checks: seq<Check>, checks': seq<Check>, start: nat, pids: set<Pid>, todo: set<Pid>,
                             pid: Pid, known: map<Pid, Identity>, sig: Sig)
    requires seen <= longer && log <= log' && checks <= checks' && pid in known
    requires ProcessesChecked(seen, log, checks, start, |seen|, pids - todo, known, sig)
    requires ProcessChecked(longer, log', checks', start, |longer|, pid, known[pid], sig)
    ensures ProcessesChecked(longer, log', checks', start, |longer|, pids - (todo - {pid}), known, sig)
  {
    CheckedLater(seen, longer, log, log', checks, checks', start, start, |seen|, |longer|);
    assert forall p | p in pids - (todo - {pid}) :: p == pid || p in pids - todo;
  }

  lemma GroupsCheckedMore(seen: seq<Moment>, longer: seq<Moment>, log: seq<Signal>, log': seq<Signal>,
                          checks: seq<Check>, checks': seq<Check>, start: nat, groups: set<Pid>, todo: set<Pid>,
                          group: Pid, own: set<Pid>, targets: map<Pid, Identity>, sig: Sig)
    requires seen <= longer && log <= log' && checks <= checks'
    requires GroupsChecked(seen, log, checks, start, |seen|, groups - todo, own, targets, sig)
    requires GroupChecked(longer, log', checks', start, |longer|, group in own, targets, group, sig)
    ensures GroupsChecked(longer, log', checks', start, |longer|, groups - (todo - {group}), own, targets, sig)
  {
    CheckedLater(seen, longer, log, log', checks, checks', start, start, |seen|, |longer|);
    assert forall g | g in groups - (todo - {group}) :: g == group || g in groups - todo;
  }

  // The groups first, and then the processes.
  lemma BothChecked(seen: seq<Moment>, longer: seq<Moment>, log: seq<Signal>, log': seq<Signal>, checks: seq<Check>,
                    checks': seq<Check>, start: nat, groups: set<Pid>, own: set<Pid>, targets: map<Pid, Identity>,
                    known: map<Pid, Identity>, sig: Sig)
    requires seen <= longer && log <= log' && checks <= checks' && start <= |seen| && Extends(targets, known)
    requires GroupsChecked(seen, log, checks, start, |seen|, groups, own, targets, sig)
    requires ProcessesChecked(longer, log', checks', |seen|, |longer|, targets.Keys, targets, sig)
    ensures ErrandDone(longer, log', checks', start, |longer|, Errand(targets.Keys, groups, own), known, sig)
  {
    CheckedLater(seen, longer, log, log', checks, checks', start, start, |seen|, |longer|);
    CheckedLater(longer, longer, log', log', checks', checks', |seen|, start, |longer|, |longer|);
    forall pid | pid in targets.Keys ensures pid in known && known[pid] == targets[pid] {
      assert pid in targets;
    }
    assert Chosen(targets.Keys, known) == targets;
  }

  // ---- The whole cleanup ----

  // The first pass looks at moment `from`, with `before` recorded, and the second at
  // `middle`, with `between` recorded.
  datatype Passes = Passes(
    from: nat,
    middle: nat,
    before: map<Pid, Identity>,
    between: map<Pid, Identity>,
    unreaped: bool)

  ghost predicate NothingToDo(m: Moment, known: map<Pid, Identity>, leader: Pid, unreaped: bool) {
    var e := ErrandAt(m, known, leader, unreaped); e.pids == {} && e.groups == {}
  }

  // A pass of terminations and then one of kills, unless the first finds nothing to do.
  ghost predicate CleanedUp(seen: seq<Moment>, log: seq<Signal>, checks: seq<Check>, leader: Pid, p: Passes,
                            known: map<Pid, Identity>)
  {
    && Extends(p.before, p.between) && Extends(p.between, known)
    && p.from < p.middle <= |seen|
    && PassDone(seen, log, checks, p.from, p.middle, p.before, leader, p.unreaped, p.between, Term)
    && if p.middle == |seen| then NothingToDo(seen[p.from], p.before, leader, p.unreaped)
       else PassDone(seen, log, checks, p.middle, |seen|, p.between, leader, p.unreaped, known, Kill)
  }

  lemma StaysCleanedUp(seen: seq<Moment>, longer: seq<Moment>, log: seq<Signal>, checks: seq<Check>, leader: Pid,
                       p: Passes, known: map<Pid, Identity>)
    requires seen <= longer && p.middle < |seen| && CleanedUp(seen, log, checks, leader, p, known)
    ensures CleanedUp(longer, log, checks, leader, p, known)
  {
    PassStaysDone(seen, longer, log, log, checks, checks, p.from, p.middle, p.middle, p.before, leader, p.unreaped,
                  p.between, p.between, Term);
    PassStaysDone(seen, longer, log, log, checks, checks, p.middle, |seen|, |longer|, p.between, leader, p.unreaped,
                  known, known, Kill);
  }

  // A process recorded before the cleanup that lives, and can be read, when the first
  // pass looks is checked in it for a termination; and one that lives still, and can be
  // read, when the second looks, for a kill.
  lemma RecordedAreChecked(seen: seq<Moment>, log: seq<Signal>, checks: seq<Check>, leader: Pid, p: Passes,
                           known: map<Pid, Identity>, pid: Pid, id: Identity)
    requires CleanedUp(seen, log, checks, leader, p, known) && pid in p.before && p.before[pid] == id
    ensures Alive(seen[p.from], pid, id) && pid !in seen[p.from].unreadable ==>
              ProcessChecked(seen, log, checks, p.from + 1, p.middle, pid, id, Term)
    ensures p.middle < |seen| && Alive(seen[p.middle], pid, id) && pid !in seen[p.middle].unreadable ==>
              ProcessChecked(seen, log, checks, p.middle + 1, |seen|, pid, id, Kill)
  {
    assert Alive(seen[p.from], pid, id) ==> pid in Verified(seen[p.from], p.before);
    assert p.middle < |seen| && Alive(seen[p.middle], pid, id) ==> pid in Verified(seen[p.middle], p.between);
  }

  // The group of a leader that is not reaped yet gets both signals.
  lemma LeaderGroupSignalled(seen: seq<Moment>, log: seq<Signal>, checks: seq<Check>, leader: Pid, p: Passes,
                             known: map<Pid, Identity>)
    requires CleanedUp(seen, log, checks, leader, p, known) && p.unreaped
    ensures exists at | p.from < at < p.middle :: ToGroup(at, leader, Term) in log
    ensures p.middle < |seen| && exists at | p.middle < at < |seen| :: ToGroup(at, leader, Kill) in log
  {
    var first := ErrandAt(seen[p.from], p.before, leader, true);
    assert leader in first.own && leader in first.groups;
    assert GroupChecked(seen, log, checks, p.from + 1, p.middle, true, Chosen(first.pids, p.between), leader, Term);
    var second := ErrandAt(seen[p.middle], p.between, leader, true);
    assert leader in second.own && leader in second.groups;
    assert GroupChecked(seen, log, checks, p.middle + 1, |seen|, true, Chosen(second.pids, known), leader, Kill);
  }

  // ---- After a clean loop ----

  // A recorded process with the pid of the leader that is not the leader.
  predicate LeaderPidTaken(known: map<Pid, Identity>, leader: Pid, leaderId: Identity) {
    leader in known && known[leader] != leaderId
  }

  lemma VerifiedSelected(m: Moment, now: map<Pid, Identity>, leader: Pid, unreaped: bool)
    ensures Verified(m, now) <= Select(m, now, leader, unreaped)
  {
    var base := Leading(leader, unreaped) + Verified(m, now);
    var groups := GroupsOf(Live(m), base) + Leading(leader, unreaped);
    DescendantsClosed(base + Members(Live(m), groups), Live(m));
  }

  // What a sample records and finds alive, it selected.
  lemma RecordedIsSelected(m: Moment, now: map<Pid, Identity>, leader: Pid, unreaped: bool, selected: set<Pid>,
                           recorded: map<Pid, Identity>, pid: Pid)
    requires selected == Select(m, now, leader, unreaped) && recorded == Recorded(m, now, Accounted(m, now, selected))
    requires pid in recorded && Alive(m, pid, recorded[pid])
    ensures pid in selected * Live(m).Keys
  {
    if pid !in Accounted(m, now, selected) {
      assert pid in Verified(m, now);
      VerifiedSelected(m, now, leader, unreaped);
    }
  }

  // A recorded process but the leader that lives when the sample is taken survives in it.
  lemma RecordedIsSurvivor(m: Moment, now: map<Pid, Identity>, leader: Pid, unreaped: bool, s: Sample, pid: Pid)
    requires SampleAt(m, now, leader, unreaped) == Some(s) && pid in s.known && pid != leader
    ensures Alive(m, pid, s.known[pid]) ==> pid in s.survivors
  {
    if Alive(m, pid, s.known[pid]) {
      RecordedIsSelected(m, now, leader, unreaped, Select(m, now, leader, unreaped), s.known, pid);
    }
  }

  lemma EmptyClosure(table: Table)
    ensures Descendants({}, table) == {}
  {
    DescendantsWithin({}, table, {});
  }

  // With no recorded process alive and the leader reaped there is nothing to go for.
  lemma NothingVerified(m: Moment, known: map<Pid, Identity>, leader: Pid, unreaped: bool)
    requires !unreaped && forall pid | pid in known :: !Alive(m, pid, known[pid])
    ensures NothingToDo(m, known, leader, unreaped)
  {
    var table := CleanupTable(m);
    assert Verified(m, known) == {};
    assert Members(table, {}) == {};
    assert Verified(m, known) - m.unreadable + {} + Members(table, {}) == {};
    EmptyClosure(table);
    assert Accounted(m, known, ({} * table.Keys - {}) - m.unreadable) == {};
  }

  lemma NoneSurvives(m: Moment, now: map<Pid, Identity>, leader: Pid, unreaped: bool, s: Sample)
    requires SampleAt(m, now, leader, unreaped) == Some(s) && s.survivors == {}
    ensures forall pid | pid in s.known && pid != leader :: !Alive(m, pid, s.known[pid])
  {
    forall pid | pid in s.known && pid != leader ensures !Alive(m, pid, s.known[pid]) {
      RecordedIsSurvivor(m, now, leader, unreaped, s, pid);
    }
  }

  // A recorded process that is not alive any more stays dead.
  lemma RecordedStaysDead(seen: seq<Moment>, all: seq<Moment>, known: map<Pid, Identity>, leader: Pid,
                          leaderId: Identity, pid: Pid)
    requires seen != [] && seen <= all && |seen| < |all| && Mortal(all)
    requires KnownOwned(seen, leader, leaderId, known) && pid in known
    requires !Alive(seen[|seen| - 1], pid, known[pid])
    ensures !Alive(all[|seen|], pid, known[pid])
  {
    var id := known[pid];
    var t: nat :| Owned(seen, leader, leaderId, Link(t, pid, id));
    OwnedIsPresent(seen, leader, leaderId, Link(t, pid, id));
    assert Existing(all[t], pid, id) && !Alive(all[|seen| - 1], pid, id);
  }

  lemma DeadMeansNothing(seen: seq<Moment>, all: seq<Moment>, known: map<Pid, Identity>, leader: Pid,
                         leaderId: Identity, cut: nat, unreaped: bool)
    requires seen != [] && seen <= all && |seen| < |all| && Mortal(all)
    requires KnownOwned(seen, leader, leaderId, known)
    requires forall pid | pid in known && pid != leader :: !Alive(seen[|seen| - 1], pid, known[pid])
    requires GoneSince(all, cut, leader, leaderId) && cut <= |seen|
    requires !LeaderPidTaken(known, leader, leaderId) && !unreaped
    ensures NothingToDo(all[|seen|], known, leader, unreaped)
  {
    forall pid | pid in known ensures !Alive(all[|seen|], pid, known[pid]) {
      if pid != leader { RecordedStaysDead(seen, all, known, leader, leaderId, pid); }
    }
    NothingVerified(all[|seen|], known, leader, unreaped);
  }
}
