// resource-guard.py, lines 198-230 and 297-318, once more: what a sample and a cleanup pass
// select, in terms of the processes themselves.
module Selection {
  import opened Options
  import opened Processes
  import opened World
  import opened Sampling
  import opened Cleanup

  predicate Lives(m: Moment, pid: Pid) {
    pid in m.procs && !m.procs[pid].zombie
  }

  // Recorded, and still the process that was recorded.
  predicate Remains(m: Moment, known: map<Pid, Identity>, pid: Pid) {
    Lives(m, pid) && pid in known && m.procs[pid].identity == known[pid]
  }

  // Recorded for another process: the pid was used again.
  predicate Reused(m: Moment, known: map<Pid, Identity>, pid: Pid) {
    Lives(m, pid) && pid in known && m.procs[pid].identity != known[pid]
  }

  // Each process but the first lives and is a child of the one before.
  predicate Chain(m: Moment, chain: seq<Pid>) {
    chain != [] && forall k | 1 <= k < |chain| :: Lives(m, chain[k]) && m.procs[chain[k]].ppid == chain[k - 1]
  }

  lemma ChainInTable(m: Moment, chain: seq<Pid>)
    ensures Chain(m, chain) <==> ChildChain(Live(m), chain)
  {
    assert forall pid :: Lives(m, pid) <==> pid in Live(m);
    assert forall pid | Lives(m, pid) :: Live(m)[pid].ppid == m.procs[pid].ppid;
  }

  // ---- A sample ----

  // Where the chains of a sample start: the leader until it is reaped, the recorded
  // processes, and whoever is in a process group with one of them.
  ghost predicate Start(m: Moment, known: map<Pid, Identity>, leader: Pid, unreaped: bool, pid: Pid) {
    || (unreaped && pid == leader)
    || Remains(m, known, pid)
    || (Lives(m, pid) && unreaped && m.procs[pid].pgid == leader)
    || (Lives(m, pid) && exists mate | mate in m.procs ::
          && (Remains(m, known, mate) || (unreaped && mate == leader && Lives(m, leader)))
          && m.procs[mate].pgid == m.procs[pid].pgid)
  }

  ghost predicate Reached(m: Moment, known: map<Pid, Identity>, leader: Pid, unreaped: bool, pid: Pid) {
    exists chain :: Chain(m, chain) && Start(m, known, leader, unreaped, chain[0]) && chain[|chain| - 1] == pid
  }

  lemma StartsExactly(m: Moment, known: map<Pid, Identity>, leader: Pid, unreaped: bool, pid: Pid)
    ensures var base := Leading(leader, unreaped) + Verified(m, known);
            var groups := GroupsOf(Live(m), base) + Leading(leader, unreaped);
            pid in base + Members(Live(m), groups) <==> Start(m, known, leader, unreaped, pid)
  {
    var base := Leading(leader, unreaped) + Verified(m, known);
    var groups := GroupsOf(Live(m), base) + Leading(leader, unreaped);
    if Lives(m, pid) {
      var group := m.procs[pid].pgid;
      assert pid in Live(m) && Live(m)[pid].pgid == group;
      if group in GroupsOf(Live(m), base) {
        var mate :| mate in base && mate in Live(m) && Live(m)[mate].pgid == group;
        assert mate in m.procs && m.procs[mate].pgid == group;
      }
      if mate :| mate in m.procs && m.procs[mate].pgid == group
                 && (Remains(m, known, mate) || (unreaped && mate == leader && Lives(m, leader)))
      {
        assert mate in base && mate in Live(m) && Live(m)[mate].pgid == group;
      }
    }
  }

  // A sample selects exactly the ends of these chains.
  lemma SelectedExactly(m: Moment, known: map<Pid, Identity>, leader: Pid, unreaped: bool, pid: Pid)
    ensures pid in Select(m, known, leader, unreaped) <==> Reached(m, known, leader, unreaped, pid)
  {
    var base := Leading(leader, unreaped) + Verified(m, known);
    var groups := GroupsOf(Live(m), base) + Leading(leader, unreaped);
    var seeds := base + Members(Live(m), groups);
    DescendantsByChains(seeds, Live(m), pid);
    forall chain ensures Chain(m, chain) <==> ChildChain(Live(m), chain) {
      ChainInTable(m, chain);
    }
    forall p ensures p in seeds <==> Start(m, known, leader, unreaped, p) {
      StartsExactly(m, known, leader, unreaped, p);
    }
  }

  // What a sample adds up and records.
  ghost predicate Counted(m: Moment, known: map<Pid, Identity>, leader: Pid, unreaped: bool, pid: Pid) {
    Reached(m, known, leader, unreaped, pid) && Lives(m, pid) && !Reused(m, known, pid)
  }

  lemma CountedExactly(m: Moment, known: map<Pid, Identity>, leader: Pid, unreaped: bool, pid: Pid)
    ensures pid in Accounted(m, known, Select(m, known, leader, unreaped)) <==>
            Counted(m, known, leader, unreaped, pid)
  {
    SelectedExactly(m, known, leader, unreaped, pid);
  }

  // Footprints in some order.
  function SumOf(m: Moment, order: seq<Pid>): nat
    requires forall k | 0 <= k < |order| :: Lives(m, order[k])
  {
    if order == [] then 0
    else
      assert Lives(m, order[0]);
      m.procs[order[0]].footprint + SumOf(m, order[1..])
  }

  ghost predicate Walks(order: seq<Pid>, pids: set<Pid>) {
    && (forall k | 0 <= k < |order| :: order[k] in pids)
    && (forall pid | pid in pids :: exists k | 0 <= k < |order| :: order[k] == pid)
    && forall j, k | 0 <= j < k < |order| :: order[j] != order[k]
  }

  lemma WalksOn(order: seq<Pid>, pids: set<Pid>)
    requires Walks(order, pids) && order != []
    ensures order[0] in pids && Walks(order[1..], pids - {order[0]})
  {
    var rest := order[1..];
    forall pid | pid in pids - {order[0]} ensures exists k | 0 <= k < |rest| :: rest[k] == pid {
      var k :| 0 <= k < |order| && order[k] == pid;
      assert rest[k - 1] == pid;
    }
  }

  lemma {:induction false} TotalInOrder(m: Moment, pids: set<Pid>, order: seq<Pid>)
    requires Walks(order, pids) && forall k | 0 <= k < |order| :: Lives(m, order[k])
    ensures Total(m, pids) == SumOf(m, order)
    decreases |order|
  {
    if order == [] {
      assert forall pid :: pid !in pids;
    } else {
      WalksOn(order, pids);
      TotalRemove(m, pids, order[0]);
      assert Lives(m, order[0]);
      TotalInOrder(m, pids - {order[0]}, order[1..]);
    }
  }

  // Each process counted, once, in whatever order they are walked.
  ghost predicate CountedOnce(m: Moment, known: map<Pid, Identity>, leader: Pid, unreaped: bool, order: seq<Pid>) {
    && (forall k | 0 <= k < |order| :: Counted(m, known, leader, unreaped, order[k]))
    && (forall pid | Counted(m, known, leader, unreaped, pid) :: exists k | 0 <= k < |order| :: order[k] == pid)
    && forall j, k | 0 <= j < k < |order| :: order[j] != order[k]
  }

  // A sample that can be taken: who survives, and who is recorded as what.
  lemma SampledExactly(m: Moment, known: map<Pid, Identity>, leader: Pid, unreaped: bool, s: Sample, pid: Pid)
    requires SampleAt(m, known, leader, unreaped) == Some(s)
    ensures pid in s.survivors <==> Lives(m, pid) && pid != leader && Reached(m, known, leader, unreaped, pid)
    ensures pid in s.known <==> pid in known || Counted(m, known, leader, unreaped, pid)
    ensures pid in s.known ==> s.known[pid] == if pid in known then known[pid] else m.procs[pid].identity
  {
    CountedExactly(m, known, leader, unreaped, pid);
    SelectedExactly(m, known, leader, unreaped, pid);
  }

  // And what it adds up: the guard's own footprint and those of the processes counted.
  lemma SampleSum(m: Moment, known: map<Pid, Identity>, leader: Pid, unreaped: bool, s: Sample, order: seq<Pid>)
    requires SampleAt(m, known, leader, unreaped) == Some(s)
    requires CountedOnce(m, known, leader, unreaped, order)
    ensures m.ownFootprint.Some? && s.current == m.ownFootprint.value + SumOf(m, order)
  {
    var counted := Accounted(m, known, Select(m, known, leader, unreaped));
    forall pid ensures pid in counted <==> Counted(m, known, leader, unreaped, pid) {
      CountedExactly(m, known, leader, unreaped, pid);
    }
    TotalInOrder(m, counted, order);
  }

  // Which reads a sample needs.
  lemma SelectionReadsExactly(m: Moment, known: map<Pid, Identity>)
    ensures SelectionReads(m, known) <==>
            !m.inventoryFails && !exists pid | pid in m.unreadable :: pid in known && Lives(m, pid)
  {
    var read := known.Keys * Live(m).Keys;
    assert forall pid :: pid in read <==> pid in known && Lives(m, pid);
    assert read !! m.unreadable <==> !exists pid :: pid in m.unreadable && pid in read by {
      if exists pid :: pid in m.unreadable && pid in read {
        var pid :| pid in m.unreadable && pid in read;
        assert pid in read * m.unreadable;
      } else {
        assert forall pid | pid in read :: pid !in m.unreadable;
      }
    }
  }

  lemma AccountReadsExactly(m: Moment, known: map<Pid, Identity>, leader: Pid, unreaped: bool)
    ensures AccountReads(m, known, Select(m, known, leader, unreaped)) <==>
            && m.ownFootprint.Some?
            && (!exists pid | pid in m.unreadable :: Reached(m, known, leader, unreaped, pid))
            && (!exists pid | pid in m.unaccountable :: Counted(m, known, leader, unreaped, pid))
  {
    var selected := Select(m, known, leader, unreaped);
    var counted := Accounted(m, known, selected);
    forall pid ensures pid in counted <==> Counted(m, known, leader, unreaped, pid) {
      CountedExactly(m, known, leader, unreaped, pid);
    }
    forall pid ensures pid in selected <==> Reached(m, known, leader, unreaped, pid) {
      SelectedExactly(m, known, leader, unreaped, pid);
    }
  }

  // It cannot be taken exactly if one of the reads it needs fails.
  lemma SampleFailsExactly(m: Moment, known: map<Pid, Identity>, leader: Pid, unreaped: bool)
    ensures SampleAt(m, known, leader, unreaped) == None <==>
            || m.inventoryFails
            || m.ownFootprint == None
            || (exists pid | pid in m.unreadable :: pid in known && Lives(m, pid))
            || (exists pid | pid in m.unreadable :: Reached(m, known, leader, unreaped, pid))
            || (exists pid | pid in m.unaccountable :: Counted(m, known, leader, unreaped, pid))
  {
    SelectionReadsExactly(m, known);
    AccountReadsExactly(m, known, leader, unreaped);
  }

  // ---- A pass of the cleanup ----

  // Where its chains start: the leader until it is reaped, its group, and the recorded
  // processes that can be read.
  predicate CleanupStart(m: Moment, known: map<Pid, Identity>, leader: Pid, unreaped: bool, pid: Pid) {
    || (unreaped && pid == leader)
    || (Remains(m, known, pid) && pid !in m.unreadable)
    || (!m.inventoryFails && unreaped && Lives(m, pid) && m.procs[pid].pgid == leader)
  }

  ghost predicate CleanupReached(m: Moment, known: map<Pid, Identity>, leader: Pid, unreaped: bool, pid: Pid) {
    exists chain ::
      Chain(m, chain) && CleanupStart(m, known, leader, unreaped, chain[0]) && chain[|chain| - 1] == pid
  }

  // A pass goes exactly for the readable live processes that were recorded or, if the
  // inventory could be taken, end such a chain; but not for a recorded pid used again.
  lemma TargetsExactly(m: Moment, known: map<Pid, Identity>, leader: Pid, unreaped: bool, pid: Pid)
    ensures pid in CleanupTargets(m, known, leader, unreaped) <==>
            && Lives(m, pid) && pid !in m.unreadable && !Reused(m, known, pid)
            && (pid in known || (!m.inventoryFails && CleanupReached(m, known, leader, unreaped, pid)))
  {
    var table, leading, verified := CleanupTable(m), Leading(leader, unreaped), Verified(m, known) - m.unreadable;
    var seeds := verified + leading + Members(table, leading);
    DescendantsByChains(seeds, table, pid);
    forall p ensures p in seeds <==> CleanupStart(m, known, leader, unreaped, p) {}
    if !m.inventoryFails {
      forall chain ensures Chain(m, chain) <==> ChildChain(table, chain) {
        ChainInTable(m, chain);
      }
    }
  }

  // And for the groups of these, as the inventory shows them, with the group of a leader
  // that is not reaped yet.
  lemma GroupsExactly(m: Moment, known: map<Pid, Identity>, leader: Pid, unreaped: bool, group: Pid)
    ensures group in CleanupGroups(m, known, leader, unreaped) <==>
            || (unreaped && group == leader)
            || (!m.inventoryFails && exists pid | pid in CleanupTargets(m, known, leader, unreaped) ::
                  pid in m.procs && m.procs[pid].pgid == group)
  {
    var table, targets := CleanupTable(m), CleanupTargets(m, known, leader, unreaped);
    forall pid | pid in targets ensures Lives(m, pid) {
      TargetsExactly(m, known, leader, unreaped, pid);
    }
    if !m.inventoryFails {
      assert forall pid | pid in targets :: pid in table && table[pid].pgid == m.procs[pid].pgid;
    }
  }

  // No target is in the group: the check before a group is signalled finds none exactly
  // if no target remains there.
  lemma AnchorlessExactly(m: Moment, targets: map<Pid, Identity>, group: Pid)
    ensures Anchorless(m, targets, group) <==>
            forall pid | pid in targets :: !(Remains(m, targets, pid) && m.procs[pid].pgid == group)
  {
    forall pid | pid in targets
      ensures InGroup(m, targets, pid, group) <==> Remains(m, targets, pid) && m.procs[pid].pgid == group
    {
    }
  }
}
