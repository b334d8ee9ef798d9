// resource-guard.py, lines 296-318: which processes a sample takes for the worker's,
// what it adds up and what it writes down, over one sample and over a run of them.
module Sampling {
  import opened Options
  import opened Processes
  import opened World

  // ---- One sample ----

  function Verified(m: Moment, known: map<Pid, Identity>): set<Pid> {
    set pid | pid in known && IdentityAt(m, pid) == Some(known[pid])
  }

  function Leading(leader: Pid, unreaped: bool): set<Pid> {
    if unreaped then {leader} else {}
  }

  function GroupsOf(table: Table, s: set<Pid>): set<Pid> {
    set pid | pid in s && pid in table :: table[pid].pgid
  }

  function Members(table: Table, groups: set<Pid>): set<Pid> {
    set pid | pid in table && table[pid].pgid in groups
  }

  // The worker's processes at a moment: the leader and recorded processes, their
  // process groups, and all descendants of those.
  function Select(m: Moment, known: map<Pid, Identity>, leader: Pid, unreaped: bool): set<Pid> {
    var base := Leading(leader, unreaped) + Verified(m, known);
    var groups := GroupsOf(Live(m), base) + Leading(leader, unreaped);
    Descendants(base + Members(Live(m), groups), Live(m))
  }

  predicate Accountable(m: Moment, known: map<Pid, Identity>, pid: Pid) {
    IdentityAt(m, pid).Some? && (pid in known ==> Some(known[pid]) == IdentityAt(m, pid))
  }

  // The selected processes that are alive and not a recorded pid used again.
  function Accounted(m: Moment, known: map<Pid, Identity>, selected: set<Pid>): set<Pid> {
    set pid | pid in selected && Accountable(m, known, pid)
  }

  function Recorded(m: Moment, known: map<Pid, Identity>, pids: set<Pid>): map<Pid, Identity> {
    known + map pid | pid in pids && IdentityAt(m, pid).Some? :: IdentityAt(m, pid).value
  }

  function Footprint(m: Moment, pid: Pid): nat {
    if pid in m.procs && !m.procs[pid].zombie then m.procs[pid].footprint else 0
  }

  lemma NonEmpty<T>(s: set<T>)
    requires s != {}
    ensures exists x :: x in s
  {
  }

  ghost function AnyOf<T>(s: set<T>): (x: T)
    requires s != {}
    ensures x in s
  {
    NonEmpty(s);
    var x :| x in s;
    x
  }

  ghost function Total(m: Moment, pids: set<Pid>): nat {
    if pids == {} then 0
    else
      var pid := AnyOf(pids);
      Footprint(m, pid) + Total(m, pids - {pid})
  }

  lemma {:induction false} TotalRemove(m: Moment, pids: set<Pid>, y: Pid)
    requires y in pids
    ensures Total(m, pids) == Footprint(m, y) + Total(m, pids - {y})
    decreases |pids|
  {
    var z := AnyOf(pids);
    if z != y {
      TotalRemove(m, pids - {z}, y);
      TotalRemove(m, pids - {y}, z);
      assert pids - {z} - {y} == pids - {y} - {z};
    }
  }

  lemma BaseOwned(seen: seq<Moment>, leader: Pid, leaderId: Identity, known: map<Pid, Identity>, unreaped: bool,
                  pid: Pid)
    requires seen != [] && KnownOwned(seen, leader, leaderId, known)
    requires unreaped ==> Pinned(seen[|seen| - 1], leader, leaderId)
    requires pid in Leading(leader, unreaped) + Verified(seen[|seen| - 1], known)
    ensures OwnedNow(seen, leader, leaderId, |seen| - 1, pid)
  {
    if pid in Leading(leader, unreaped) {
      LeaderOwned(seen, leader, leaderId, |seen| - 1);
    } else {
      KnownIsOwned(seen, leader, leaderId, known, |seen| - 1, pid);
    }
  }

  lemma MemberOwned(seen: seq<Moment>, leader: Pid, leaderId: Identity, known: map<Pid, Identity>, unreaped: bool,
                    base: set<Pid>, pid: Pid)
    requires seen != [] && KnownOwned(seen, leader, leaderId, known)
    requires unreaped ==> Pinned(seen[|seen| - 1], leader, leaderId)
    requires base == Leading(leader, unreaped) + Verified(seen[|seen| - 1], known)
    requires var table := Live(seen[|seen| - 1]);
             pid in table && table[pid].pgid in GroupsOf(table, base) + Leading(leader, unreaped)
    ensures OwnedNow(seen, leader, leaderId, |seen| - 1, pid)
  {
    var t := |seen| - 1;
    var table := Live(seen[t]);
    if table[pid].pgid in Leading(leader, unreaped) {
      LeaderOwned(seen, leader, leaderId, t);
      GroupMateOwned(seen, leader, leaderId, t, leader, pid);
    } else {
      var mate :| mate in base && mate in table && table[mate].pgid == table[pid].pgid;
      BaseOwned(seen, leader, leaderId, known, unreaped, mate);
      GroupMateOwned(seen, leader, leaderId, t, mate, pid);
    }
  }

  // Whatever is selected belongs to the worker.
  lemma SelectionOwned(seen: seq<Moment>, leader: Pid, leaderId: Identity, known: map<Pid, Identity>, unreaped: bool,
                       selected: set<Pid>)
    requires seen != [] && KnownOwned(seen, leader, leaderId, known)
    requires unreaped ==> Pinned(seen[|seen| - 1], leader, leaderId)
    requires selected == Select(seen[|seen| - 1], known, leader, unreaped)
    ensures forall pid | pid in selected :: OwnedNow(seen, leader, leaderId, |seen| - 1, pid)
  {
    var t := |seen| - 1;
    var m := seen[t];
    var base := Leading(leader, unreaped) + Verified(m, known);
    var groups := GroupsOf(Live(m), base) + Leading(leader, unreaped);
    var members := Members(Live(m), groups);
    forall pid | pid in base + members ensures OwnedNow(seen, leader, leaderId, t, pid) {
      if pid in base {
        BaseOwned(seen, leader, leaderId, known, unreaped, pid);
      } else {
        MemberOwned(seen, leader, leaderId, known, unreaped, base, pid);
      }
    }
    DescendantsOwned(seen, leader, leaderId, t, base + members, Live(m));
  }

  // What a cleanup pass selects belongs to the worker: the verified processes, the
  // leader and its group while it is unreaped, and all their descendants.
  lemma CleanupOwned(seen: seq<Moment>, leader: Pid, leaderId: Identity, known: map<Pid, Identity>, unreaped: bool,
                     table: Table, verified: set<Pid>, selected: set<Pid>)
    requires seen != [] && KnownOwned(seen, leader, leaderId, known)
    requires unreaped ==> Pinned(seen[|seen| - 1], leader, leaderId)
    requires verified <= Verified(seen[|seen| - 1], known)
    requires table == Live(seen[|seen| - 1]) || table == map[]
    requires var leading := Leading(leader, unreaped);
             selected == Descendants(verified + leading + Members(table, leading), table)
    ensures forall pid | pid in selected :: OwnedNow(seen, leader, leaderId, |seen| - 1, pid)
  {
    var t := |seen| - 1;
    var leading := Leading(leader, unreaped);
    var seeds := verified + leading + Members(table, leading);
    forall pid | pid in seeds ensures OwnedNow(seen, leader, leaderId, t, pid) {
      if pid in leading + verified {
        BaseOwned(seen, leader, leaderId, known, unreaped, pid);
      } else {
        LeaderOwned(seen, leader, leaderId, t);
        GroupMateOwned(seen, leader, leaderId, t, leader, pid);
      }
    }
    DescendantsOwned(seen, leader, leaderId, t, seeds, table);
  }

  // Recording a process of the worker keeps every recorded identity one of its.
  lemma RecordOwned(seen: seq<Moment>, leader: Pid, leaderId: Identity, known: map<Pid, Identity>, pid: Pid)
    requires seen != [] && KnownOwned(seen, leader, leaderId, known)
    requires OwnedNow(seen, leader, leaderId, |seen| - 1, pid)
    ensures KnownOwned(seen, leader, leaderId, known[pid := seen[|seen| - 1].procs[pid].identity])
  {
    var later := known[pid := seen[|seen| - 1].procs[pid].identity];
    forall p | p in later ensures exists t: nat :: Owned(seen, leader, leaderId, Link(t, p, later[p])) {
      if p == pid {
        assert Owned(seen, leader, leaderId, Link(|seen| - 1, p, later[p]));
      } else {
        var t: nat :| Owned(seen, leader, leaderId, Link(t, p, known[p]));
        assert Owned(seen, leader, leaderId, Link(t, p, later[p]));
      }
    }
  }

  lemma RecordedOne(m: Moment, known: map<Pid, Identity>, done: set<Pid>, pid: Pid)
    requires pid !in done
    ensures pid in Recorded(m, known, done) <==> pid in known
    ensures pid in known ==> Recorded(m, known, done)[pid] == known[pid]
    ensures IdentityAt(m, pid).Some? ==>
              Recorded(m, known, done + {pid}) == Recorded(m, known, done)[pid := IdentityAt(m, pid).value]
  {
  }

  lemma AccountedOne(m: Moment, known: map<Pid, Identity>, seen: set<Pid>, pid: Pid)
    requires pid !in seen
    ensures Accounted(m, known, seen + {pid})
         == Accounted(m, known, seen) + (if Accountable(m, known, pid) then {pid} else {})
  {
  }

  // One process looked at in a sample, and all looked at so far.
  ghost predicate TalliedOne(m: Moment, pid: Pid, known: map<Pid, Identity>, later: map<Pid, Identity>, current: nat,
                             more: nat)
  {
    if Accountable(m, known, pid)
    then later == known[pid := IdentityAt(m, pid).value] && more == current + Footprint(m, pid)
    else later == known && more == current
  }

  ghost predicate Tally(m: Moment, accounted: set<Pid>, known: map<Pid, Identity>, later: map<Pid, Identity>,
                        current: nat)
  {
    && m.ownFootprint.Some?
    && accounted !! m.unaccountable
    && later == Recorded(m, known, accounted)
    && current == m.ownFootprint.value + Total(m, accounted)
  }

  ghost predicate TalliedAll(m: Moment, selected: set<Pid>, todo: set<Pid>, known: map<Pid, Identity>,
                             later: map<Pid, Identity>, current: nat)
  {
    selected - todo !! m.unreadable && Tally(m, Accounted(m, known, selected - todo), known, later, current)
  }

  lemma TalliedNone(m: Moment, selected: set<Pid>, known: map<Pid, Identity>)
    requires m.ownFootprint.Some?
    ensures TalliedAll(m, selected, selected, known, known, m.ownFootprint.value)
  {
    assert Accounted(m, known, selected - selected) == {};
  }

  lemma AdoptRead(m: Moment, done: set<Pid>, pid: Pid, known: map<Pid, Identity>)
    requires pid !in done
    ensures var now := Recorded(m, known, done);
            && (Accountable(m, now, pid) <==> Accountable(m, known, pid))
            && (Accountable(m, known, pid) ==>
                  Recorded(m, known, done + {pid}) == now[pid := IdentityAt(m, pid).value])
  {
    RecordedOne(m, known, done, pid);
  }

  lemma TallyOne(m: Moment, done: set<Pid>, pid: Pid, known: map<Pid, Identity>, now: map<Pid, Identity>,
                 later: map<Pid, Identity>, current: nat, more: nat)
    requires pid !in done && pid !in m.unreadable && (Accountable(m, known, pid) ==> pid !in m.unaccountable)
    requires Tally(m, done, known, now, current) && TalliedOne(m, pid, now, later, current, more)
    ensures Tally(m, if Accountable(m, known, pid) then done + {pid} else done, known, later, more)
  {
    AdoptRead(m, done, pid, known);
    TotalRemove(m, done + {pid}, pid);
    assert done + {pid} - {pid} == done;
  }

  lemma LookedMore(m: Moment, selected: set<Pid>, todo: set<Pid>, pid: Pid, known: map<Pid, Identity>)
    requires todo <= selected && pid in todo
    ensures var done := Accounted(m, known, selected - todo);
            && pid !in done && selected - (todo - {pid}) == (selected - todo) + {pid}
            && Accounted(m, known, selected - (todo - {pid}))
            == if Accountable(m, known, pid) then done + {pid} else done
  {
    assert selected - (todo - {pid}) == (selected - todo) + {pid};
    AccountedOne(m, known, selected - todo, pid);
  }

  lemma TallyMore(m: Moment, selected: set<Pid>, todo: set<Pid>, pid: Pid, known: map<Pid, Identity>,
                  now: map<Pid, Identity>, later: map<Pid, Identity>, current: nat, more: nat)
    requires todo <= selected && pid in todo && TalliedAll(m, selected, todo, known, now, current)
    requires pid !in m.unreadable && (Accountable(m, now, pid) ==> pid !in m.unaccountable)
    requires TalliedOne(m, pid, now, later, current, more)
    ensures TalliedAll(m, selected, todo - {pid}, known, later, more)
  {
    LookedMore(m, selected, todo, pid, known);
    AdoptRead(m, Accounted(m, known, selected - todo), pid, known);
    TallyOne(m, Accounted(m, known, selected - todo), pid, known, now, later, current, more);
  }

  predicate AccountReads(m: Moment, known: map<Pid, Identity>, selected: set<Pid>) {
    && m.ownFootprint.Some?
    && selected !! m.unreadable
    && Accounted(m, known, selected) !! m.unaccountable
  }

  // A read that raises is one of the reads the whole sample needs.
  lemma TallyStops(m: Moment, selected: set<Pid>, todo: set<Pid>, pid: Pid, known: map<Pid, Identity>,
                   now: map<Pid, Identity>, current: nat)
    requires todo <= selected && pid in todo && TalliedAll(m, selected, todo, known, now, current)
    requires pid in m.unreadable || (Accountable(m, now, pid) && pid in m.unaccountable)
    ensures !AccountReads(m, known, selected)
  {
    LookedMore(m, selected, todo, pid, known);
    AdoptRead(m, Accounted(m, known, selected - todo), pid, known);
    if pid !in m.unreadable {
      assert pid in Accounted(m, known, selected);
    }
  }

  ghost function Footprints(m: Moment, known: map<Pid, Identity>, selected: set<Pid>): nat {
    (if m.ownFootprint.Some? then m.ownFootprint.value else 0) + Total(m, Accounted(m, known, selected))
  }

  lemma TallyDone(m: Moment, selected: set<Pid>, known: map<Pid, Identity>, later: map<Pid, Identity>, current: nat)
    requires TalliedAll(m, selected, {}, known, later, current)
    ensures AccountReads(m, known, selected) && current == Footprints(m, known, selected)
    ensures later == Recorded(m, known, Accounted(m, known, selected))
  {
    assert selected - {} == selected;
  }

  // ---- A whole sample, and a run of samples ----

  predicate SelectionReads(m: Moment, known: map<Pid, Identity>) {
    !m.inventoryFails && known.Keys * Live(m).Keys !! m.unreadable
  }

  // Every read that a sample makes succeeds.
  predicate Readable(m: Moment, known: map<Pid, Identity>, leader: Pid, unreaped: bool) {
    && SelectionReads(m, known)
    && AccountReads(m, known, Select(m, known, leader, unreaped))
  }

  ghost function SampleOf(m: Moment, known: map<Pid, Identity>, leader: Pid, unreaped: bool): nat {
    Footprints(m, known, Select(m, known, leader, unreaped))
  }

  function KnownNext(m: Moment, known: map<Pid, Identity>, leader: Pid, unreaped: bool): map<Pid, Identity> {
    Recorded(m, known, Accounted(m, known, Select(m, known, leader, unreaped)))
  }

  // What a sample yields: the footprints, the worker's live processes but the leader, and
  // what is recorded then.
  datatype Sample = Sample(current: nat, survivors: set<Pid>, known: map<Pid, Identity>)

  // None where a read raises.
  ghost function SampleAt(m: Moment, known: map<Pid, Identity>, leader: Pid, unreaped: bool): Option<Sample> {
    if !Readable(m, known, leader, unreaped) then None
    else
      Some(Sample(SampleOf(m, known, leader, unreaped), Select(m, known, leader, unreaped) * Live(m).Keys - {leader},
                  KnownNext(m, known, leader, unreaped)))
  }

  type Sampler = (Moment, map<Pid, Identity>, bool) -> Option<Sample>

  // The sampler of the processes of this leader.
  ghost predicate Samples(sample: Sampler, leader: Pid) {
    forall m, known, unreaped {:trigger SampleAt(m, known, leader, unreaped)} ::
      sample(m, known, unreaped) == SampleAt(m, known, leader, unreaped)
  }
}
