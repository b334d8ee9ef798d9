// The processes the resource guard watches: what one inventory with its identity
// reads shows, the machine that shows it, and which processes belong to the worker.
module World {
  import opened Options
  import opened Processes

  // A process's start time; with its pid it names the process for good.
  type Identity = int

  datatype Proc = Proc(ppid: Pid, pgid: Pid, identity: Identity, zombie: bool, footprint: nat)

  // What sending a signal meets.
  datatype Delivery = Delivered | Gone | Denied | Broken

  // How a read fails: with EPERM, with another OSError, or because the kernel answers
  // about another pid, which is a RuntimeError.
  datatype Refusal = NotPermitted | OtherError | WrongPid

  // Everything the guard can read at one moment, and which reads fail.
  datatype Moment = Moment(
    procs: map<Pid, Proc>,
    inventoryFails: bool,
    unreadable: set<Pid>,
    refusal: Pid -> Refusal,
    unaccountable: set<Pid>,
    ownFootprint: Option<nat>,
    interrupt: Option<nat>,
    parentGone: bool,
    exit: Option<int>,
    delivery: Pid -> Delivery,
    elapsed: nat)

  // processes(): zombies are left out.
  function Live(m: Moment): Table {
    map pid | pid in m.procs && !m.procs[pid].zombie :: Row(m.procs[pid].ppid, m.procs[pid].pgid)
  }

  // process_identity(), where it does not raise.
  function IdentityAt(m: Moment, pid: Pid): Option<Identity> {
    if pid in m.procs && !m.procs[pid].zombie then Some(m.procs[pid].identity) else None
  }

  // Until the guard reaps it, the leader keeps its pid, its identity and, as leader
  // of its own session, its process group.
  predicate Pinned(m: Moment, leader: Pid, leaderId: Identity) {
    leader in m.procs && m.procs[leader].identity == leaderId && m.procs[leader].pgid == leader
  }

  // The pid and start time name a process that exists, as a zombie too; or that lives.
  predicate Existing(m: Moment, pid: Pid, id: Identity) {
    pid in m.procs && m.procs[pid].identity == id
  }

  predicate Alive(m: Moment, pid: Pid, id: Identity) {
    IdentityAt(m, pid) == Some(id)
  }

  // Among these moments, a process that existed and does not live any more never comes
  // back: its pid may be used again, but with another start time.
  ghost predicate Mortal(seen: seq<Moment>) {
    forall i, j, k, pid, id {:trigger Existing(seen[i], pid, id), Alive(seen[j], pid, id), Alive(seen[k], pid, id)} |
      0 <= i <= j < k < |seen| && Existing(seen[i], pid, id) && !Alive(seen[j], pid, id) ::
      !Alive(seen[k], pid, id)
  }

  // What any system shows after any moments: the leader is there until it is reaped, and
  // then it is gone; and the dead stay dead.
  ghost predicate Lawful(behaviour: (seq<Moment>, bool) -> Moment, leader: Pid, leaderId: Identity) {
    forall seen, reaped {:trigger behaviour(seen, reaped)} ::
      && (if reaped then !Alive(behaviour(seen, reaped), leader, leaderId)
          else Pinned(behaviour(seen, reaped), leader, leaderId))
      && (Mortal(seen) ==> Mortal(seen + [behaviour(seen, reaped)]))
  }

  ghost predicate GoneSince(seen: seq<Moment>, cut: nat, pid: Pid, id: Identity) {
    forall k {:trigger Alive(seen[k], pid, id)} | cut <= k < |seen| :: !Alive(seen[k], pid, id)
  }

  // Moment t is what the behaviour shows after those before it; the leader was reaped
  // before moment `cut`.
  ghost predicate Given(behaviour: (seq<Moment>, bool) -> Moment, seen: seq<Moment>, t: nat, reaped: bool, cut: nat) {
    t < |seen| && seen[t] == behaviour(seen[..t], reaped && t >= cut)
  }

  // Shows one moment after the other. The oracle is any lawful behaviour of the system;
  // it may depend on what was shown and on whether the leader was reaped.
  class Machine {
    const leader: Pid
    const leaderId: Identity
    const oracle: (seq<Moment>, bool) -> Moment
    var seen: seq<Moment>
    var clock: nat
    var reaped: bool
    ghost var reapedAt: nat

    constructor (pid: Pid, id: Identity, behaviour: (seq<Moment>, bool) -> Moment)
      requires Lawful(behaviour, pid, id)
      ensures Valid() && seen == [] && clock == 0 && !reaped && leader == pid && leaderId == id && oracle == behaviour
    {
      leader, leaderId, oracle := pid, id, behaviour;
      seen, clock, reaped, reapedAt := [], 0, false, 0;
    }

    ghost predicate Valid()
      reads this
    {
      && Lawful(oracle, leader, leaderId)
      && Mortal(seen)
      && (reaped ==> reapedAt <= |seen| && GoneSince(seen, reapedAt, leader, leaderId))
      && forall t: nat {:trigger Given(oracle, seen, t, reaped, reapedAt)} | t < |seen| ::
           Given(oracle, seen, t, reaped, reapedAt)
    }

    method Look() returns (m: Moment)
      requires Valid()
      modifies this
      ensures Valid() && seen == old(seen) + [m] && reaped == old(reaped) && reapedAt == old(reapedAt)
      ensures m == oracle(old(seen), reaped) && clock == old(clock) + m.elapsed
      ensures !reaped ==> Pinned(m, leader, leaderId)
    {
      m := oracle(seen, reaped);
      clock := clock + m.elapsed;
      ghost var before := seen;
      seen := seen + [m];
      forall t: nat | t < |seen| ensures Given(oracle, seen, t, reaped, reapedAt) {
        assert seen[..t] == before[..t];
        assert t < |before| ==> Given(oracle, before, t, reaped, reapedAt);
      }
    }

    method Sleep(ms: nat)
      requires Valid()
      modifies this`clock
      ensures Valid() && clock == old(clock) + ms
    {
      clock := clock + ms;
    }

    method Reap()
      requires Valid() && !reaped
      modifies this`reaped, this`reapedAt
      ensures Valid() && reaped && reapedAt == |seen|
    {
      ghost var cut := reapedAt;
      reaped, reapedAt := true, |seen|;
      forall t: nat | t < |seen| ensures Given(oracle, seen, t, reaped, reapedAt) {
        assert Given(oracle, seen, t, false, cut);
      }
    }
  }

  // ---- Ownership ----

  // A process at one of the moments seen.
  datatype Link = Link(t: nat, pid: Pid, id: Identity)

  // How a process came to belong to the worker, from the leader on.
  datatype Lineage = Root(link: Link) | Then(prior: Lineage, link: Link)

  ghost predicate Present(seen: seq<Moment>, l: Link) {
    l.t < |seen| && l.pid in seen[l.t].procs && seen[l.t].procs[l.pid].identity == l.id
  }

  // The same process later on; or, at one moment, a child; or a member of the same
  // process group.
  ghost predicate Inherits(seen: seq<Moment>, a: Link, b: Link)
    requires Present(seen, a) && Present(seen, b)
  {
    || (a.pid == b.pid && a.id == b.id && a.t <= b.t)
    || (a.t == b.t && seen[b.t].procs[b.pid].ppid == a.pid)
    || (a.t == b.t && seen[b.t].procs[b.pid].pgid == seen[a.t].procs[a.pid].pgid)
  }

  ghost predicate Holds(seen: seq<Moment>, leader: Pid, leaderId: Identity, l: Lineage) {
    && Present(seen, l.link)
    && match l
       case Root(link) => link.pid == leader && link.id == leaderId
       case Then(prior, link) =>
         Holds(seen, leader, leaderId, prior) && Inherits(seen, prior.link, link)
  }

  // The process belongs to the worker: some lineage leads to it.
  ghost predicate Owned(seen: seq<Moment>, leader: Pid, leaderId: Identity, link: Link) {
    exists l: Lineage :: l.link == link && Holds(seen, leader, leaderId, l)
  }

  ghost predicate OwnedNow(seen: seq<Moment>, leader: Pid, leaderId: Identity, t: nat, pid: Pid) {
    && t < |seen| && pid in seen[t].procs
    && Owned(seen, leader, leaderId, Link(t, pid, seen[t].procs[pid].identity))
  }

  // Each recorded identity was, at some moment, that of a process of the worker.
  ghost predicate KnownOwned(seen: seq<Moment>, leader: Pid, leaderId: Identity, known: map<Pid, Identity>) {
    forall pid | pid in known :: exists t: nat :: Owned(seen, leader, leaderId, Link(t, pid, known[pid]))
  }

  lemma {:induction false} HoldsLonger(seen: seq<Moment>, longer: seq<Moment>, leader: Pid, leaderId: Identity,
                                       l: Lineage)
    requires Holds(seen, leader, leaderId, l) && seen <= longer
    ensures Holds(longer, leader, leaderId, l)
  {
    if l.Then? { HoldsLonger(seen, longer, leader, leaderId, l.prior); }
  }

  lemma OwnedLonger(seen: seq<Moment>, longer: seq<Moment>, leader: Pid, leaderId: Identity, link: Link)
    requires Owned(seen, leader, leaderId, link) && seen <= longer
    ensures Owned(longer, leader, leaderId, link)
  {
    var l: Lineage :| l.link == link && Holds(seen, leader, leaderId, l);
    HoldsLonger(seen, longer, leader, leaderId, l);
  }

  lemma KnownOwnedLonger(seen: seq<Moment>, longer: seq<Moment>, leader: Pid, leaderId: Identity,
                         known: map<Pid, Identity>)
    requires KnownOwned(seen, leader, leaderId, known) && seen <= longer
    ensures KnownOwned(longer, leader, leaderId, known)
  {
    forall pid | pid in known ensures exists t: nat :: Owned(longer, leader, leaderId, Link(t, pid, known[pid])) {
      var t: nat :| Owned(seen, leader, leaderId, Link(t, pid, known[pid]));
      OwnedLonger(seen, longer, leader, leaderId, Link(t, pid, known[pid]));
    }
  }

  lemma Inherit(seen: seq<Moment>, leader: Pid, leaderId: Identity, a: Link, b: Link)
    requires Owned(seen, leader, leaderId, a) && Present(seen, a) && Present(seen, b) && Inherits(seen, a, b)
    ensures Owned(seen, leader, leaderId, b)
  {
    var l: Lineage :| l.link == a && Holds(seen, leader, leaderId, l);
    assert Holds(seen, leader, leaderId, Then(l, b));
    assert Then(l, b).link == b;
  }

  lemma OwnedIsPresent(seen: seq<Moment>, leader: Pid, leaderId: Identity, link: Link)
    requires Owned(seen, leader, leaderId, link)
    ensures Present(seen, link)
  {
  }

  lemma LeaderOwned(seen: seq<Moment>, leader: Pid, leaderId: Identity, t: nat)
    requires t < |seen| && Pinned(seen[t], leader, leaderId)
    ensures OwnedNow(seen, leader, leaderId, t, leader)
  {
    var root := Root(Link(t, leader, leaderId));
    assert Holds(seen, leader, leaderId, root);
  }

  lemma KnownIsOwned(seen: seq<Moment>, leader: Pid, leaderId: Identity, known: map<Pid, Identity>, t: nat, pid: Pid)
    requires KnownOwned(seen, leader, leaderId, known) && t == |seen| - 1
    requires pid in known && IdentityAt(seen[t], pid) == Some(known[pid])
    ensures OwnedNow(seen, leader, leaderId, t, pid)
  {
    var u: nat :| Owned(seen, leader, leaderId, Link(u, pid, known[pid]));
    OwnedIsPresent(seen, leader, leaderId, Link(u, pid, known[pid]));
    Inherit(seen, leader, leaderId, Link(u, pid, known[pid]), Link(t, pid, known[pid]));
  }

  lemma GroupMateOwned(seen: seq<Moment>, leader: Pid, leaderId: Identity, t: nat, a: Pid, b: Pid)
    requires OwnedNow(seen, leader, leaderId, t, a) && b in seen[t].procs
    requires seen[t].procs[b].pgid == seen[t].procs[a].pgid || seen[t].procs[b].ppid == a
    ensures OwnedNow(seen, leader, leaderId, t, b)
  {
    var procs := seen[t].procs;
    Inherit(seen, leader, leaderId, Link(t, a, procs[a].identity), Link(t, b, procs[b].identity));
  }

  // The descendants of processes of the worker are processes of the worker.
  lemma DescendantsOwned(seen: seq<Moment>, leader: Pid, leaderId: Identity, t: nat, seeds: set<Pid>, table: Table)
    requires t < |seen|
    requires table == Live(seen[t]) || table == map[]
    requires forall pid | pid in seeds :: OwnedNow(seen, leader, leaderId, t, pid)
    ensures forall pid | pid in Descendants(seeds, table) :: OwnedNow(seen, leader, leaderId, t, pid)
  {
    var owned := set pid | pid in seen[t].procs && OwnedNow(seen, leader, leaderId, t, pid);
    assert Closed(owned, table) by {
      forall pid | pid in table && table[pid].ppid in owned ensures pid in owned {
        GroupMateOwned(seen, leader, leaderId, t, table[pid].ppid, pid);
      }
    }
    forall pid | pid in seeds ensures pid in owned {
      assert OwnedNow(seen, leader, leaderId, t, pid);
    }
    DescendantsWithin(seeds, table, owned);
  }
}
