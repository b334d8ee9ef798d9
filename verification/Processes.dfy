// resource-guard.py, lines 118-155: the process inventory and the descendants of a
// set of processes.
module Processes {
  type Pid = int

  datatype Row = Row(ppid: Pid, pgid: Pid)

  // The live processes of one inventory.
  type Table = map<Pid, Row>

  function Expand(selected: set<Pid>, table: Table): set<Pid> {
    selected + set pid | pid in table && table[pid].ppid in selected
  }

  ghost predicate Closed(s: set<Pid>, table: Table) {
    forall pid | pid in table && table[pid].ppid in s :: pid in s
  }

  lemma ExpandGrows(seeds: set<Pid>, table: Table)
    ensures seeds <= Expand(seeds, table) <= seeds + table.Keys
    ensures Expand(seeds, table) != seeds ==> table.Keys - Expand(seeds, table) < table.Keys - seeds
    ensures Expand(seeds, table) == seeds <==> Closed(seeds, table)
  {
    var expanded := Expand(seeds, table);
    assert expanded == seeds || exists pid :: pid in expanded && pid !in seeds by {
      if forall pid | pid in expanded :: pid in seeds { assert expanded == seeds; }
    }
    if expanded != seeds {
      var pid :| pid in expanded && pid !in seeds;
      assert pid in table.Keys - seeds && pid !in table.Keys - expanded;
    }
    assert forall pid | pid in table && table[pid].ppid in seeds :: pid in expanded;
  }

  function Descendants(seeds: set<Pid>, table: Table): set<Pid>
    decreases table.Keys - seeds
  {
    var expanded := Expand(seeds, table);
    ExpandGrows(seeds, table);
    if expanded == seeds then seeds else Descendants(expanded, table)
  }

  // The source's loop; it stops because the selection only grows, inside the table.
  method FindDescendants(seeds: set<Pid>, table: Table) returns (selected: set<Pid>)
    ensures selected == Descendants(seeds, table)
  {
    selected := seeds;
    while true
      invariant Descendants(selected, table) == Descendants(seeds, table)
      decreases table.Keys - selected
    {
      var expanded := Expand(selected, table);
      ExpandGrows(selected, table);
      if expanded == selected { return selected; }
      selected := expanded;
    }
  }

  // ---- What the loop computes ----

  // The least set that holds the seeds and every process whose parent it holds,
  // whatever cycles the parent links form.
  ghost predicate LeastClosure(seeds: set<Pid>, table: Table, s: set<Pid>) {
    && seeds <= s <= seeds + table.Keys
    && Closed(s, table)
    && forall t: set<Pid> | seeds <= t && Closed(t, table) :: s <= t
  }

  lemma {:induction false} DescendantsWithin(seeds: set<Pid>, table: Table, t: set<Pid>)
    requires seeds <= t && Closed(t, table)
    ensures Descendants(seeds, table) <= t
    decreases table.Keys - seeds
  {
    var expanded := Expand(seeds, table);
    ExpandGrows(seeds, table);
    if expanded != seeds {
      forall pid | pid in expanded ensures pid in t {
        if pid !in seeds { assert pid in table && table[pid].ppid in t; }
      }
      DescendantsWithin(expanded, table, t);
    }
  }

  lemma {:induction false} DescendantsClosed(seeds: set<Pid>, table: Table)
    ensures seeds <= Descendants(seeds, table) <= seeds + table.Keys
    ensures Closed(Descendants(seeds, table), table)
    decreases table.Keys - seeds
  {
    var expanded := Expand(seeds, table);
    ExpandGrows(seeds, table);
    if expanded != seeds {
      DescendantsClosed(expanded, table);
    }
  }

  lemma DescendantsAreLeast(seeds: set<Pid>, table: Table)
    ensures LeastClosure(seeds, table, Descendants(seeds, table))
  {
    DescendantsClosed(seeds, table);
    forall t: set<Pid> | seeds <= t && Closed(t, table) ensures Descendants(seeds, table) <= t {
      DescendantsWithin(seeds, table, t);
    }
  }

  // Nothing else is a least closure.
  lemma LeastClosureUnique(seeds: set<Pid>, table: Table, s: set<Pid>)
    requires LeastClosure(seeds, table, s)
    ensures s == Descendants(seeds, table)
  {
    DescendantsAreLeast(seeds, table);
  }

  lemma DescendantsMonotone(small: set<Pid>, large: set<Pid>, table: Table)
    requires small <= large
    ensures Descendants(small, table) <= Descendants(large, table)
  {
    DescendantsClosed(large, table);
    DescendantsWithin(small, table, Descendants(large, table));
  }

  lemma DescendantsIdempotent(seeds: set<Pid>, table: Table)
    ensures Descendants(Descendants(seeds, table), table) == Descendants(seeds, table)
  {
    var s := Descendants(seeds, table);
    DescendantsClosed(seeds, table);
    DescendantsClosed(s, table);
    DescendantsWithin(s, table, s);
  }

  lemma DescendantsOfUnion(a: set<Pid>, b: set<Pid>, table: Table)
    ensures Descendants(a + b, table) == Descendants(a, table) + Descendants(b, table)
  {
    var both := Descendants(a, table) + Descendants(b, table);
    DescendantsClosed(a, table);
    DescendantsClosed(b, table);
    DescendantsWithin(a + b, table, both);
    DescendantsMonotone(a, a + b, table);
    DescendantsMonotone(b, a + b, table);
  }

  // ---- Chains of children ----

  // Each process but the first is in the table, as a child of the one before.
  predicate ChildChain(table: Table, chain: seq<Pid>) {
    && chain != []
    && forall k | 1 <= k < |chain| :: chain[k] in table && table[chain[k]].ppid == chain[k - 1]
  }

  ghost predicate ChainTo(table: Table, seeds: set<Pid>, pid: Pid) {
    exists chain :: ChildChain(table, chain) && chain[0] in seeds && chain[|chain| - 1] == pid
  }

  lemma {:induction false} ChainStays(table: Table, chain: seq<Pid>, s: set<Pid>)
    requires ChildChain(table, chain) && chain[0] in s && Closed(s, table)
    ensures chain[|chain| - 1] in s
    decreases |chain|
  {
    var n := |chain| - 1;
    if n > 0 {
      ChainStays(table, chain[..n], s);
      var pid := chain[n];
      assert chain[..n][n - 1] == chain[n - 1] && pid in table && table[pid].ppid == chain[n - 1];
      assert table[pid].ppid in s;
      assert pid in s;
    }
  }

  lemma LongerChain(table: Table, seeds: set<Pid>, pid: Pid)
    requires pid in table && ChainTo(table, seeds, table[pid].ppid)
    ensures ChainTo(table, seeds, pid)
  {
    var chain :| ChildChain(table, chain) && chain[0] in seeds && chain[|chain| - 1] == table[pid].ppid;
    var longer := chain + [pid];
    assert ChildChain(table, longer) && longer[0] in seeds && longer[|longer| - 1] == pid;
  }

  // The loop selects exactly the ends of such chains that start at a seed.
  lemma DescendantsByChains(seeds: set<Pid>, table: Table, pid: Pid)
    ensures pid in Descendants(seeds, table) <==> ChainTo(table, seeds, pid)
  {
    var all := Descendants(seeds, table);
    DescendantsClosed(seeds, table);
    if ChainTo(table, seeds, pid) {
      var chain :| ChildChain(table, chain) && chain[0] in seeds && chain[|chain| - 1] == pid;
      ChainStays(table, chain, all);
    }
    var reached := set p | p in all && ChainTo(table, seeds, p);
    forall p | p in seeds ensures p in reached {
      var chain := [p];
      assert ChildChain(table, chain) && chain[0] in seeds && chain[|chain| - 1] == p;
    }
    forall p | p in table && table[p].ppid in reached ensures p in reached {
      LongerChain(table, seeds, p);
    }
    DescendantsWithin(seeds, table, reached);
  }
}
