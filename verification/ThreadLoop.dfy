// onchain-social.jsx, line 30: exactly when the loop over the stack ends.
module ThreadLoop {
  import opened Options
  import opened Threads
  import opened ThreadOrder

  ghost predicate Ends(items: seq<Entry>, root: Option<string>) {
    exists n: nat :: Iter(items, Start(items, root), n) == []
  }

  // ---- Rounds ----

  lemma {:induction false} IterFirst(items: seq<Entry>, stack: seq<Row>, n: nat)
    requires n > 0
    ensures Iter(items, stack, n) == Iter(items, Step(items, stack), n - 1)
  {
    if n > 1 { IterFirst(items, stack, n - 1); }
  }

  lemma {:induction false} Pushed(stack: seq<Row>, es: seq<Entry>, depth: nat)
    ensures forall row | row in stack :: row in PushAll(stack, es, depth)
    ensures forall e | e in es :: (e, depth) in PushAll(stack, es, depth)
  {
    if es != [] {
      Pushed(stack, es[1..], depth);
      assert forall e | e in es :: e == es[0] || e in es[1..];
    }
  }

  lemma StepKeeps(items: seq<Entry>, stack: seq<Row>, row: Row)
    requires row in stack
    ensures row == stack[|stack| - 1] || row in Step(items, stack)
  {
    var rest, top := stack[..|stack| - 1], stack[|stack| - 1];
    Pushed(rest, Children(items, Some(top.0.id)), top.1 + 1);
    assert row == top || row in rest;
  }

  lemma StepPushes(items: seq<Entry>, stack: seq<Row>, c: Entry)
    requires stack != [] && c in items && Parent(c) == Some(stack[|stack| - 1].0.id)
    ensures (c, stack[|stack| - 1].1 + 1) in Step(items, stack)
  {
    var top := stack[|stack| - 1];
    ChildrenAre(items, Some(top.0.id));
    Pushed(stack[..|stack| - 1], Children(items, Some(top.0.id)), top.1 + 1);
  }

  // Entries of which each is the parent of the next.
  ghost predicate Descent(items: seq<Entry>, path: seq<Entry>) {
    && (forall k | 0 <= k < |path| :: path[k] in items)
    && forall j, k | 0 <= j < |path| && k == j + 1 && k < |path| :: Parent(path[k]) == Some(path[j].id)
  }

  // Each stack is one round behind the one before.
  ghost predicate Rounds(items: seq<Entry>, stacks: seq<seq<Row>>) {
    forall j, k | 0 <= j < |stacks| && k == j + 1 && k < |stacks| :: stacks[k] == Step(items, stacks[j])
  }

  lemma RoundsAppend(items: seq<Entry>, stacks: seq<seq<Row>>, next: seq<Row>)
    requires Rounds(items, stacks) && stacks != [] && next == Step(items, stacks[|stacks| - 1])
    ensures Rounds(items, stacks + [next])
  {
    var longer := stacks + [next];
    forall j, k | 0 <= j < |longer| && k == j + 1 && k < |longer| ensures longer[k] == Step(items, longer[j]) {
      assert longer[j] == stacks[j];
      if k < |stacks| { assert longer[k] == stacks[k]; }
    }
  }

  lemma {:induction false} IterRounds(items: seq<Entry>, start: seq<Row>, n: nat) returns (stacks: seq<seq<Row>>)
    ensures Rounds(items, stacks) && |stacks| == n + 1
    ensures stacks[0] == start && stacks[n] == Iter(items, start, n)
  {
    stacks := [start];
    if n > 0 {
      stacks := IterRounds(items, start, n - 1);
      var next := Iter(items, start, n);
      IterNext(items, start, stacks[n - 1], n - 1);
      RoundsAppend(items, stacks, next);
      stacks := stacks + [next];
    }
  }

  // The stack holds the top of the descent, or, after a round, the entry below it.
  lemma StepDown(items: seq<Entry>, stack: seq<Row>, next: seq<Row>, row: Row, path: seq<Entry>)
    returns (below: Row, rest: seq<Entry>)
    requires row in stack && next == Step(items, stack)
    requires |path| > 1 && path[0] == row.0 && Descent(items, path)
    ensures below in next && rest != [] && rest[0] == below.0 && Descent(items, rest) && |path| <= |rest| + 1
  {
    StepKeeps(items, stack, row);
    if row in next {
      below, rest := row, path;
    } else {
      StepPushes(items, stack, path[1]);
      below, rest := (path[1], row.1 + 1), path[1..];
    }
  }

  // A stack that is emptied in n rounds has no descent of more than n entries.
  lemma {:induction false} EmptiedIsShallow(items: seq<Entry>, stacks: seq<seq<Row>>, i: nat, row: Row,
                                            path: seq<Entry>)
    requires Rounds(items, stacks) && i < |stacks| && stacks[|stacks| - 1] == [] && row in stacks[i]
    requires path != [] && path[0] == row.0 && Descent(items, path)
    ensures i + |path| < |stacks|
    decreases |stacks| - i
  {
    assert i < |stacks| - 1;
    if |path| > 1 {
      var below, rest := StepDown(items, stacks[i], stacks[i + 1], row, path);
      EmptiedIsShallow(items, stacks, i + 1, below, rest);
    }
  }

  lemma BelowDescent(items: seq<Entry>, root: Option<string>, e: Entry, depth: nat)
    returns (path: seq<Entry>)
    requires Below(items, root, e, depth)
    ensures |path| == depth + 1 && Descent(items, path) && Parent(path[0]) == root
    ensures forall i | 0 <= i <= depth :: Below(items, root, path[i], i)
  {
    path := PathDown(items, root, e, depth);
    assert Below(items, root, path[0], 0);
    forall k | 0 <= k < |path| ensures path[k] in items {
      assert Below(items, root, path[k], k);
    }
  }

  lemma EndedDepth(items: seq<Entry>, root: Option<string>, n: nat, e: Entry, depth: nat)
    requires Iter(items, Start(items, root), n) == [] && Below(items, root, e, depth)
    ensures depth < n
  {
    var path := BelowDescent(items, root, e, depth);
    ChildrenAre(items, root);
    Pushed([], Children(items, root), 0);
    var stacks := IterRounds(items, Start(items, root), n);
    EmptiedIsShallow(items, stacks, 0, (path[0], 0), path);
  }

  // ---- Cycles ----

  lemma {:induction false} BelowPlus(items: seq<Entry>, root: Option<string>, a: Entry, i: nat, x: Entry, k: nat)
    requires Below(items, root, a, i) && x in items && Under(items, a, x, k)
    ensures Below(items, root, x, i + k)
    decreases k
  {
    if k > 0 {
      var p :| p in items && Parent(x) == Some(p.id) && Under(items, a, p, k - 1);
      BelowPlus(items, root, a, i, p, k - 1);
      assert Below(items, root, p, i + k - 1);
    }
  }

  // An entry under itself lies at unbounded depth.
  lemma {:induction false} Pump(items: seq<Entry>, root: Option<string>, x: Entry, i: nat, period: nat, n: nat)
    returns (depth: nat)
    requires Below(items, root, x, i) && Under(items, x, x, period) && period > 0
    ensures depth >= n && Below(items, root, x, depth)
  {
    if n == 0 {
      depth := i;
    } else {
      depth := Pump(items, root, x, i, period, n - 1);
      BelowPlus(items, root, x, depth, x, period);
      depth := depth + period;
    }
  }

  lemma {:induction false} PathUnder(items: seq<Entry>, path: seq<Entry>, i: nat, j: nat)
    requires i <= j < |path| && Descent(items, path)
    ensures Under(items, path[i], path[j], j - i)
    decreases j
  {
    if i < j {
      PathUnder(items, path, i, j - 1);
      assert Parent(path[j]) == Some(path[j - 1].id);
    }
  }

  lemma Repeats(path: seq<Entry>, items: seq<Entry>) returns (i: nat, j: nat)
    requires |path| > |items| && forall k | 0 <= k < |path| :: path[k] in items
    ensures i < j < |path| && path[i] == path[j]
  {
    if forall a, b | 0 <= a < b < |path| :: path[a] != path[b] {
      Pigeonhole(path, set e | e in items);
      PoolSize(items);
      assert false;
    }
    i, j :| 0 <= i < j < |path| && path[i] == path[j];
  }

  // Below an entry as deep as there are items there is no end.
  lemma TooDeep(items: seq<Entry>, root: Option<string>, e: Entry, n: nat) returns (x: Entry, depth: nat)
    requires Below(items, root, e, |items|)
    ensures depth >= n && Below(items, root, x, depth)
  {
    var path := BelowDescent(items, root, e, |items|);
    var i, j := Repeats(path, items);
    PathUnder(items, path, i, j);
    x := path[i];
    depth := Pump(items, root, x, i, j - i, n);
  }

  // ---- The loop ends exactly if ... ----

  lemma {:induction false} EmptiedAfter(items: seq<Entry>, root: Option<string>, stack: seq<Row>)
    requires Shallow(items, root) && OnStack(items, root, stack)
    ensures Iter(items, stack, |Unfold(items, stack)|) == []
    decreases |Unfold(items, stack)|
  {
    if stack != [] {
      Round(items, root, stack, Step(items, stack));
      EmptiedAfter(items, root, Step(items, stack));
      IterFirst(items, stack, |Unfold(items, stack)|);
    }
  }

  // For all items, also with ids that repeat: the loop ends if and only if no entry
  // lies as deep below the root as there are items. Ordered covers all these inputs.
  lemma EndsExactly(items: seq<Entry>, root: Option<string>)
    ensures Ends(items, root) <==> Shallow(items, root)
  {
    if Ends(items, root) {
      var n: nat :| Iter(items, Start(items, root), n) == [];
      forall e | e in items ensures !Below(items, root, e, |items|) {
        if Below(items, root, e, |items|) {
          var x, depth := TooDeep(items, root, e, n);
          EndedDepth(items, root, n, x, depth);
        }
      }
    }
    if Shallow(items, root) {
      RootsBelow(items, root);
      PushedOnStack(items, root, [], Children(items, root), 0);
      EmptiedAfter(items, root, Start(items, root));
    }
  }

  // ---- Unique ids ----

  // From the root's own entry the descent starts over.
  lemma {:induction false} BelowAgain(items: seq<Entry>, root: Option<string>, x: Entry, e: Entry, j: nat, d: nat)
    requires x in items && Some(x.id) == root && Below(items, root, x, d) && Below(items, root, e, j)
    ensures Below(items, root, e, j + d + 1)
    decreases j
  {
    if j > 0 {
      var p :| p in items && Parent(e) == Some(p.id) && Below(items, root, p, j - 1);
      BelowAgain(items, root, x, p, j - 1, d);
      assert Below(items, root, p, j + d + 1 - 1);
    } else {
      assert Below(items, root, x, d + 1 - 1);
    }
  }

  // If the root is its own descendant, entries lie below it at every depth.
  lemma {:induction false} SelfDescentUnbounded(items: seq<Entry>, root: Option<string>, x: Entry, k: nat, n: nat)
    returns (depth: nat)
    requires x in items && Some(x.id) == root && Below(items, root, x, k)
    ensures depth >= n && Below(items, root, x, depth)
    decreases n
  {
    if n == 0 {
      depth := k;
    } else {
      var d := SelfDescentUnbounded(items, root, x, k, n - 1);
      BelowAgain(items, root, x, x, k, d);
      depth := k + d + 1;
    }
  }

  // With unique ids: if and only if the root is not its own descendant.
  lemma EndsIffForested(items: seq<Entry>, root: Option<string>)
    requires UniqueIds(items)
    ensures Ends(items, root) <==> Forested(items, root)
  {
    EndsExactly(items, root);
    if Forested(items, root) {
      ForestIsShallow(items, root);
    } else {
      var x, k: nat :| x in items && Some(x.id) == root && Below(items, root, x, k);
      var depth := SelfDescentUnbounded(items, root, x, k, |items|);
      if Shallow(items, root) { ShallowBound(items, root, x, depth); }
    }
  }

  // The shortest such thread: an entry that is its own parent, and its own root.
  lemma SelfParentNeverEnds()
    ensures var thread := [Entry("a", Some("a"))];
            UniqueIds(thread) && !Forested(thread, Some("a")) && !Ends(thread, Some("a"))
  {
    var e := Entry("a", Some("a"));
    var thread := [e];
    assert e in thread && |"a"| == 1 && Parent(e) == Some("a");
    assert Below(thread, Some("a"), e, 0);
    EndsIffForested(thread, Some("a"));
  }
}
