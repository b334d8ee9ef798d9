// onchain-social.jsx, line 30: flattening a forest of replies with an explicit
// stack, and the recursive pre-order traversal it computes.
module Threads {
  import opened Options
  import opened Sequences

  datatype Entry = Entry(id: string, parentId: Option<string>)

  // An absent or empty id is null.
  function OrNull(id: Option<string>): Option<string> {
    if id == Some("") then None else id
  }

  function Parent(e: Entry): Option<string> {
    OrNull(e.parentId)
  }

  function Own(e: Entry, key: Option<string>): seq<Entry> {
    if Parent(e) == key then [e] else []
  }

  function Children(items: seq<Entry>, key: Option<string>): seq<Entry> {
    if items == [] then [] else Own(items[0], key) + Children(items[1..], key)
  }

  predicate UniqueIds(items: seq<Entry>) {
    forall i, j | 0 <= i < j < |items| :: items[i].id != items[j].id
  }

  // Following parents from e reaches the root after depth steps in between.
  ghost predicate Below(items: seq<Entry>, root: Option<string>, e: Entry, depth: nat)
    decreases depth
  {
    e in items &&
    if depth == 0 then Parent(e) == root
    else exists p | p in items :: Parent(e) == Some(p.id) && Below(items, root, p, depth - 1)
  }

  // Unique ids, and a root that is not its own descendant.
  ghost predicate Forested(items: seq<Entry>, root: Option<string>) {
    && UniqueIds(items)
    && forall x, k: nat | x in items && Some(x.id) == root :: !Below(items, root, x, k)
  }

  // ---- Depths ----

  lemma SameId(items: seq<Entry>, a: Entry, b: Entry)
    requires UniqueIds(items) && a in items && b in items && a.id == b.id
    ensures a == b
  {
    var i :| 0 <= i < |items| && items[i] == a;
    var j :| 0 <= j < |items| && items[j] == b;
  }

  lemma {:induction false} DepthUnique(items: seq<Entry>, root: Option<string>, e: Entry, j: nat, k: nat)
    requires Forested(items, root) && Below(items, root, e, j) && Below(items, root, e, k)
    ensures j == k
    decreases j + k
  {
    if j > 0 && k > 0 {
      var p :| p in items && Parent(e) == Some(p.id) && Below(items, root, p, j - 1);
      var q :| q in items && Parent(e) == Some(q.id) && Below(items, root, q, k - 1);
      SameId(items, p, q);
      DepthUnique(items, root, p, j - 1, k - 1);
    }
  }

  // The entries from the root down to e.
  lemma {:induction false} PathDown(items: seq<Entry>, root: Option<string>, e: Entry, depth: nat)
    returns (path: seq<Entry>)
    requires Below(items, root, e, depth)
    ensures |path| == depth + 1 && path[depth] == e
    ensures forall i | 0 <= i <= depth :: Below(items, root, path[i], i)
    ensures forall i, j | 0 <= i < depth && j == i + 1 :: Parent(path[j]) == Some(path[i].id)
    decreases depth
  {
    if depth == 0 {
      path := [e];
    } else {
      var p :| p in items && Parent(e) == Some(p.id) && Below(items, root, p, depth - 1);
      var front := PathDown(items, root, p, depth - 1);
      path := front + [e];
    }
  }

  lemma {:induction false} Pigeonhole(path: seq<Entry>, pool: set<Entry>)
    requires forall i, j | 0 <= i < j < |path| :: path[i] != path[j]
    requires forall e | e in path :: e in pool
    ensures |path| <= |pool|
  {
    if path != [] {
      var front, last := path[..|path| - 1], path[|path| - 1];
      assert forall e | e in front :: e in pool - {last};
      Pigeonhole(front, pool - {last});
    }
  }

  lemma {:induction false} PoolSize(items: seq<Entry>)
    ensures |set e | e in items| <= |items|
  {
    var pool := set e | e in items;
    if items == [] {
      assert pool == {};
    } else {
      PoolSize(items[1..]);
      var rest := set e | e in items[1..];
      assert pool == rest + {items[0]};
    }
  }

  lemma DepthBound(items: seq<Entry>, root: Option<string>, e: Entry, depth: nat)
    requires Forested(items, root) && Below(items, root, e, depth)
    ensures depth < |items|
  {
    var path := PathDown(items, root, e, depth);
    forall i, j | 0 <= i < j < |path| ensures path[i] != path[j] {
      if path[i] == path[j] { DepthUnique(items, root, path[i], i, j); }
    }
    Pigeonhole(path, set e | e in items);
    PoolSize(items);
  }

  // No entry lies as deep as there are items.
  ghost predicate Shallow(items: seq<Entry>, root: Option<string>) {
    forall e | e in items :: !Below(items, root, e, |items|)
  }

  lemma ForestIsShallow(items: seq<Entry>, root: Option<string>)
    requires Forested(items, root)
    ensures Shallow(items, root)
  {
    forall e | e in items ensures !Below(items, root, e, |items|) {
      if Below(items, root, e, |items|) { DepthBound(items, root, e, |items|); }
    }
  }

  lemma {:induction false} Ancestor(items: seq<Entry>, root: Option<string>, e: Entry, depth: nat, k: nat)
    requires Below(items, root, e, depth) && k <= depth
    ensures exists a | a in items :: Below(items, root, a, k)
    decreases depth
  {
    if k < depth {
      var p :| p in items && Parent(e) == Some(p.id) && Below(items, root, p, depth - 1);
      Ancestor(items, root, p, depth - 1, k);
    }
  }

  lemma ShallowBound(items: seq<Entry>, root: Option<string>, e: Entry, depth: nat)
    requires Shallow(items, root) && Below(items, root, e, depth)
    ensures depth < |items|
  {
    if depth >= |items| { Ancestor(items, root, e, depth, |items|); }
  }

  lemma {:induction false} ChildrenAre(items: seq<Entry>, key: Option<string>)
    ensures forall e :: e in Children(items, key) <==> e in items && Parent(e) == key
  {
    if items != [] {
      ChildrenAre(items[1..], key);
      assert forall e :: e in items <==> e == items[0] || e in items[1..];
    }
  }

  lemma ChildrenBelow(items: seq<Entry>, root: Option<string>, e: Entry, depth: nat)
    requires Below(items, root, e, depth)
    ensures forall c | c in Children(items, Some(e.id)) :: Below(items, root, c, depth + 1)
  {
    ChildrenAre(items, Some(e.id));
  }

  lemma RootsBelow(items: seq<Entry>, root: Option<string>)
    ensures forall c | c in Children(items, root) :: Below(items, root, c, 0)
  {
    ChildrenAre(items, root);
  }

  // ---- The pre-order traversal ----

  type Row = (Entry, nat)

  function Left(items: seq<Entry>, depth: nat): nat {
    if depth < |items| then |items| - depth else 0
  }

  // An entry and, behind it, the trees of its children in input order. No entry
  // below the root is as deep as there are items.
  function Tree(items: seq<Entry>, e: Entry, depth: nat): seq<Row>
    decreases Left(items, depth), 0
  {
    if depth >= |items| then []
    else [(e, depth)] + Trees(items, Children(items, Some(e.id)), depth + 1)
  }

  function Trees(items: seq<Entry>, es: seq<Entry>, depth: nat): seq<Row>
    decreases Left(items, depth), |es|
  {
    if es == [] then [] else Tree(items, es[0], depth) + Trees(items, es[1..], depth)
  }

  function Traversal(items: seq<Entry>, root: Option<string>): seq<Row> {
    Trees(items, Children(items, root), 0)
  }

  // ---- The program ----

  ghost predicate OnStack(items: seq<Entry>, root: Option<string>, stack: seq<Row>) {
    forall i | 0 <= i < |stack| :: Below(items, root, stack[i].0, stack[i].1)
  }

  // What is still to come: the trees of the stack's entries, the top one first.
  ghost function Unfold(items: seq<Entry>, stack: seq<Row>): seq<Row> {
    if stack == [] then []
    else
      var top := stack[|stack| - 1];
      Tree(items, top.0, top.1) + Unfold(items, stack[..|stack| - 1])
  }

  // (byParent.get(key) || []).
  function Lookup(byParent: map<Option<string>, seq<Entry>>, key: Option<string>): seq<Entry> {
    if key in byParent then byParent[key] else []
  }

  lemma {:induction false} ChildrenAppend(items: seq<Entry>, e: Entry, key: Option<string>)
    ensures Children(items + [e], key) == Children(items, key) + Own(e, key)
  {
    if items == [] {
      assert items + [e] == [e] && [e][1..] == [];
    } else {
      assert (items + [e])[1..] == items[1..] + [e];
      ChildrenAppend(items[1..], e, key);
      assert (Own(items[0], key) + Children(items[1..], key)) + Own(e, key)
          == Own(items[0], key) + (Children(items[1..], key) + Own(e, key));
    }
  }

  ghost predicate Groups(byParent: map<Option<string>, seq<Entry>>, items: seq<Entry>) {
    forall key :: Lookup(byParent, key) == Children(items, key)
  }

  lemma GroupsAppend(byParent: map<Option<string>, seq<Entry>>, items: seq<Entry>, e: Entry)
    requires Groups(byParent, items)
    ensures Groups(byParent[Parent(e) := Lookup(byParent, Parent(e)) + [e]], items + [e])
  {
    var longer := byParent[Parent(e) := Lookup(byParent, Parent(e)) + [e]];
    forall key ensures Lookup(longer, key) == Children(items + [e], key) {
      ChildrenAppend(items, e, key);
      assert Lookup(byParent, key) == Children(items, key);
    }
  }

  lemma GroupsNext(byParent: map<Option<string>, seq<Entry>>, items: seq<Entry>, k: nat)
    requires k < |items| && Groups(byParent, items[..k])
    ensures var p := Parent(items[k]);
            Groups(byParent[p := Lookup(byParent, p) + [items[k]]], items[..k + 1])
  {
    GroupsAppend(byParent, items[..k], items[k]);
    assert items[..k + 1] == items[..k] + [items[k]];
  }

  // byParent: each parent's entries, in input order.
  method GroupByParent(items: seq<Entry>) returns (byParent: map<Option<string>, seq<Entry>>)
    ensures Groups(byParent, items)
  {
    byParent := map[];
    for k := 0 to |items|
      invariant Groups(byParent, items[..k])
    {
      GroupsNext(byParent, items, k);
      var p := Parent(items[k]);
      byParent := byParent[p := Lookup(byParent, p) + [items[k]]];
    }
    assert items[..|items|] == items;
  }

  // The stack after pushing entries last to first: the first ends up on top.
  function PushAll(stack: seq<Row>, es: seq<Entry>, depth: nat): seq<Row> {
    if es == [] then stack else PushAll(stack, es[1..], depth) + [(es[0], depth)]
  }

  method PushReversed(stack: seq<Row>, es: seq<Entry>, depth: nat) returns (pushed: seq<Row>)
    ensures pushed == PushAll(stack, es, depth)
  {
    pushed := stack;
    for k := |es| downto 0
      invariant pushed == PushAll(stack, es[k..], depth)
    {
      assert es[k..][1..] == es[k + 1..];
      pushed := pushed + [(es[k], depth)];
    }
    assert es[0..] == es;
  }

  lemma {:induction false} UnfoldPushed(items: seq<Entry>, stack: seq<Row>, es: seq<Entry>, depth: nat)
    ensures Unfold(items, PushAll(stack, es, depth)) == Trees(items, es, depth) + Unfold(items, stack)
  {
    if es != [] {
      var rest := PushAll(stack, es[1..], depth);
      var pushed := PushAll(stack, es, depth);
      assert pushed[..|pushed| - 1] == rest;
      UnfoldPushed(items, stack, es[1..], depth);
      Regroup(Tree(items, es[0], depth), Trees(items, es[1..], depth), Unfold(items, stack));
    }
  }

  lemma {:induction false} PushedOnStack(items: seq<Entry>, root: Option<string>, stack: seq<Row>, es: seq<Entry>,
                                         depth: nat)
    requires OnStack(items, root, stack) && forall e | e in es :: Below(items, root, e, depth)
    ensures OnStack(items, root, PushAll(stack, es, depth))
  {
    if es != [] {
      assert forall e | e in es[1..] :: e in es;
      PushedOnStack(items, root, stack, es[1..], depth);
    }
  }

  // Replacing the top entry by its children, whose trees are t, leaves the rest of
  // the traversal.
  lemma {:induction false} UnfoldTop(items: seq<Entry>, stack: seq<Row>, t: seq<Row>, u: seq<Row>)
    requires stack != [] && stack[|stack| - 1].1 < |items|
    requires var top := stack[|stack| - 1];
             && t == Trees(items, Children(items, Some(top.0.id)), top.1 + 1)
             && u == Unfold(items, stack[..|stack| - 1])
    ensures Unfold(items, stack) == [stack[|stack| - 1]] + (t + u)
  {
    var top := stack[|stack| - 1];
    assert Tree(items, top.0, top.1) == [top] + t;
    Regroup([top], t, u);
  }

  // One round of the loop, as seen on the stack, and n of them.
  function Step(items: seq<Entry>, stack: seq<Row>): seq<Row> {
    if stack == [] then []
    else
      var (e, depth) := stack[|stack| - 1];
      PushAll(stack[..|stack| - 1], Children(items, Some(e.id)), depth + 1)
  }

  function Iter(items: seq<Entry>, stack: seq<Row>, n: nat): seq<Row> {
    if n == 0 then stack else Step(items, Iter(items, stack, n - 1))
  }

  function Start(items: seq<Entry>, root: Option<string>): seq<Row> {
    PushAll([], Children(items, root), 0)
  }

  lemma {:induction false} Round(items: seq<Entry>, root: Option<string>, stack: seq<Row>, next: seq<Row>)
    requires Shallow(items, root) && OnStack(items, root, stack) && stack != [] && next == Step(items, stack)
    ensures OnStack(items, root, next)
    ensures Unfold(items, stack) == [stack[|stack| - 1]] + Unfold(items, next)
  {
    var (top, below) := (stack[|stack| - 1], stack[..|stack| - 1]);
    var children := Children(items, Some(top.0.id));
    ShallowBound(items, root, top.0, top.1);
    ChildrenBelow(items, root, top.0, top.1);
    PushedOnStack(items, root, below, children, top.1 + 1);
    UnfoldPushed(items, below, children, top.1 + 1);
    UnfoldTop(items, stack, Trees(items, children, top.1 + 1), Unfold(items, below));
  }

  lemma IterNext(items: seq<Entry>, start: seq<Row>, stack: seq<Row>, n: nat)
    requires stack == Iter(items, start, n)
    ensures Step(items, stack) == Iter(items, start, n + 1)
  {
  }

  // Takes the top entry off the stack and pushes its children.
  method PopAndPush(items: seq<Entry>, byParent: map<Option<string>, seq<Entry>>, stack: seq<Row>)
    returns (top: Row, next: seq<Row>)
    requires Groups(byParent, items) && stack != []
    ensures top == stack[|stack| - 1] && next == Step(items, stack)
  {
    top := stack[|stack| - 1];
    var children := Lookup(byParent, Some(top.0.id));
    next := PushReversed(stack[..|stack| - 1], children, top.1 + 1);
  }

  // The source's loop: where no entry is too deep, it ends with the pre-order
  // traversal, after as many rounds as that has rows.
  method Ordered(items: seq<Entry>, root: Option<string>) returns (result: seq<Row>)
    requires Shallow(items, OrNull(root))
    ensures result == Traversal(items, OrNull(root))
    ensures Iter(items, Start(items, OrNull(root)), |result|) == []
  {
    var parent := OrNull(root);
    ghost var start, whole := Start(items, parent), Traversal(items, parent);
    var byParent := GroupByParent(items);
    RootsBelow(items, parent);
    var roots := Lookup(byParent, parent);
    PushedOnStack(items, parent, [], roots, 0);
    UnfoldPushed(items, [], roots, 0);
    var stack := PushReversed([], roots, 0);
    result := [];
    while stack != []
      invariant OnStack(items, parent, stack)
      invariant result + Unfold(items, stack) == whole
      invariant stack == Iter(items, start, |result|)
      decreases |whole| - |result|
    {
      ghost var before, full := result, stack;
      var top;
      top, stack := PopAndPush(items, byParent, stack);
      Round(items, parent, full, stack);
      IterNext(items, start, full, |result|);
      result := result + [top];
      Regroup(before, [top], Unfold(items, stack));
    }
  }
}
