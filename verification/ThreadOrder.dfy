// What the flattened thread of Threads contains, and in which order.
module ThreadOrder {
  import opened Options
  import opened Threads

  // ---- Only entries below the root, with their depths ----

  // The rows of some trees: the first entry, its children's trees, the other trees.
  lemma SplitTrees(items: seq<Entry>, es: seq<Entry>, depth: nat)
    requires es != [] && depth < |items|
    ensures Trees(items, es, depth)
         == [(es[0], depth)] + Trees(items, Children(items, Some(es[0].id)), depth + 1) + Trees(items, es[1..], depth)
  {
  }

  lemma {:induction false} TreesBelow(items: seq<Entry>, root: Option<string>, es: seq<Entry>, depth: nat)
    requires Forested(items, root) && forall e | e in es :: Below(items, root, e, depth)
    ensures forall row | row in Trees(items, es, depth) :: Below(items, root, row.0, row.1)
    decreases Left(items, depth), |es|
  {
    if es != [] {
      assert es[0] in es;
      DepthBound(items, root, es[0], depth);
      ChildrenBelow(items, root, es[0], depth);
      TreesBelow(items, root, Children(items, Some(es[0].id)), depth + 1);
      TreesBelow(items, root, es[1..], depth);
      SplitTrees(items, es, depth);
    }
  }

  // ---- Every subtree is contiguous ----

  ghost predicate BlockAt(s: seq<Row>, i: nat, block: seq<Row>) {
    i + |block| <= |s| && s[i..i + |block|] == block
  }

  lemma BlockInside(s: seq<Row>, a: seq<Row>, t: seq<Row>, b: seq<Row>, i: nat, block: seq<Row>)
    requires s == a + t + b && BlockAt(t, i, block)
    ensures BlockAt(s, |a| + i, block)
  {
    assert s[|a|..|a| + |t|] == t;
    assert s[|a| + i..|a| + i + |block|] == t[i..i + |block|];
  }

  lemma FrontBlock(items: seq<Entry>, es: seq<Entry>, depth: nat)
    requires es != [] && depth < |items|
    ensures BlockAt(Trees(items, es, depth), 0, Tree(items, es[0], depth))
    ensures Trees(items, es, depth)[0] == (es[0], depth)
  {
  }

  // The row at i is directly followed by its whole subtree.
  ghost predicate SubtreeAt(items: seq<Entry>, s: seq<Row>, i: nat) {
    i < |s| && BlockAt(s, i, Tree(items, s[i].0, s[i].1))
  }

  lemma SubtreeInside(items: seq<Entry>, s: seq<Row>, a: seq<Row>, t: seq<Row>, b: seq<Row>, i: nat)
    requires s == a + t + b && SubtreeAt(items, t, i)
    ensures SubtreeAt(items, s, |a| + i)
  {
    BlockInside(s, a, t, b, i, Tree(items, t[i].0, t[i].1));
    assert s[|a| + i] == t[i];
  }

  lemma KidSubtree(items: seq<Entry>, s: seq<Row>, top: Row, kids: seq<Row>, rest: seq<Row>, i: nat)
    requires s == [top] + kids + rest && SubtreeAt(items, kids, i)
    ensures SubtreeAt(items, s, 1 + i)
  {
    SubtreeInside(items, s, [top], kids, rest, i);
  }

  lemma LaterSubtree(items: seq<Entry>, s: seq<Row>, top: Row, kids: seq<Row>, rest: seq<Row>, i: nat)
    requires s == [top] + kids + rest && SubtreeAt(items, rest, i)
    ensures SubtreeAt(items, s, 1 + |kids| + i)
  {
    assert s == ([top] + kids) + rest + [];
    SubtreeInside(items, s, [top] + kids, rest, [], i);
  }

  lemma {:induction false} NoDeepTrees(items: seq<Entry>, es: seq<Entry>, depth: nat)
    ensures es == [] || depth >= |items| ==> Trees(items, es, depth) == []
    decreases |es|
  {
    if es != [] && depth >= |items| { NoDeepTrees(items, es[1..], depth); }
  }

  lemma {:induction false} SubtreeContiguous(items: seq<Entry>, es: seq<Entry>, depth: nat, i: nat)
    requires i < |Trees(items, es, depth)|
    ensures SubtreeAt(items, Trees(items, es, depth), i)
    decreases Left(items, depth), |es|
  {
    NoDeepTrees(items, es, depth);
    var s, children := Trees(items, es, depth), Children(items, Some(es[0].id));
    var kids, rest := Trees(items, children, depth + 1), Trees(items, es[1..], depth);
    SplitTrees(items, es, depth);
    if i == 0 {
      FrontBlock(items, es, depth);
    } else if i <= |kids| {
      SubtreeContiguous(items, children, depth + 1, i - 1);
      KidSubtree(items, s, (es[0], depth), kids, rest, i - 1);
    } else {
      SubtreeContiguous(items, es[1..], depth, i - 1 - |kids|);
      LaterSubtree(items, s, (es[0], depth), kids, rest, i - 1 - |kids|);
    }
  }

  // ---- Every entry below the root ----

  lemma {:induction false} EachHasATree(items: seq<Entry>, es: seq<Entry>, depth: nat, i: nat)
    requires i < |es| && depth < |items|
    ensures (es[i], depth) in Trees(items, es, depth)
    decreases |es|
  {
    SplitTrees(items, es, depth);
    if i > 0 { EachHasATree(items, es[1..], depth, i - 1); }
  }

  lemma RootListed(items: seq<Entry>, root: Option<string>, e: Entry)
    requires e in items && Parent(e) == root
    ensures (e, 0) in Traversal(items, root)
  {
    ChildrenAre(items, root);
    var roots := Children(items, root);
    var i :| 0 <= i < |roots| && roots[i] == e;
    EachHasATree(items, roots, 0, i);
  }

  lemma InBlock(s: seq<Row>, n: nat, block: seq<Row>, row: Row)
    requires BlockAt(s, n, block) && row in block
    ensures row in s
  {
    var k :| 0 <= k < |block| && block[k] == row;
    assert s[n..n + |block|][k] == s[n + k];
  }

  lemma KidListed(items: seq<Entry>, root: Option<string>, p: Entry, depth: nat, e: Entry)
    requires (p, depth) in Traversal(items, root) && depth + 1 < |items|
    requires e in items && Parent(e) == Some(p.id)
    ensures (e, depth + 1) in Traversal(items, root)
  {
    var rows, kids := Traversal(items, root), Children(items, Some(p.id));
    var n :| 0 <= n < |rows| && rows[n] == (p, depth);
    SubtreeContiguous(items, Children(items, root), 0, n);
    ChildrenAre(items, Some(p.id));
    var i :| 0 <= i < |kids| && kids[i] == e;
    EachHasATree(items, kids, depth + 1, i);
    InBlock(rows, n, Tree(items, p, depth), (e, depth + 1));
  }

  lemma {:induction false} AllBelowListed(items: seq<Entry>, root: Option<string>, e: Entry, depth: nat)
    requires Forested(items, root) && Below(items, root, e, depth)
    ensures (e, depth) in Traversal(items, root)
    decreases depth
  {
    DepthBound(items, root, e, depth);
    if depth == 0 {
      RootListed(items, root, e);
    } else {
      var p :| p in items && Parent(e) == Some(p.id) && Below(items, root, p, depth - 1);
      AllBelowListed(items, root, p, depth - 1);
      KidListed(items, root, p, depth - 1, e);
    }
  }

  // Without a parent, or with an empty one, an entry is a root of the whole forest; an
  // empty id names no root and no parent.
  lemma RootsExactly(items: seq<Entry>, root: Option<string>, e: Entry)
    ensures Below(items, OrNull(root), e, 0) <==>
            && e in items
            && if root == None || root == Some("") then e.parentId == None || e.parentId == Some("")
               else e.parentId == root
  {
  }

  // An entry is listed, with its depth, exactly if it lies that deep below the root.
  lemma ListedIffBelow(items: seq<Entry>, root: Option<string>, e: Entry, depth: nat)
    requires Forested(items, root)
    ensures (e, depth) in Traversal(items, root) <==> Below(items, root, e, depth)
  {
    if Below(items, root, e, depth) { AllBelowListed(items, root, e, depth); }
    RootsBelow(items, root);
    TreesBelow(items, root, Children(items, root), 0);
  }

  // ---- Once ----

  // Following parents from x reaches top after n steps.
  ghost predicate Under(items: seq<Entry>, top: Entry, x: Entry, n: nat)
    decreases n
  {
    if n == 0 then x == top
    else exists p | p in items :: Parent(x) == Some(p.id) && Under(items, top, p, n - 1)
  }

  lemma {:induction false} UnderUnique(items: seq<Entry>, a: Entry, b: Entry, x: Entry, n: nat)
    requires UniqueIds(items) && Under(items, a, x, n) && Under(items, b, x, n)
    ensures a == b
    decreases n
  {
    if n > 0 {
      var p :| p in items && Parent(x) == Some(p.id) && Under(items, a, p, n - 1);
      var q :| q in items && Parent(x) == Some(q.id) && Under(items, b, q, n - 1);
      SameId(items, p, q);
      UnderUnique(items, a, b, p, n - 1);
    }
  }

  lemma {:induction false} UnderChild(items: seq<Entry>, top: Entry, c: Entry, x: Entry, n: nat)
    requires top in items && Parent(c) == Some(top.id) && Under(items, c, x, n)
    ensures Under(items, top, x, n + 1)
    decreases n
  {
    if n == 0 {
      assert Under(items, top, top, 0);
    } else {
      var p :| p in items && Parent(x) == Some(p.id) && Under(items, c, p, n - 1);
      UnderChild(items, top, c, p, n - 1);
    }
  }

  // Every row of some trees is under one of their entries.
  lemma {:induction false} TreesUnder(items: seq<Entry>, es: seq<Entry>, depth: nat, row: Row)
    requires (forall e | e in es :: e in items) && row in Trees(items, es, depth)
    ensures row.1 >= depth && exists e | e in es :: Under(items, e, row.0, row.1 - depth)
    decreases Left(items, depth), |es|
  {
    if depth >= |items| {
      NoDeepTrees(items, es, depth);
    } else {
      var kids := Children(items, Some(es[0].id));
      SplitTrees(items, es, depth);
      ChildrenAre(items, Some(es[0].id));
      if row == (es[0], depth) {
        assert es[0] in es && Under(items, es[0], row.0, 0);
      } else if row in Trees(items, kids, depth + 1) {
        TreesUnder(items, kids, depth + 1, row);
        var c :| c in kids && Under(items, c, row.0, row.1 - (depth + 1));
        UnderChild(items, es[0], c, row.0, row.1 - (depth + 1));
        assert es[0] in es;
      } else {
        TreesUnder(items, es[1..], depth, row);
        var e :| e in es[1..] && Under(items, e, row.0, row.1 - depth);
        assert e in es;
      }
    }
  }

  ghost predicate Once(rows: seq<Row>) {
    forall i, j | 0 <= i < j < |rows| :: rows[i].0 != rows[j].0
  }

  ghost predicate DistinctEntries(es: seq<Entry>) {
    forall i, j | 0 <= i < j < |es| :: es[i] != es[j]
  }

  lemma OnceConcat(a: seq<Row>, b: seq<Row>)
    requires Once(a) && Once(b)
    requires forall x, y | x in a && y in b :: x.0 != y.0
    ensures Once(a + b)
  {
    forall i, j | 0 <= i < j < |a + b| ensures (a + b)[i].0 != (a + b)[j].0 {
      if i < |a| && j >= |a| {
        assert (a + b)[i] in a && (a + b)[j] in b;
      }
    }
  }

  lemma CommonAncestor(items: seq<Entry>, root: Option<string>, x: Row, y: Row, a: Entry, b: Entry, depth: nat)
    requires Forested(items, root) && Below(items, root, x.0, x.1) && Below(items, root, y.0, y.1)
    requires x.0 == y.0 && x.1 >= depth && y.1 >= depth
    requires Under(items, a, x.0, x.1 - depth) && Under(items, b, y.0, y.1 - depth)
    ensures a == b
  {
    DepthUnique(items, root, x.0, x.1, y.1);
    UnderUnique(items, a, b, x.0, x.1 - depth);
  }

  lemma RowsUnder(items: seq<Entry>, root: Option<string>, es: seq<Entry>, depth: nat, row: Row)
    requires Forested(items, root) && forall e | e in es :: Below(items, root, e, depth)
    requires row in Trees(items, es, depth)
    ensures Below(items, root, row.0, row.1)
    ensures row.1 >= depth && exists e | e in es :: Under(items, e, row.0, row.1 - depth)
  {
    TreesBelow(items, root, es, depth);
    TreesUnder(items, es, depth, row);
  }

  // Trees of different entries of one depth have no row in common.
  lemma ApartTrees(items: seq<Entry>, root: Option<string>, some: seq<Entry>, others: seq<Entry>, depth: nat, x: Row,
                   y: Row)
    requires Forested(items, root) && forall a, b | a in some && b in others :: a != b
    requires forall e | e in some + others :: Below(items, root, e, depth)
    requires x in Trees(items, some, depth) && y in Trees(items, others, depth)
    ensures x.0 != y.0
  {
    RowsUnder(items, root, some, depth, x);
    RowsUnder(items, root, others, depth, y);
    if x.0 == y.0 {
      var a :| a in some && Under(items, a, x.0, x.1 - depth);
      var b :| b in others && Under(items, b, y.0, y.1 - depth);
      CommonAncestor(items, root, x, y, a, b, depth);
    }
  }

  lemma {:induction false} ChildrenDistinct(items: seq<Entry>, key: Option<string>)
    requires UniqueIds(items)
    ensures DistinctEntries(Children(items, key))
  {
    if items != [] {
      var rest := items[1..];
      ChildrenDistinct(rest, key);
      ChildrenAre(rest, key);
      assert items[0] !in rest;
    }
  }

  lemma SingleTree(items: seq<Entry>, e: Entry, depth: nat)
    ensures Trees(items, [e], depth) == Tree(items, e, depth)
  {
    assert Trees(items, [e][1..], depth) == [];
  }

  lemma {:induction false} TreesOnce(items: seq<Entry>, root: Option<string>, es: seq<Entry>, depth: nat)
    requires Forested(items, root) && DistinctEntries(es) && forall e | e in es :: Below(items, root, e, depth)
    ensures Once(Trees(items, es, depth))
    decreases Left(items, depth), |es|
  {
    if es != [] {
      var first, others := es[0], es[1..];
      assert first in es;
      DepthBound(items, root, first, depth);
      TreeOnce(items, root, first, depth);
      assert first !in others;
      TreesOnce(items, root, others, depth);
      SingleTree(items, first, depth);
      forall x, y | x in Tree(items, first, depth) && y in Trees(items, others, depth) ensures x.0 != y.0 {
        ApartTrees(items, root, [first], others, depth, x, y);
      }
      OnceConcat(Tree(items, first, depth), Trees(items, others, depth));
    }
  }

  lemma {:induction false} TreeOnce(items: seq<Entry>, root: Option<string>, e: Entry, depth: nat)
    requires Forested(items, root) && Below(items, root, e, depth)
    ensures Once(Tree(items, e, depth))
    decreases Left(items, depth), 0
  {
    DepthBound(items, root, e, depth);
    var kids := Children(items, Some(e.id));
    ChildrenBelow(items, root, e, depth);
    ChildrenDistinct(items, Some(e.id));
    TreesOnce(items, root, kids, depth + 1);
    TreesBelow(items, root, kids, depth + 1);
    forall x, y | x in [(e, depth)] && y in Trees(items, kids, depth + 1) ensures x.0 != y.0 {
      TreesUnder(items, kids, depth + 1, y);
      if x.0 == y.0 { DepthUnique(items, root, e, depth, y.1); }
    }
    OnceConcat([(e, depth)], Trees(items, kids, depth + 1));
  }

  lemma ListedOnce(items: seq<Entry>, root: Option<string>)
    requires Forested(items, root)
    ensures Once(Traversal(items, root))
  {
    RootsBelow(items, root);
    ChildrenDistinct(items, root);
    TreesOnce(items, root, Children(items, root), 0);
  }

  // ---- In order ----

  // x is listed before y.
  ghost predicate Before(rows: seq<Row>, x: Entry, y: Entry) {
    exists i, j | 0 <= i < j < |rows| :: rows[i].0 == x && rows[j].0 == y
  }

  lemma BeforeInside(a: seq<Row>, t: seq<Row>, b: seq<Row>, x: Entry, y: Entry)
    requires Before(t, x, y)
    ensures Before(a + t + b, x, y)
  {
    var i, j :| 0 <= i < j < |t| && t[i].0 == x && t[j].0 == y;
    var s := a + t + b;
    assert s[|a| + i] == t[i] && s[|a| + j] == t[j];
  }

  lemma {:induction false} TreesInOrder(items: seq<Entry>, es: seq<Entry>, depth: nat, i: nat, j: nat)
    requires i < j < |es| && depth < |items|
    ensures Before(Trees(items, es, depth), es[i], es[j])
    decreases |es|
  {
    var first, rest := Tree(items, es[0], depth), Trees(items, es[1..], depth);
    if i > 0 {
      TreesInOrder(items, es[1..], depth, i - 1, j - 1);
      BeforeInside(first, rest, [], es[i], es[j]);
      assert first + rest + [] == Trees(items, es, depth);
    } else {
      EachHasATree(items, es[1..], depth, j - 1);
      var k :| 0 <= k < |rest| && rest[k] == (es[j], depth);
      var rows := Trees(items, es, depth);
      assert rows == first + rest && first != [] && first[0] == (es[0], depth);
      assert rows[0].0 == es[0] && rows[|first| + k].0 == es[j];
    }
  }

  // Siblings keep the order they have in the input.
  lemma {:induction false} ChildrenInOrder(items: seq<Entry>, key: Option<string>, a: nat, b: nat)
    returns (i: nat, j: nat)
    requires a < b < |items| && Parent(items[a]) == key && Parent(items[b]) == key
    ensures i < j < |Children(items, key)|
    ensures Children(items, key)[i] == items[a] && Children(items, key)[j] == items[b]
  {
    var rest := Children(items[1..], key);
    if a > 0 {
      i, j := ChildrenInOrder(items[1..], key, a - 1, b - 1);
      var own := Own(items[0], key);
      i, j := i + |own|, j + |own|;
    } else {
      ChildrenAre(items[1..], key);
      assert items[b] == items[1..][b - 1] && items[b] in items[1..];
      var k :| 0 <= k < |rest| && rest[k] == items[b];
      i, j := 0, k + 1;
    }
  }

  lemma BeforeInBlock(s: seq<Row>, n: nat, block: seq<Row>, x: Entry, y: Entry)
    requires BlockAt(s, n, block) && Before(block, x, y)
    ensures Before(s, x, y)
  {
    var i, j :| 0 <= i < j < |block| && block[i].0 == x && block[j].0 == y;
    assert s[n..n + |block|][i] == s[n + i] && s[n..n + |block|][j] == s[n + j];
  }

  lemma KidsInTree(items: seq<Entry>, p: Entry, depth: nat, x: Entry, y: Entry)
    requires depth < |items| && Before(Trees(items, Children(items, Some(p.id)), depth + 1), x, y)
    ensures Before(Tree(items, p, depth), x, y)
  {
    var kids := Trees(items, Children(items, Some(p.id)), depth + 1);
    BeforeInside([(p, depth)], kids, [], x, y);
    assert [(p, depth)] + kids + [] == Tree(items, p, depth);
  }

  lemma KidIsShallow(items: seq<Entry>, root: Option<string>, p: Entry, depth: nat, kid: Entry)
    requires Forested(items, root) && Below(items, root, p, depth) && kid in Children(items, Some(p.id))
    ensures depth + 1 < |items|
  {
    ChildrenBelow(items, root, p, depth);
    DepthBound(items, root, kid, depth + 1);
  }

  lemma KidsInOwnTree(items: seq<Entry>, p: Entry, depth: nat, kids: seq<Entry>, i: nat, j: nat)
    requires kids == Children(items, Some(p.id)) && depth + 1 < |items| && i < j < |kids|
    ensures Before(Tree(items, p, depth), kids[i], kids[j])
  {
    TreesInOrder(items, kids, depth + 1, i, j);
    KidsInTree(items, p, depth, kids[i], kids[j]);
  }

  // The children of a listed entry are listed in their own order.
  lemma KidsInOrder(items: seq<Entry>, root: Option<string>, p: Entry, depth: nat, i: nat, j: nat)
    requires Forested(items, root) && Below(items, root, p, depth) && i < j < |Children(items, Some(p.id))|
    ensures var kids := Children(items, Some(p.id)); Before(Traversal(items, root), kids[i], kids[j])
  {
    var kids, rows, block := Children(items, Some(p.id)), Traversal(items, root), Tree(items, p, depth);
    AllBelowListed(items, root, p, depth);
    var n :| 0 <= n < |rows| && rows[n] == (p, depth);
    SubtreeContiguous(items, Children(items, root), 0, n);
    assert kids[i] in kids;
    KidIsShallow(items, root, p, depth, kids[i]);
    KidsInOwnTree(items, p, depth, kids, i, j);
    BeforeInBlock(rows, n, block, kids[i], kids[j]);
  }

  lemma SiblingsInOrder(items: seq<Entry>, root: Option<string>, a: nat, b: nat, depth: nat)
    requires Forested(items, root) && a < b < |items|
    requires Below(items, root, items[a], depth) && Parent(items[a]) == Parent(items[b])
    ensures Before(Traversal(items, root), items[a], items[b])
  {
    var i, j := ChildrenInOrder(items, Parent(items[a]), a, b);
    if depth == 0 {
      TreesInOrder(items, Children(items, root), 0, i, j);
    } else {
      var p :| p in items && Parent(items[a]) == Some(p.id) && Below(items, root, p, depth - 1);
      KidsInOrder(items, root, p, depth - 1, i, j);
    }
  }
}
