// admission.py, lines 74-92, once more: which names and declarations the scan with full
// paths keeps, record by record.
module Declarations {
  import opened Options
  import opened Bytes
  import opened JsonValues
  import opened Libraries
  import opened GoalExports
  import opened FullNameScan

  // Two keys of a dict are the same exactly if Python takes them for equal.
  lemma KeysAreEqual(a: Json, b: Json)
    requires KeyOf(a).Some? && KeyOf(b).Some?
    ensures KeyOf(a) == KeyOf(b) <==> PyEq(a, b)
  {
  }

  // A record that introduces a name extends its parent's path, by the text or the number.
  lemma IntroducedPath(row: Json, index: int, pre: int, text: Option<string>, component: Json, paths: Paths)
    requires Introduces(row, index, pre, text) && Index(pre) in paths && Index(index) !in paths
    requires if text.Some? then component == Str(text.value)
             else Get(Get(row, "num").value, "i") == Some(component) && Get(Get(row, "num").value, "str") == None
    ensures AddPath(row, paths) == Some(paths[Index(index) := paths[Index(pre)] + [component]])
  {
    var part := if "str" in row.fields then Get(row, "str").value else Get(row, "num").value;
    assert Component(part) == component;
  }

  // The declarations of a record that is a list of one, or of a family.
  function Single(row: Json, kind: string): seq<Json> {
    match Get(row, kind)
    case Some(decl) => [decl]
    case None => []
  }

  function Family(row: Json, family: string): seq<Json> {
    match Get(row, "inductive")
    case Some(families) =>
      (match Get(families, family)
       case Some(Arr(items)) => items
       case _ => [])
    case None => []
  }

  // One declaration of that kind for each, in their order, with the path of its name.
  predicate Lists(declars: seq<Declar>, kind: string, decls: seq<Json>, paths: Paths) {
    && |declars| == |decls|
    && forall i | 0 <= i < |decls| ::
         && declars[i].kind == kind
         && Get(decls[i], "name").Some? && KeyOf(Get(decls[i], "name").value).Some?
         && KeyOf(Get(decls[i], "name").value).value in paths
         && declars[i].path == paths[KeyOf(Get(decls[i], "name").value).value]
  }

  lemma SingleListed(row: Json, kind: string, paths: Paths)
    requires row.Obj? && KindPaths(row, kind, paths).Some?
    ensures Lists(Labelled(kind, KindPaths(row, kind, paths).value), kind, Single(row, kind), paths)
  {
  }

  lemma {:induction false} AllListed(decls: seq<Json>, kind: string, paths: Paths)
    requires PathsOfAll(decls, paths).Some?
    ensures Lists(Labelled(kind, PathsOfAll(decls, paths).value), kind, decls, paths)
  {
    if decls != [] {
      AllListed(decls[1..], kind, paths);
      var all, more := PathsOfAll(decls, paths).value, PathsOfAll(decls[1..], paths).value;
      var rest := Labelled(kind, more);
      forall i | 0 < i < |decls| ensures Labelled(kind, all)[i] == rest[i - 1] && decls[i] == decls[1..][i - 1] {}
    }
  }

  lemma FamilyListed(row: Json, family: string, paths: Paths)
    requires row.Obj? && FamilyPaths(row, family, paths).Some?
    ensures Lists(Labelled(family, FamilyPaths(row, family, paths).value), family, Family(row, family), paths)
  {
    if "inductive" in row.fields {
      AllListed(FamilyItems(row.fields["inductive"], family).value, family, paths);
    }
  }

  // What a record declares: no axiom; its definition, theorem and opaque constant, and then
  // the families of its inductive types.
  lemma DeclaresExactly(row: Json, paths: Paths)
    returns (defs: seq<Declar>, thms: seq<Declar>, opaques: seq<Declar>, types: seq<Declar>, ctors: seq<Declar>,
             recs: seq<Declar>)
    requires row.Obj? && RowDeclars(row, paths).Some?
    ensures RowDeclars(row, paths) == Some(defs + thms + opaques + types + ctors + recs)
    ensures Get(row, "axiom") == None && Lists(defs, "def", Single(row, "def"), paths)
    ensures Lists(thms, "thm", Single(row, "thm"), paths) && Lists(opaques, "opaque", Single(row, "opaque"), paths)
    ensures Lists(types, "types", Family(row, "types"), paths)
    ensures Lists(ctors, "ctors", Family(row, "ctors"), paths) && Lists(recs, "recs", Family(row, "recs"), paths)
  {
    SingleListed(row, "def", paths);
    SingleListed(row, "thm", paths);
    SingleListed(row, "opaque", paths);
    FamilyListed(row, "types", paths);
    FamilyListed(row, "ctors", paths);
    FamilyListed(row, "recs", paths);
    defs := Labelled("def", KindPaths(row, "def", paths).value);
    thms := Labelled("thm", KindPaths(row, "thm", paths).value);
    opaques := Labelled("opaque", KindPaths(row, "opaque", paths).value);
    types := Labelled("types", FamilyPaths(row, "types", paths).value);
    ctors := Labelled("ctors", FamilyPaths(row, "ctors", paths).value);
    recs := Labelled("recs", FamilyPaths(row, "recs", paths).value);
  }

  lemma {:induction false} AdmitConcat(lib: Library, x: seq<bytes>, y: seq<bytes>, a: Admission)
    ensures AdmitLines(lib, x + y, a) ==
            var first := AdmitLines(lib, x, a);
            if first.Some? then AdmitLines(lib, y, first.value) else None
  {
    if x == [] {
      assert x + y == y;
    } else {
      assert (x + y)[1..] == x[1..] + y;
      var a' := AdmitLine(lib, x[0], a);
      if a'.Some? { AdmitConcat(lib, x[1..], y, a'.value); }
    }
  }

  // The scan lists what its records declare, one behind the other, with the names known
  // by then.
  lemma AdmitAppends(lib: Library, front: seq<bytes>, line: bytes, a: Admission)
    requires AdmitLines(lib, front + [line], a).Some?
    ensures AdmitLines(lib, front, a).Some? && lib.loads(line).Some?
    ensures var b, c, row := AdmitLines(lib, front, a).value, AdmitLines(lib, front + [line], a).value,
                             lib.loads(line).value;
            && c.offset == b.offset + |line|
            && if row.Obj?
               then AddPath(row, b.paths) == Some(c.paths) && RowDeclars(row, c.paths).Some?
                    && c.declars == b.declars + RowDeclars(row, c.paths).value
               else c.paths == b.paths && c.declars == b.declars
  {
    AdmitConcat(lib, front, [line], a);
    assert [line][1..] == [];
  }

  ghost predicate Within(key: string, s: string) {
    exists i: nat, j: nat | i <= j <= |s| :: s[i..j] == key
  }

  // A record that is no object is passed by exactly if it is a list or a text without any
  // of the keys.
  lemma PassesExactly(row: Json, length: nat, a: Admission)
    requires !row.Obj?
    ensures AdmitRow(row, length, a).Some? <==>
            || (row.Arr? && forall key | key in {"in", "axiom", "def", "thm", "opaque", "inductive"} ::
                  Str(key) !in row.items)
            || (row.Str? && forall key | key in {"in", "axiom", "def", "thm", "opaque", "inductive"} ::
                  !Within(key, row.s))
  {
    if row.Str? {
      forall key ensures Substring(key, row.s) <==> Within(key, row.s) {
        if Substring(key, row.s) {
          var i: nat :| i <= |row.s| && key <= row.s[i..];
          assert row.s[i..i + |key|] == key;
        }
        if Within(key, row.s) {
          var i: nat, j: nat :| i <= j <= |row.s| && row.s[i..j] == key;
          assert row.s[i..][..j - i] == key;
        }
      }
    }
  }
}
