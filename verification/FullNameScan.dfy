// admission.py, lines 68-92: the same search with the full path of every name,
// and its relation to the four-valued scan of GoalScan.
module FullNameScan {
  import opened Options
  import opened Bytes
  import opened JsonValues
  import opened Libraries
  import opened Lines
  import opened GoalScan

  // A name's components, outermost first.
  type Path = seq<Json>

  // Python's dict keys: True, 1 and 1.0 are the same key, and lists and dicts are none.
  datatype Key = Index(n: int) | Fraction(r: real) | Text(s: string) | Nil

  type Paths = map<Key, Path>

  datatype Declar = Declar(kind: string, path: Path)

  datatype Admission = Admission(paths: Paths, offset: nat, boundary: Option<nat>, declars: seq<Declar>)

  const GOAL_PATH: Path := [Str("Oncm"), Str("goal")]
  const BEGIN := Admission(map[Index(0) := []], 0, None, [])

  // ---- The source's scan ----

  function KeyOf(j: Json): Option<Key> {
    match j
    case Bool(b) => Some(Index(if b then 1 else 0))
    case Int(n) => Some(Index(n))
    case Float(r) => Some(if r == r.Floor as real then Index(r.Floor) else Fraction(r))
    case Str(s) => Some(Text(s))
    case Null => Some(Nil)
    case _ => None
  }

  // row.get('str', row.get('num')), then the last component that
  // part.get('str', part.get('i')) gives to the new name.
  function Component(part: Json): Json {
    match (Get(part, "str"), Get(part, "i"))
    case (Some(text), _) => text
    case (None, Some(i)) => i
    case _ => Null
  }

  function AddPath(row: Json, paths: Paths): Option<Paths>
    requires row.Obj?
  {
    if "in" !in row.fields then Some(paths)
    else
      var index :- KeyOf(row.fields["in"]);
      if index in paths then None
      else
        var part :- if "str" in row.fields then Get(row, "str") else Get(row, "num");
        var pre :- Get(part, "pre");
        var parent :- KeyOf(pre);
        if parent !in paths then None
        else Some(paths[index := paths[parent] + [Component(part)]])
  }

  function PathOf(decl: Json, paths: Paths): Option<Path> {
    var name :- Get(decl, "name");
    var key :- KeyOf(name);
    if key in paths then Some(paths[key]) else None
  }

  // The paths of one kind of declaration in a record: none or one.
  function KindPaths(row: Json, kind: string, paths: Paths): Option<seq<Path>>
    requires row.Obj?
  {
    if kind !in row.fields then Some([])
    else
      var path :- PathOf(row.fields[kind], paths);
      Some([path])
  }

  function PathsOfAll(decls: seq<Json>, paths: Paths): Option<seq<Path>> {
    if decls == [] then Some([])
    else
      var path :- PathOf(decls[0], paths);
      var more :- PathsOfAll(decls[1..], paths);
      Some([path] + more)
  }

  // What iterating over a family yields; only lists hold records, and an empty
  // string or dict yields nothing.
  function FamilyItems(families: Json, family: string): Option<seq<Json>> {
    if !families.Obj? then None
    else
      match Get(families, family)
      case None => Some([])
      case Some(Arr(items)) => Some(items)
      case Some(Str(s)) => if s == "" then Some([]) else None
      case Some(Obj(m)) => if m == map[] then Some([]) else None
      case _ => None
  }

  function FamilyPaths(row: Json, family: string, paths: Paths): Option<seq<Path>>
    requires row.Obj?
  {
    if "inductive" !in row.fields then Some([])
    else
      var items :- FamilyItems(row.fields["inductive"], family);
      PathsOfAll(items, paths)
  }

  function Labelled(kind: string, paths: seq<Path>): (declars: seq<Declar>)
    ensures |declars| == |paths|
  {
    seq(|paths|, i requires 0 <= i < |paths| => Declar(kind, paths[i]))
  }

  // The declarations of a record in the source's order; an axiom is refused.
  function RowDeclars(row: Json, paths: Paths): Option<seq<Declar>>
    requires row.Obj?
  {
    var axioms :- KindPaths(row, "axiom", paths);
    if axioms != [] then None
    else
      var defs :- KindPaths(row, "def", paths);
      var thms :- KindPaths(row, "thm", paths);
      var opaques :- KindPaths(row, "opaque", paths);
      var types :- FamilyPaths(row, "types", paths);
      var ctors :- FamilyPaths(row, "ctors", paths);
      var recs :- FamilyPaths(row, "recs", paths);
      Some(Labelled("def", defs) + Labelled("thm", thms) + Labelled("opaque", opaques)
           + Labelled("types", types) + Labelled("ctors", ctors) + Labelled("recs", recs))
  }

  const ROW_KEYS := {"in", "axiom", "def", "thm", "opaque", "inductive"}

  predicate Substring(key: string, s: string) {
    exists i | 0 <= i <= |s| :: key <= s[i..]
  }

  // `in` also works on lists and strings, and raises on numbers, booleans and null.
  // A list or a string that holds none of the keys passes by without effect; with
  // one of them, the subscript behind the test raises.
  predicate PassesBy(row: Json) {
    match row
    case Arr(items) => forall key | key in ROW_KEYS :: Str(key) !in items
    case Str(s) => forall key | key in ROW_KEYS :: !Substring(key, s)
    case _ => false
  }

  function AdmitRow(row: Json, length: nat, a: Admission): Option<Admission> {
    var offset := a.offset + length;
    if !row.Obj? then
      if PassesBy(row) then Some(a.(offset := offset)) else None
    else
      var paths :- AddPath(row, a.paths);
      var declars :- RowDeclars(row, paths);
      if KindPaths(row, "def", paths) == Some([GOAL_PATH]) then
        if a.boundary == None
        then Some(Admission(paths, offset, Some(offset), a.declars + declars))
        else None
      else Some(Admission(paths, offset, a.boundary, a.declars + declars))
  }

  function AdmitLine(lib: Library, line: bytes, a: Admission): Option<Admission> {
    if !EndsLine(line) then None
    else
      var row :- lib.loads(line);
      AdmitRow(row, |line|, a)
  }

  function AdmitLines(lib: Library, lines: seq<bytes>, a: Admission): Option<Admission> {
    if lines == [] then Some(a)
    else
      var a' :- AdmitLine(lib, lines[0], a);
      AdmitLines(lib, lines[1..], a')
  }

  // The boundary and the declarations, or None where an assertion or a lookup fails.
  function Admit(lib: Library, exported: bytes): Option<(nat, seq<Declar>)> {
    var a :- AdmitLines(lib, SplitLines(exported), BEGIN);
    var boundary :- a.boundary;
    Some((boundary, a.declars))
  }

  method AdmissionScan(lib: Library, exported: bytes) returns (r: Option<(nat, seq<Declar>)>)
    ensures r == Admit(lib, exported)
  {
    var paths: Paths, offset: nat := map[Index(0) := []], 0;
    var boundary: Option<nat>, declars: seq<Declar> := None, [];
    var lines := SplitLines(exported);
    ghost var whole := AdmitLines(lib, lines, BEGIN);
    for k := 0 to |lines|
      invariant whole == AdmitLines(lib, lines[k..], Admission(paths, offset, boundary, declars))
    {
      var line := lines[k];
      assert lines[k..][1..] == lines[k + 1..];
      if !EndsLine(line) { return None; }
      var row := lib.loads(line);
      if row == None { return None; }
      offset := offset + |line|;
      if !row.value.Obj? {
        if !PassesBy(row.value) { return None; }
        continue;
      }
      var added := AddPath(row.value, paths);
      if added == None { return None; }
      paths := added.value;
      var found := RowDeclars(row.value, paths);
      if found == None { return None; }
      declars := declars + found.value;
      if KindPaths(row.value, "def", paths) == Some([GOAL_PATH]) {
        if boundary.Some? { return None; }
        boundary := Some(offset);
      }
    }
    if boundary == None { return None; }
    return Some((boundary.value, declars));
  }

  // ---- The four states as views of a path ----

  function StateOf(path: Path): NameState {
    if path == [] then Root
    else if path == [Str("Oncm")] then Namespace
    else if path == GOAL_PATH then Goal
    else Other
  }

  // The same names in both scans: the indices that goal_boundary accepts are ints.
  ghost predicate SameNames(names: map<int, NameState>, paths: Paths) {
    && (forall i | i in names :: Index(i) in paths)
    && (forall key | key in paths :: key.Index? && key.n in names)
  }

  ghost predicate Refines(names: map<int, NameState>, paths: Paths) {
    SameNames(names, paths) && forall i | i in names :: names[i] == StateOf(paths[Index(i)])
  }

  // A numeric record that carries a text component as well, which the full scan
  // prefers: it reads as Oncm under the root or as goal under Oncm, where the
  // four-valued scan sees an ordinary numeric name.
  predicate Misread(row: Json, names: map<int, NameState>) {
    && row.Obj? && "in" in row.fields && "str" !in row.fields
    && match Get(row, "num")
       case Some(part) =>
         (match (Get(part, "pre"), Get(part, "str"))
          case (Some(Int(pre)), Some(Str(text))) => pre in names && ChildState(names[pre], text) != Other
          case _ => false)
       case None => false
  }

  // No record of a successful scan is misread.
  ghost predicate NeverMisread(lib: Library, lines: seq<bytes>, s: Scan) {
    lines == [] ||
    var row := StrictJson(lib, lines[0], MAX_EXPORT);
    var s' := ScanLine(lib, lines[0], s);
    (row.Some? ==> !Misread(row.value, s.names)) && (s'.Some? ==> NeverMisread(lib, lines[1..], s'.value))
  }

  // The names alone, by full path.
  function PathLines(lib: Library, lines: seq<bytes>, paths: Paths): Option<Paths> {
    if lines == [] then Some(paths)
    else
      var row :- lib.loads(lines[0]);
      if !row.Obj? then None
      else
        var paths' :- AddPath(row, paths);
        PathLines(lib, lines[1..], paths')
  }

  // What holds with misread records too: a state other than Other is right.
  ghost predicate Covers(names: map<int, NameState>, paths: Paths) {
    SameNames(names, paths) && forall i | i in names && names[i] != Other :: names[i] == StateOf(paths[Index(i)])
  }

  lemma StateOfChild(path: Path, c: Json)
    ensures StateOf(path + [c]) == if c.Str? then ChildState(StateOf(path), c.s) else Other
  {
    var longer := path + [c];
    assert longer[..|path|] == path && longer[|path|] == c;
    assert longer == [Str("Oncm")] ==> path == [];
    assert longer == GOAL_PATH ==> path == GOAL_PATH[..1] && GOAL_PATH[..1] == [Str("Oncm")];
    if path == [Str("Oncm")] && c == Str("goal") {
      assert longer == GOAL_PATH;
    }
  }

  // Every record the four-valued scan accepts names its new entry in both scans,
  // and the two agree on it exactly when the record is not misread.
  lemma RowAgrees(row: Json, s: Scan, paths: Paths)
    requires row.Obj? && AddName(row, s.names).Some? && SameNames(s.names, paths)
    ensures AddPath(row, paths).Some?
    ensures var names', paths' := AddName(row, s.names).value, AddPath(row, paths).value;
            && SameNames(names', paths')
            && (forall i | i in s.names :: names'[i] == s.names[i] && paths'[Index(i)] == paths[Index(i)])
            && (Refines(s.names, paths) ==> (Refines(names', paths') <==> !Misread(row, s.names)))
            && (Covers(s.names, paths) ==> Covers(names', paths'))
  {
    if "in" in row.fields {
      var index := row.fields["in"].n;
      var part := NamePart(row).value;
      var pre := Get(part, "pre").value.n;
      var component := Component(part);
      var path := paths[Index(pre)];
      StateOfChild(path, component);
      var names', paths' := AddName(row, s.names).value, AddPath(row, paths).value;
      assert names' == s.names[index := NewState(row, part, s.names[pre]).value];
      assert paths' == paths[Index(index) := path + [component]];
      assert Refines(s.names, paths) ==>
          (names'[index] == StateOf(paths'[Index(index)]) <==> !Misread(row, s.names));
      assert Refines(s.names, paths) && names'[index] == StateOf(paths'[Index(index)]) ==>
          forall i | i in names' :: i == index || i in s.names;
    }
  }

  lemma {:induction false} PathsFollow(lib: Library, lines: seq<bytes>, s: Scan, paths: Paths)
    requires ScanLines(lib, lines, s).Some? && SameNames(s.names, paths)
    ensures PathLines(lib, lines, paths).Some?
    ensures var names', paths' := ScanLines(lib, lines, s).value.names, PathLines(lib, lines, paths).value;
            && SameNames(names', paths')
            && (forall i | i in s.names ::
                  i in names' && names'[i] == s.names[i] && paths'[Index(i)] == paths[Index(i)])
  {
    if lines != [] {
      var row := StrictJson(lib, lines[0], MAX_EXPORT).value;
      RowAgrees(row, s, paths);
      PathsFollow(lib, lines[1..], ScanLine(lib, lines[0], s).value, AddPath(row, paths).value);
    }
  }

  // After any records, every name's state is the view of its full path if and
  // only if none of the records was misread.
  lemma {:induction false} StatesRefinePaths(lib: Library, lines: seq<bytes>, s: Scan, paths: Paths)
    requires ScanLines(lib, lines, s).Some? && Refines(s.names, paths)
    ensures PathLines(lib, lines, paths).Some?
    ensures Refines(ScanLines(lib, lines, s).value.names, PathLines(lib, lines, paths).value)
            <==> NeverMisread(lib, lines, s)
  {
    if lines != [] {
      var row := StrictJson(lib, lines[0], MAX_EXPORT).value;
      RowAgrees(row, s, paths);
      var s', paths' := ScanLine(lib, lines[0], s).value, AddPath(row, paths).value;
      PathsFollow(lib, lines[1..], s', paths');
      if !Misread(row, s.names) {
        StatesRefinePaths(lib, lines[1..], s', paths');
      }
    }
  }

  // ---- The same boundary ----

  predicate Resolves(decl: Json, known: set<Key>) {
    match Get(decl, "name")
    case Some(name) => KeyOf(name).Some? && KeyOf(name).value in known
    case None => false
  }

  predicate KindResolves(row: Json, kind: string, known: set<Key>)
    requires row.Obj?
  {
    kind in row.fields ==> Resolves(row.fields[kind], known)
  }

  predicate FamilyResolves(row: Json, family: string, known: set<Key>)
    requires row.Obj?
  {
    "inductive" in row.fields ==>
      var items := FamilyItems(row.fields["inductive"], family);
      items.Some? && forall d | d in items.value :: Resolves(d, known)
  }

  // No axiom, and every declaration refers to a name introduced so far.
  predicate RowResolves(row: Json, known: set<Key>)
    requires row.Obj?
  {
    && "axiom" !in row.fields
    && (forall kind | kind in {"def", "thm", "opaque"} :: KindResolves(row, kind, known))
    && (forall family | family in {"types", "ctors", "recs"} :: FamilyResolves(row, family, known))
  }

  ghost predicate AllResolve(lib: Library, lines: seq<bytes>, known: set<Key>) {
    lines == [] ||
    var row := lib.loads(lines[0]);
    && row.Some? && row.value.Obj?
    && var index := if "in" in row.value.fields then KeyOf(row.value.fields["in"]) else None;
       var known' := if index.Some? then known + {index.value} else known;
       RowResolves(row.value, known') && AllResolve(lib, lines[1..], known')
  }

  // A definition of a name whose full path is Oncm.goal, while its state is not goal:
  // the name, or Oncm above it, was misread.
  ghost predicate Shadow(row: Json, names: map<int, NameState>, paths: Paths) {
    && row.Obj? && KindPaths(row, "def", paths) == Some([GOAL_PATH])
    && var d := Defined(row);
       d.Some? && d.value.Some? && d.value.value in names && names[d.value.value] != Goal
  }

  // No record of a successful scan is one.
  ghost predicate NoShadow(lib: Library, lines: seq<bytes>, s: Scan, paths: Paths) {
    lines == [] ||
    var row, s' := StrictJson(lib, lines[0], MAX_EXPORT), ScanLine(lib, lines[0], s);
    row.Some? && s'.Some? && row.value.Obj? ==>
      var paths' := AddPath(row.value, paths);
      paths'.Some? ==>
        !Shadow(row.value, s'.value.names, paths'.value) && NoShadow(lib, lines[1..], s'.value, paths'.value)
  }

  lemma {:induction false} PathsOfAllResolves(decls: seq<Json>, paths: Paths)
    ensures PathsOfAll(decls, paths).Some? <==> forall d | d in decls :: Resolves(d, paths.Keys)
  {
    if decls != [] {
      PathsOfAllResolves(decls[1..], paths);
      assert decls[0] in decls && forall d | d in decls[1..] :: d in decls;
      assert PathOf(decls[0], paths).Some? <==> Resolves(decls[0], paths.Keys);
      assert forall d | d in decls :: d == decls[0] || d in decls[1..];
    }
  }

  lemma DeclarsResolve(row: Json, paths: Paths)
    requires row.Obj?
    ensures RowDeclars(row, paths).Some? <==> RowResolves(row, paths.Keys)
  {
    forall family ensures FamilyPaths(row, family, paths).Some? <==> FamilyResolves(row, family, paths.Keys) {
      if "inductive" in row.fields && FamilyItems(row.fields["inductive"], family).Some? {
        PathsOfAllResolves(FamilyItems(row.fields["inductive"], family).value, paths);
      }
    }
    assert forall kind :: KindPaths(row, kind, paths).Some? <==> KindResolves(row, kind, paths.Keys);
  }

  // Where the two scans stand in front of a record.
  ghost predicate Together(s: Scan, a: Admission) {
    Covers(s.names, a.paths) && s.offset == a.offset && (s.boundary.Some? ==> a.boundary == s.boundary)
  }

  // A definition that the four-valued scan takes for the goal.
  predicate DefinesGoal(row: Json, names: map<int, NameState>)
    requires row.Obj?
  {
    match Defined(row)
    case Some(Some(name)) => name in names && names[name] == Goal
    case _ => false
  }

  // The full scan takes it for one too, and shadows, and nothing else.
  lemma GoalOrShadow(row: Json, names: map<int, NameState>, paths: Paths)
    requires row.Obj? && Covers(names, paths) && Defined(row).Some?
    ensures KindPaths(row, "def", paths) == Some([GOAL_PATH]) <==> Shadow(row, names, paths) || DefinesGoal(row, names)
  {
    var d := Defined(row).value;
    if d.Some? && Index(d.value) in paths {
      var path := paths[Index(d.value)];
      assert KindPaths(row, "def", paths) == Some([path]);
      assert [path][0] == path && [GOAL_PATH][0] == GOAL_PATH;
    }
  }

  // One record of the full scan.
  lemma AdmitStep(row: Json, length: nat, a: Admission, paths: Paths, named: bool)
    requires row.Obj? && AddPath(row, a.paths) == Some(paths)
    requires named <==> KindPaths(row, "def", paths) == Some([GOAL_PATH])
    ensures AdmitRow(row, length, a).Some? <==> RowResolves(row, paths.Keys) && (named ==> a.boundary == None)
    ensures AdmitRow(row, length, a).Some? ==>
              var a' := AdmitRow(row, length, a).value;
              && a'.paths == paths && a'.offset == a.offset + length
              && a'.boundary == if named then Some(a'.offset) else a.boundary
  {
    DeclarsResolve(row, paths);
  }

  // One record of the four-valued scan, and the names of the full one behind it.
  lemma ScanStep(lib: Library, line: bytes, s: Scan, paths: Paths, row: Json)
    requires Covers(s.names, paths) && ScanLine(lib, line, s).Some? && lib.loads(line) == Some(row)
    ensures EndsLine(line) && StrictJson(lib, line, MAX_EXPORT) == Some(row) && row.Obj? && Defined(row).Some?
    ensures "in" in row.fields ==> KeyOf(row.fields["in"]).Some?
    ensures var s' := ScanLine(lib, line, s).value;
            && s'.offset == s.offset + |line|
            && s'.boundary == (if DefinesGoal(row, s'.names) then Some(s'.offset) else s.boundary)
            && (DefinesGoal(row, s'.names) ==> s.boundary == None)
            && AddPath(row, paths).Some?
            && var paths' := AddPath(row, paths).value;
               && Covers(s'.names, paths')
               && paths'.Keys == paths.Keys + if "in" in row.fields then {KeyOf(row.fields["in"]).value} else {}
  {
    RowAgrees(row, s, paths);
  }

  // One record of both.
  lemma RowTogether(lib: Library, line: bytes, s: Scan, a: Admission, row: Json, s': Scan, paths': Paths)
    requires Together(s, a) && ScanLine(lib, line, s) == Some(s')
    requires lib.loads(line) == Some(row) && row.Obj? && AddPath(row, a.paths) == Some(paths')
    ensures var shadow, goal := Shadow(row, s'.names, paths'), DefinesGoal(row, s'.names);
            && (AdmitLine(lib, line, a).Some? <==>
                  RowResolves(row, paths'.Keys) && (shadow || goal ==> a.boundary == None))
            && (AdmitLine(lib, line, a).Some? ==>
                  var a' := AdmitLine(lib, line, a).value;
                  && Covers(s'.names, a'.paths) && a'.paths == paths' && a'.offset == s'.offset
                  && a'.boundary == if shadow || goal then Some(s'.offset) else a.boundary)
  {
    ScanStep(lib, line, s, a.paths, row);
    GoalOrShadow(row, s'.names, paths');
    AdmitStep(row, |line|, a, paths', KindPaths(row, "def", paths') == Some([GOAL_PATH]));
  }

  // If both scans come to an end with a boundary, they were at one all along.
  lemma {:induction false} AdmittedAgree(lib: Library, lines: seq<bytes>, s: Scan, a: Admission)
    requires Together(s, a) && ScanLines(lib, lines, s).Some? && AdmitLines(lib, lines, a).Some?
    requires ScanLines(lib, lines, s).value.boundary.Some?
    ensures a.boundary == s.boundary
    ensures AdmitLines(lib, lines, a).value.boundary == ScanLines(lib, lines, s).value.boundary
    ensures AllResolve(lib, lines, a.paths.Keys) && NoShadow(lib, lines, s, a.paths)
  {
    if lines != [] {
      var row, s' := lib.loads(lines[0]).value, ScanLine(lib, lines[0], s).value;
      ScanStep(lib, lines[0], s, a.paths, row);
      RowTogether(lib, lines[0], s, a, row, s', AddPath(row, a.paths).value);
      AdmittedAgree(lib, lines[1..], s', AdmitLine(lib, lines[0], a).value);
    }
  }

  lemma {:induction false} ResolvedAdmit(lib: Library, lines: seq<bytes>, s: Scan, a: Admission)
    requires Together(s, a) && a.boundary == s.boundary && ScanLines(lib, lines, s).Some?
    requires AllResolve(lib, lines, a.paths.Keys) && NoShadow(lib, lines, s, a.paths)
    ensures AdmitLines(lib, lines, a).Some?
    ensures AdmitLines(lib, lines, a).value.boundary == ScanLines(lib, lines, s).value.boundary
  {
    if lines != [] {
      var row, s' := lib.loads(lines[0]).value, ScanLine(lib, lines[0], s).value;
      ScanStep(lib, lines[0], s, a.paths, row);
      RowTogether(lib, lines[0], s, a, row, s', AddPath(row, a.paths).value);
      ResolvedAdmit(lib, lines[1..], s', AdmitLine(lib, lines[0], a).value);
    }
  }

  // Whenever both scans succeed, they find the same boundary.
  lemma BoundariesAgree(lib: Library, e: bytes)
    requires Boundary(lib, e).Some? && Admit(lib, e).Some?
    ensures Admit(lib, e).value.0 == Boundary(lib, e).value
  {
    AdmittedAgree(lib, SplitLines(e), START, BEGIN);
  }

  // On an export with a boundary, the full scan succeeds exactly when no record is an
  // axiom, every declaration names a known name, and none is a shadow of the goal.
  lemma AdmitsExactly(lib: Library, e: bytes)
    requires Boundary(lib, e).Some?
    ensures Admit(lib, e).Some? <==>
            AllResolve(lib, SplitLines(e), {Index(0)}) && NoShadow(lib, SplitLines(e), START, BEGIN.paths)
  {
    assert BEGIN.paths.Keys == {Index(0)};
    if Admit(lib, e).Some? {
      AdmittedAgree(lib, SplitLines(e), START, BEGIN);
    } else if AllResolve(lib, SplitLines(e), {Index(0)}) && NoShadow(lib, SplitLines(e), START, BEGIN.paths) {
      ResolvedAdmit(lib, SplitLines(e), START, BEGIN);
    }
  }
}
