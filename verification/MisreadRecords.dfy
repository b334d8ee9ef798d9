// A record that admission.py and request.py read differently: a numeric name with a
// text component beside it.
module MisreadRecords {
  import opened Options
  import opened Bytes
  import opened JsonValues
  import opened Libraries
  import opened Lines
  import opened GoalScan
  import opened FullNameScan

  function NameRecord(index: int, pre: int, text: string): Json {
    Obj(map["in" := Int(index), "str" := Obj(map["pre" := Int(pre), "str" := Str(text)])])
  }

  function MisreadRecord(index: int, pre: int, text: string): Json {
    Obj(map["in" := Int(index), "num" := Obj(map["pre" := Int(pre), "i" := Int(0), "str" := Str(text)])])
  }

  function DefRecord(name: int): Json {
    Obj(map["def" := Obj(map["name" := Int(name)])])
  }

  ghost predicate Carries(lib: Library, line: bytes, row: Json) {
    EndsLine(line) && |line| <= MAX_EXPORT && lib.strict(line) && lib.loads(line) == Some(row)
  }

  lemma ScanName(lib: Library, line: bytes, s: Scan, index: int, pre: int, text: string)
    requires Carries(lib, line, NameRecord(index, pre, text))
    requires index > 0 && index !in s.names && pre in s.names
    ensures ScanLine(lib, line, s)
         == Some(Scan(s.names[index := ChildState(s.names[pre], text)], s.offset + |line|, s.boundary))
  {
    var row := NameRecord(index, pre, text);
    assert NamePart(row) == Some(row.fields["str"]);
    assert Defined(row) == Some(None);
  }

  lemma ScanDef(lib: Library, line: bytes, s: Scan, name: int)
    requires Carries(lib, line, DefRecord(name)) && name in s.names
    requires s.names[name] == Goal ==> s.boundary == None
    ensures ScanLine(lib, line, s)
         == Some(Scan(s.names, s.offset + |line|,
                      if s.names[name] == Goal then Some(s.offset + |line|) else s.boundary))
  {
    var row := DefRecord(name);
    assert AddName(row, s.names) == Some(s.names);
    assert Defined(row) == Some(Some(name));
  }

  // The two scans disagree on the misread name.
  lemma ReadMisread(lib: Library, line: bytes, s: Scan, paths: Paths, index: int, pre: int)
    requires Covers(s.names, paths) && Carries(lib, line, MisreadRecord(index, pre, "goal"))
    requires index > 0 && index !in s.names && pre in s.names && s.names[pre] == Namespace
    ensures var row, longer := MisreadRecord(index, pre, "goal"), paths[Index(pre)] + [Str("goal")];
            && ScanLine(lib, line, s) == Some(Scan(s.names[index := Other], s.offset + |line|, s.boundary))
            && AddPath(row, paths) == Some(paths[Index(index) := longer]) && longer == GOAL_PATH
            && RowResolves(row, paths[Index(index) := longer].Keys)
            && !Shadow(row, s.names[index := Other], paths[Index(index) := longer])
  {
    var row := MisreadRecord(index, pre, "goal");
    var part := row.fields["num"];
    assert NamePart(row) == Some(part) && Get(part, "pre") == Some(Int(pre));
    assert Get(part, "str") == Some(Str("goal")) && Component(part) == Str("goal");
    assert Defined(row) == Some(None);
  }

  lemma ShadowDef(names: map<int, NameState>, paths: Paths, name: int)
    requires name in names && names[name] != Goal && Index(name) in paths && paths[Index(name)] == GOAL_PATH
    ensures var def := DefRecord(name);
            && Shadow(def, names, paths) && AddPath(def, paths) == Some(paths) && RowResolves(def, paths.Keys)
  {
    var def := DefRecord(name);
    assert Defined(def) == Some(Some(name)) && Get(def.fields["def"], "name") == Some(Int(name));
    assert KindPaths(def, "def", paths) == Some([GOAL_PATH]);
  }

  // Take any point where the two scans are together and have found the goal, and let a
  // misread goal under Oncm follow, with its definition: the four-valued scan keeps
  // its boundary, while the full scan sees a second Oncm.goal and stops, although
  // there is no axiom and every declared name is known.
  lemma MisreadMatters(lib: Library, s: Scan, a: Admission, l1: bytes, l2: bytes, index: int, pre: int)
    requires Together(s, a) && s.boundary.Some?
    requires index > 0 && index !in s.names && pre in s.names && s.names[pre] == Namespace
    requires Carries(lib, l1, MisreadRecord(index, pre, "goal")) && Carries(lib, l2, DefRecord(index))
    ensures var t := ScanLines(lib, [l1, l2], s); t.Some? && t.value.boundary == s.boundary
    ensures AllResolve(lib, [l1, l2], a.paths.Keys)
    ensures !NoShadow(lib, [l1, l2], s, a.paths)
    ensures AdmitLines(lib, [l1, l2], a) == None
  {
    var row, def := MisreadRecord(index, pre, "goal"), DefRecord(index);
    var s' := Scan(s.names[index := Other], s.offset + |l1|, s.boundary);
    var paths' := a.paths[Index(index) := a.paths[Index(pre)] + [Str("goal")]];
    ReadMisread(lib, l1, s, a.paths, index, pre);
    ScanStep(lib, l1, s, a.paths, row);
    ScanDef(lib, l2, s', index);
    assert [l1, l2][1..] == [l2] && [l2][1..] == [];
    assert ScanLines(lib, [l2], s') == ScanLine(lib, l2, s');
    ShadowDef(s'.names, paths', index);
    RowTogether(lib, l1, s, a, row, s', paths');
    if AdmitLine(lib, l1, a).Some? {
      RowTogether(lib, l2, s', AdmitLine(lib, l1, a).value, def, s'.(offset := s'.offset + |l2|), paths');
    }
  }

  // One record in front, without a shadow.
  lemma ScanCons(lib: Library, line: bytes, rest: seq<bytes>, s: Scan, paths: Paths, row: Json, s': Scan,
                 paths': Paths)
    requires Carries(lib, line, row) && row.Obj?
    requires ScanLine(lib, line, s) == Some(s') && AddPath(row, paths) == Some(paths')
    requires RowResolves(row, paths'.Keys) && !Shadow(row, s'.names, paths')
    requires paths'.Keys == paths.Keys + if "in" in row.fields then {KeyOf(row.fields["in"]).value} else {}
    requires "in" in row.fields ==> KeyOf(row.fields["in"]).Some?
    ensures ScanLines(lib, [line] + rest, s) == ScanLines(lib, rest, s')
    ensures NoShadow(lib, [line] + rest, s, paths) == NoShadow(lib, rest, s', paths')
    ensures AllResolve(lib, [line] + rest, paths.Keys) == AllResolve(lib, rest, paths'.Keys)
  {
    assert ([line] + rest)[1..] == rest && ([line] + rest)[0] == line;
  }

  lemma NameCons(lib: Library, line: bytes, rest: seq<bytes>, s: Scan, paths: Paths, index: int, pre: int,
                 text: string, s': Scan, paths': Paths)
    requires Carries(lib, line, NameRecord(index, pre, text)) && index > 0 && index !in s.names && pre in s.names
    requires SameNames(s.names, paths)
    requires s' == Scan(s.names[index := ChildState(s.names[pre], text)], s.offset + |line|, s.boundary)
    requires paths' == paths[Index(index) := paths[Index(pre)] + [Str(text)]]
    ensures ScanLines(lib, [line] + rest, s) == ScanLines(lib, rest, s')
    ensures NoShadow(lib, [line] + rest, s, paths) == NoShadow(lib, rest, s', paths')
    ensures AllResolve(lib, [line] + rest, paths.Keys) == AllResolve(lib, rest, paths'.Keys)
  {
    var row := NameRecord(index, pre, text);
    var part := row.fields["str"];
    ScanName(lib, line, s, index, pre, text);
    assert Get(part, "pre") == Some(Int(pre)) && Component(part) == Str(text);
    assert AddPath(row, paths) == Some(paths');
    ScanCons(lib, line, rest, s, paths, row, s', paths');
  }

  lemma DefCons(lib: Library, line: bytes, rest: seq<bytes>, s: Scan, paths: Paths, name: int, s': Scan)
    requires Carries(lib, line, DefRecord(name)) && SameNames(s.names, paths)
    requires name in s.names && s.names[name] == Goal && s.boundary == None
    requires s' == Scan(s.names, s.offset + |line|, Some(s.offset + |line|))
    ensures ScanLines(lib, [line] + rest, s) == ScanLines(lib, rest, s')
    ensures NoShadow(lib, [line] + rest, s, paths) == NoShadow(lib, rest, s', paths)
    ensures AllResolve(lib, [line] + rest, paths.Keys) == AllResolve(lib, rest, paths.Keys)
  {
    var row := DefRecord(name);
    ScanDef(lib, line, s, name);
    assert Defined(row) == Some(Some(name)) && AddPath(row, paths) == Some(paths);
    assert paths.Keys == paths.Keys + {};
    ScanCons(lib, line, rest, s, paths, row, s', paths);
  }

  // Where the scan stands after records that name Oncm and Oncm.goal and define it.
  function Defining(offset: nat): Scan {
    Scan(map[0 := Root, 1 := Namespace, 2 := Goal], offset, Some(offset))
  }

  function OncmPaths(): Paths {
    map[Index(0) := [], Index(1) := [Str("Oncm")]]
  }

  function DefiningPaths(): Paths {
    map[Index(0) := [], Index(1) := [Str("Oncm")], Index(2) := GOAL_PATH]
  }

  // From these records on, the four-valued scan ends with that boundary, every
  // declaration resolves, and one is a shadow.
  ghost predicate Shadowed(lib: Library, lines: seq<bytes>, s: Scan, paths: Paths, boundary: nat) {
    && ScanLines(lib, lines, s).Some?
    && ScanLines(lib, lines, s).value.boundary == Some(boundary)
    && AllResolve(lib, lines, paths.Keys)
    && !NoShadow(lib, lines, s, paths)
  }

  lemma GoalThenShadow(lib: Library, line: bytes, rest: seq<bytes>, offset: nat, boundary: nat)
    requires Carries(lib, line, DefRecord(2)) && boundary == offset + |line|
    requires Shadowed(lib, rest, Defining(boundary), DefiningPaths(), boundary)
    ensures Shadowed(lib, [line] + rest, Defining(offset).(boundary := None), DefiningPaths(), boundary)
  {
    DefCons(lib, line, rest, Defining(offset).(boundary := None), DefiningPaths(), 2, Defining(boundary));
  }

  lemma NamedThenShadow(lib: Library, line: bytes, rest: seq<bytes>, offset: nat, boundary: nat)
    requires Carries(lib, line, NameRecord(2, 1, "goal"))
    requires Shadowed(lib, rest, Defining(offset + |line|).(boundary := None), DefiningPaths(), boundary)
    ensures Shadowed(lib, [line] + rest, Scan(map[0 := Root, 1 := Namespace], offset, None), OncmPaths(), boundary)
  {
    assert [Str("Oncm")] + [Str("goal")] == GOAL_PATH;
    NameCons(lib, line, rest, Scan(map[0 := Root, 1 := Namespace], offset, None), OncmPaths(), 2, 1, "goal",
             Defining(offset + |line|).(boundary := None), DefiningPaths());
  }

  lemma OncmThenShadow(lib: Library, line: bytes, rest: seq<bytes>, boundary: nat)
    requires Carries(lib, line, NameRecord(1, 0, "Oncm"))
    requires Shadowed(lib, rest, Scan(map[0 := Root, 1 := Namespace], |line|, None), OncmPaths(), boundary)
    ensures Shadowed(lib, [line] + rest, START, BEGIN.paths, boundary)
  {
    assert [] + [Str("Oncm")] == [Str("Oncm")];
    NameCons(lib, line, rest, START, BEGIN.paths, 1, 0, "Oncm",
             Scan(map[0 := Root, 1 := Namespace], |line|, None), OncmPaths());
  }

  lemma ShadowBehindGoal(lib: Library, l4: bytes, l5: bytes, boundary: nat)
    requires Carries(lib, l4, MisreadRecord(3, 1, "goal")) && Carries(lib, l5, DefRecord(3))
    ensures Shadowed(lib, [l4, l5], Defining(boundary), DefiningPaths(), boundary)
  {
    var s := Defining(boundary);
    MisreadMatters(lib, s, Admission(DefiningPaths(), s.offset, s.boundary, []), l4, l5, 3, 1);
  }

  // The goal's definition in front of the shadow.
  lemma ExampleTail(lib: Library, tail: seq<bytes>, l3: bytes, l4: bytes, l5: bytes, offset: nat, boundary: nat)
    requires tail == [l3, l4, l5] && Carries(lib, l3, DefRecord(2)) && boundary == offset + |l3|
    requires Carries(lib, l4, MisreadRecord(3, 1, "goal")) && Carries(lib, l5, DefRecord(3))
    ensures Shadowed(lib, tail, Defining(offset).(boundary := None), DefiningPaths(), boundary)
  {
    ShadowBehindGoal(lib, l4, l5, boundary);
    assert [l3] + [l4, l5] == tail;
    GoalThenShadow(lib, l3, [l4, l5], offset, boundary);
  }

  // The four-valued scan succeeds and the full scan stops, for a shadow alone.
  ghost predicate Stopped(lib: Library, e: bytes, boundary: nat) {
    && Boundary(lib, e) == Some(boundary) && Admit(lib, e) == None
    && AllResolve(lib, SplitLines(e), {Index(0)})
    && !NoShadow(lib, SplitLines(e), START, BEGIN.paths)
  }

  lemma ShadowStops(lib: Library, e: bytes, boundary: nat)
    requires Shadowed(lib, SplitLines(e), START, BEGIN.paths, boundary)
    ensures Stopped(lib, e, boundary)
  {
    assert BEGIN.paths.Keys == {Index(0)};
    AdmitsExactly(lib, e);
  }

  // The two names in front of that.
  lemma ExampleFront(lib: Library, lines: seq<bytes>, l1: bytes, l2: bytes, rest: seq<bytes>, boundary: nat)
    requires lines == [l1] + ([l2] + rest)
    requires Carries(lib, l1, NameRecord(1, 0, "Oncm")) && Carries(lib, l2, NameRecord(2, 1, "goal"))
    requires Shadowed(lib, rest, Defining(|l1| + |l2|).(boundary := None), DefiningPaths(), boundary)
    ensures Shadowed(lib, lines, START, BEGIN.paths, boundary)
  {
    NamedThenShadow(lib, l2, rest, |l1|, boundary);
    OncmThenShadow(lib, l1, [l2] + rest, boundary);
  }

  // The lines carry these rows, one each.
  ghost predicate CarriesAll(lib: Library, lines: seq<bytes>, rows: seq<Json>) {
    if lines == [] || rows == [] then lines == [] && rows == []
    else Carries(lib, lines[0], rows[0]) && CarriesAll(lib, lines[1..], rows[1..])
  }

  lemma CarriesTail(lib: Library, lines: seq<bytes>, rows: seq<Json>, row: Json)
    requires CarriesAll(lib, lines, [row] + rows)
    ensures lines != [] && Carries(lib, lines[0], row) && CarriesAll(lib, lines[1..], rows)
  {
    assert ([row] + rows)[1..] == rows;
  }

  function ShadowRows(): seq<Json> {
    [DefRecord(2)] + ([MisreadRecord(3, 1, "goal")] + ([DefRecord(3)] + []))
  }

  lemma ShadowRowsShadow(lib: Library, tail: seq<bytes>, offset: nat)
    requires CarriesAll(lib, tail, ShadowRows())
    ensures |tail| == 3
    ensures Shadowed(lib, tail, Defining(offset).(boundary := None), DefiningPaths(), offset + |tail[0]|)
  {
    CarriesTail(lib, tail, [MisreadRecord(3, 1, "goal")] + ([DefRecord(3)] + []), DefRecord(2));
    CarriesTail(lib, tail[1..], [DefRecord(3)] + [], MisreadRecord(3, 1, "goal"));
    CarriesTail(lib, tail[1..][1..], [], DefRecord(3));
    assert tail == [tail[0], tail[1], tail[2]] && tail[1..][1..][0] == tail[2];
    ExampleTail(lib, tail, tail[0], tail[1], tail[2], offset, offset + |tail[0]|);
  }

  function ExampleRows(): seq<Json> {
    [NameRecord(1, 0, "Oncm")] + ([NameRecord(2, 1, "goal")] + ShadowRows())
  }

  lemma ExampleParts(lib: Library, lines: seq<bytes>) returns (rest: seq<bytes>)
    requires CarriesAll(lib, lines, ExampleRows())
    ensures |lines| >= 3 && lines == [lines[0]] + ([lines[1]] + rest)
    ensures Carries(lib, lines[0], NameRecord(1, 0, "Oncm")) && Carries(lib, lines[1], NameRecord(2, 1, "goal"))
    ensures Shadowed(lib, rest, Defining(|lines[0]| + |lines[1]|).(boundary := None), DefiningPaths(),
                     |lines[0]| + |lines[1]| + |lines[2]|)
  {
    CarriesTail(lib, lines, [NameRecord(2, 1, "goal")] + ShadowRows(), NameRecord(1, 0, "Oncm"));
    CarriesTail(lib, lines[1..], ShadowRows(), NameRecord(2, 1, "goal"));
    rest := lines[1..][1..];
    ShadowRowsShadow(lib, rest, |lines[0]| + |lines[1]|);
    assert rest[0] == lines[2];
  }

  lemma ExampleLines(lib: Library, lines: seq<bytes>, rows: seq<Json>) returns (boundary: nat)
    requires rows == ExampleRows() && CarriesAll(lib, lines, rows)
    ensures |lines| >= 3 && boundary == |lines[0]| + |lines[1]| + |lines[2]|
    ensures Shadowed(lib, lines, START, BEGIN.paths, boundary)
  {
    var rest := ExampleParts(lib, lines);
    boundary := |lines[0]| + |lines[1]| + |lines[2]|;
    ExampleFront(lib, lines, lines[0], lines[1], rest, boundary);
  }

  // Five records on which goal_boundary succeeds and the full scan stops, although
  // every declaration resolves.
  lemma MisreadExample(lib: Library, e: bytes, rows: seq<Json>) returns (boundary: nat)
    requires rows == ExampleRows() && CarriesAll(lib, SplitLines(e), rows)
    ensures var lines := SplitLines(e); |lines| >= 3 && boundary == |lines[0]| + |lines[1]| + |lines[2]|
    ensures Stopped(lib, e, boundary)
  {
    boundary := ExampleLines(lib, SplitLines(e), rows);
    ShadowStops(lib, e, boundary);
  }
}
