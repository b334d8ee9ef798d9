// request.py, lines 75-107, once more: which exports have a boundary, in terms of their
// records.
module GoalExports {
  import opened Options
  import opened Bytes
  import opened JsonValues
  import opened Libraries
  import opened Lines
  import opened GoalScan

  // ---- The records ----

  // The record introduces a name: a text below another name, or a number (no text).
  ghost predicate Introduces(row: Json, index: int, pre: int, text: Option<string>) {
    && Get(row, "in") == Some(Int(index)) && index > 0
    && match text
       case Some(t) =>
         && Get(row, "num") == None && Get(row, "str").Some?
         && Get(Get(row, "str").value, "pre") == Some(Int(pre)) && Get(Get(row, "str").value, "str") == Some(Str(t))
       case None =>
         && Get(row, "str") == None && Get(row, "num").Some?
         && Get(Get(row, "num").value, "pre") == Some(Int(pre))
         && exists i: nat :: Get(Get(row, "num").value, "i") == Some(Int(i))
  }

  ghost predicate Defines(row: Json, n: int) {
    Get(row, "def").Some? && Get(Get(row, "def").value, "name") == Some(Int(n))
  }

  // A name: the root, or one that a record introduces.
  ghost predicate IsName(rows: seq<Json>, n: int) {
    n == 0 || exists j, pre, text | 0 <= j < |rows| :: Introduces(rows[j], n, pre, text)
  }

  // Oncm under the root, and goal under that.
  ghost predicate IsOncm(rows: seq<Json>, n: int) {
    exists j | 0 <= j < |rows| :: Introduces(rows[j], n, 0, Some("Oncm"))
  }

  ghost predicate IsGoal(rows: seq<Json>, n: int) {
    exists j, p | 0 <= j < |rows| :: Introduces(rows[j], n, p, Some("goal")) && IsOncm(rows[..j], p)
  }

  // Record k introduces a new name under a known one, or none, and a definition has a
  // numeric name.
  ghost predicate RecordOk(rows: seq<Json>, k: nat) {
    && k < |rows| && rows[k].Obj?
    && (Get(rows[k], "in").Some? ==>
          exists index, pre, text ::
            Introduces(rows[k], index, pre, text) && !IsName(rows[..k], index) && IsName(rows[..k], pre))
    && (Get(rows[k], "def").Some? ==> exists n :: Defines(rows[k], n))
  }

  ghost predicate DefinesGoalAt(rows: seq<Json>, k: nat) {
    k < |rows| && exists n :: Defines(rows[k], n) && IsGoal(rows[..k + 1], n)
  }

  // ---- One record ----

  // The states are what the records say.
  ghost predicate Tracks(rows: seq<Json>, names: map<int, NameState>) {
    forall n ::
      && (n in names <==> IsName(rows, n))
      && (n in names ==>
            && (names[n] == Root <==> n == 0)
            && (names[n] == Namespace <==> IsOncm(rows, n))
            && (names[n] == Goal <==> IsGoal(rows, n)))
  }

  lemma IntroducesOne(row: Json, i: int, p: int, t: Option<string>, j: int, q: int, u: Option<string>)
    requires Introduces(row, i, p, t) && Introduces(row, j, q, u)
    ensures i == j && p == q && t == u
  {
  }

  lemma NamesAppend(rows: seq<Json>, row: Json, n: int)
    ensures IsName(rows + [row], n) <==> IsName(rows, n) || exists pre, text :: Introduces(row, n, pre, text)
    ensures IsOncm(rows + [row], n) <==> IsOncm(rows, n) || Introduces(row, n, 0, Some("Oncm"))
    ensures IsGoal(rows + [row], n) <==>
            IsGoal(rows, n) || exists p :: Introduces(row, n, p, Some("goal")) && IsOncm(rows, p)
  {
    var longer := rows + [row];
    assert forall j | 0 <= j < |rows| :: longer[j] == rows[j] && longer[..j] == rows[..j];
    assert longer[|rows|] == row && longer[..|rows|] == rows;
  }

  lemma OncmIsName(rows: seq<Json>, n: int)
    ensures IsOncm(rows, n) || IsGoal(rows, n) ==> IsName(rows, n) && n > 0
  {
  }

  // What the scan makes of a record that introduces a name.
  lemma AddsName(row: Json, names: map<int, NameState>, index: int, pre: int, text: Option<string>)
    requires Introduces(row, index, pre, text)
    ensures AddName(row, names) ==
            if index in names || pre !in names then None
            else Some(names[index := if text.Some? then ChildState(names[pre], text.value) else Other])
  {
  }

  // It takes no other record that has an index.
  lemma AddedIsIntroduced(row: Json, names: map<int, NameState>)
    returns (index: int, pre: int, text: Option<string>)
    requires row.Obj? && Get(row, "in").Some? && AddName(row, names).Some?
    ensures Introduces(row, index, pre, text)
  {
    var part := NamePart(row).value;
    index, pre := Get(row, "in").value.n, Get(part, "pre").value.n;
    if "str" in row.fields {
      text := Some(Get(part, "str").value.s);
    } else {
      text := None;
      var i: nat := Get(part, "i").value.n;
    }
  }

  lemma NewNameTracked(rows: seq<Json>, row: Json, names: map<int, NameState>, index: int, pre: int,
                       text: Option<string>)
    requires Tracks(rows, names) && Introduces(row, index, pre, text) && !IsName(rows, index) && IsName(rows, pre)
    ensures Tracks(rows + [row], names[index := if text.Some? then ChildState(names[pre], text.value) else Other])
  {
    var later := names[index := if text.Some? then ChildState(names[pre], text.value) else Other];
    forall n ensures
        && (n in later <==> IsName(rows + [row], n))
        && (n in later ==>
              && (later[n] == Root <==> n == 0)
              && (later[n] == Namespace <==> IsOncm(rows + [row], n))
              && (later[n] == Goal <==> IsGoal(rows + [row], n)))
    {
      NamesAppend(rows, row, n);
      OncmIsName(rows, n);
      forall q, u | Introduces(row, n, q, u) ensures n == index && q == pre && u == text {
        IntroducesOne(row, index, pre, text, n, q, u);
      }
      OncmIsName(rows, index);
    }
  }

  // One record of the names: taken exactly if it is in order, and then the states track it.
  lemma NameStep(rows: seq<Json>, row: Json, names: map<int, NameState>)
    requires Tracks(rows, names) && row.Obj?
    ensures AddName(row, names).Some? <==>
            (Get(row, "in").Some? ==>
               exists index, pre, text ::
                 Introduces(row, index, pre, text) && !IsName(rows, index) && IsName(rows, pre))
    ensures AddName(row, names).Some? ==> Tracks(rows + [row], AddName(row, names).value)
  {
    if Get(row, "in") == None {
      forall n { NamesAppend(rows, row, n); }
    } else {
      if index, pre, text :| Introduces(row, index, pre, text) && !IsName(rows, index) && IsName(rows, pre) {
        AddsName(row, names, index, pre, text);
      }
      if AddName(row, names).Some? {
        var index, pre, text := AddedIsIntroduced(row, names);
        AddsName(row, names, index, pre, text);
        NewNameTracked(rows, row, names, index, pre, text);
      }
    }
  }

  // ---- The whole export ----

  ghost predicate Readable(lib: Library, line: bytes) {
    && line != [] && line[|line| - 1] == 10 && |line| <= 1048576
    && lib.strict(line) && lib.loads(line).Some?
  }

  function RowsOf(lib: Library, lines: seq<bytes>): (rows: seq<Json>)
    ensures |rows| == |lines|
  {
    seq(|lines|, k requires 0 <= k < |lines| =>
      var row := lib.loads(lines[k]); if row.Some? then row.value else Null)
  }

  lemma UnreadableStops(lib: Library, line: bytes, s: Scan)
    requires !Readable(lib, line)
    ensures ScanLine(lib, line, s) == None
  {
  }

  lemma DefinedExactly(row: Json)
    requires row.Obj?
    ensures Defined(row).Some? <==> (Get(row, "def").Some? ==> exists n :: Defines(row, n))
    ensures forall n :: Defined(row) == Some(Some(n)) <==> Defines(row, n)
  {
    if Defined(row).Some? && Defined(row).value.Some? {
      assert Defines(row, Defined(row).value.value);
    }
  }

  // One record of the scan.
  lemma RecordStep(lib: Library, line: bytes, s: Scan, rows: seq<Json>, row: Json, longer: seq<Json>)
    requires Tracks(rows, s.names) && Readable(lib, line) && lib.loads(line) == Some(row) && longer == rows + [row]
    ensures ScanLine(lib, line, s).Some? <==>
            RecordOk(longer, |rows|) && (DefinesGoalAt(longer, |rows|) ==> s.boundary == None)
    ensures ScanLine(lib, line, s).Some? ==>
              var t := ScanLine(lib, line, s).value;
              && Tracks(longer, t.names) && t.offset == s.offset + |line|
              && t.boundary == if DefinesGoalAt(longer, |rows|) then Some(t.offset) else s.boundary
  {
    assert longer[|rows|] == row && longer[..|rows|] == rows && longer[..|rows| + 1] == longer;
    if row.Obj? {
      NameStep(rows, row, s.names);
      DefinedExactly(row);
      if AddName(row, s.names).Some? && Defined(row).Some? {
        var names, defined := AddName(row, s.names).value, Defined(row).value;
        forall n ensures IsGoal(longer, n) <==> n in names && names[n] == Goal {
          OncmIsName(longer, n);
        }
        assert DefinesGoalAt(longer, |rows|) <==> defined.Some? && IsGoal(longer, defined.value);
      }
    }
  }

  ghost predicate AllInOrder(lib: Library, lines: seq<bytes>) {
    && (forall k | 0 <= k < |lines| :: Readable(lib, lines[k]))
    && (forall k | 0 <= k < |lines| :: RecordOk(RowsOf(lib, lines), k))
    && forall j, k | 0 <= j < k < |lines| ::
         !DefinesGoalAt(RowsOf(lib, lines), j) || !DefinesGoalAt(RowsOf(lib, lines), k)
  }

  // Records of a shorter export.
  lemma SameRecords(rows: seq<Json>, more: seq<Json>, k: nat)
    requires k < |rows|
    ensures RecordOk(rows + more, k) <==> RecordOk(rows, k)
    ensures DefinesGoalAt(rows + more, k) <==> DefinesGoalAt(rows, k)
  {
    assert (rows + more)[k] == rows[k] && (rows + more)[..k] == rows[..k] && (rows + more)[..k + 1] == rows[..k + 1];
  }

  lemma InOrderAppend(lib: Library, front: seq<bytes>, line: bytes)
    ensures var rows, longer := RowsOf(lib, front), RowsOf(lib, front + [line]);
            && longer == rows + [longer[|rows|]]
            && (AllInOrder(lib, front + [line]) <==>
                  && AllInOrder(lib, front) && Readable(lib, line) && RecordOk(longer, |rows|)
                  && (DefinesGoalAt(longer, |rows|) ==> forall k | 0 <= k < |rows| :: !DefinesGoalAt(rows, k)))
            && forall k | 0 <= k < |rows| :: DefinesGoalAt(longer, k) <==> DefinesGoalAt(rows, k)
  {
    var rows, lines := RowsOf(lib, front), front + [line];
    var longer := RowsOf(lib, lines);
    assert forall k | 0 <= k < |front| :: lines[k] == front[k] && longer[k] == rows[k];
    assert lines[|front|] == line;
    assert longer == rows + [longer[|rows|]];
    forall k | 0 <= k < |rows|
      ensures RecordOk(longer, k) <==> RecordOk(rows, k)
      ensures DefinesGoalAt(longer, k) <==> DefinesGoalAt(rows, k)
    {
      SameRecords(rows, [longer[|rows|]], k);
    }
  }

  // Where record k ends.
  function EndOf(lines: seq<bytes>, k: nat): nat
    requires k < |lines|
  {
    |Flatten(lines[..k + 1])|
  }

  // Where the scan stands behind these lines.
  ghost predicate Stands(lib: Library, lines: seq<bytes>, s: Scan) {
    var rows := RowsOf(lib, lines);
    && Tracks(rows, s.names) && s.offset == |Flatten(lines)|
    && (s.boundary == None <==> forall k | 0 <= k < |rows| :: !DefinesGoalAt(rows, k))
    && forall k | 0 <= k < |rows| && DefinesGoalAt(rows, k) :: s.boundary == Some(EndOf(lines, k))
  }

  lemma ScanAppend(lib: Library, front: seq<bytes>, line: bytes)
    ensures ScanLines(lib, front + [line], START) ==
            var s := ScanLines(lib, front, START);
            if s.Some? then ScanLine(lib, line, s.value) else None
  {
    ScanConcat(lib, front, [line], START);
    assert [line][1..] == [];
  }

  lemma FlattenAppend(front: seq<bytes>, line: bytes)
    ensures |Flatten(front + [line])| == |Flatten(front)| + |line|
    ensures forall k | 0 <= k < |front| :: EndOf(front + [line], k) == EndOf(front, k)
    ensures EndOf(front + [line], |front|) == |Flatten(front)| + |line|
  {
    FlattenConcat(front, [line]);
    assert Flatten([line]) == line + Flatten([line][1..]) && [line][1..] == [];
    assert (front + [line])[..|front| + 1] == front + [line];
    forall k | 0 <= k < |front| ensures EndOf(front + [line], k) == EndOf(front, k) {
      assert (front + [line])[..k + 1] == front[..k + 1];
    }
  }

  lemma StandsThen(lib: Library, front: seq<bytes>, line: bytes, lines: seq<bytes>, s: Scan, t: Scan, rows: seq<Json>,
                   longer: seq<Json>)
    requires |lines| == |front| + 1 && rows == RowsOf(lib, front) && longer == RowsOf(lib, lines)
    requires s.offset == |Flatten(front)| && t.offset == s.offset + |line| && |Flatten(lines)| == t.offset
    requires s.boundary == None <==> forall k | 0 <= k < |rows| :: !DefinesGoalAt(rows, k)
    requires forall k | 0 <= k < |rows| && DefinesGoalAt(rows, k) :: s.boundary == Some(EndOf(front, k))
    requires forall k | 0 <= k < |rows| :: DefinesGoalAt(longer, k) <==> DefinesGoalAt(rows, k)
    requires forall k | 0 <= k < |front| :: EndOf(lines, k) == EndOf(front, k)
    requires EndOf(lines, |front|) == t.offset
    requires Tracks(longer, t.names) && (DefinesGoalAt(longer, |rows|) ==> s.boundary == None)
    requires t.boundary == if DefinesGoalAt(longer, |rows|) then Some(t.offset) else s.boundary
    ensures Stands(lib, lines, t)
  {
    forall k | 0 <= k < |longer| && DefinesGoalAt(longer, k) ensures t.boundary == Some(EndOf(lines, k)) {
      if k < |rows| { assert DefinesGoalAt(rows, k); }
    }
    if forall k | 0 <= k < |longer| :: !DefinesGoalAt(longer, k) {
      assert forall k | 0 <= k < |rows| :: !DefinesGoalAt(rows, k);
    }
  }

  lemma StandsAppend(lib: Library, front: seq<bytes>, line: bytes, lines: seq<bytes>, s: Scan)
    requires Stands(lib, front, s) && Readable(lib, line) && lines == front + [line]
    ensures var rows, longer := RowsOf(lib, front), RowsOf(lib, lines);
            && (ScanLine(lib, line, s).Some? <==>
                  RecordOk(longer, |rows|) && (DefinesGoalAt(longer, |rows|) ==> s.boundary == None))
            && (ScanLine(lib, line, s).Some? ==> Stands(lib, lines, ScanLine(lib, line, s).value))
  {
    var rows, longer := RowsOf(lib, front), RowsOf(lib, lines);
    InOrderAppend(lib, front, line);
    assert lines[|front|] == line;
    RecordStep(lib, line, s, rows, lib.loads(line).value, longer);
    FlattenAppend(front, line);
    if ScanLine(lib, line, s).Some? {
      StandsThen(lib, front, line, lines, s, ScanLine(lib, line, s).value, rows, longer);
    }
  }

  // A scan comes to an end exactly if all records are in order.
  lemma {:induction false} ScansExactly(lib: Library, lines: seq<bytes>)
    ensures ScanLines(lib, lines, START).Some? <==> AllInOrder(lib, lines)
    ensures ScanLines(lib, lines, START).Some? ==> Stands(lib, lines, ScanLines(lib, lines, START).value)
  {
    if lines == [] {
      assert RowsOf(lib, lines) == [];
    } else {
      var front, line := lines[..|lines| - 1], lines[|lines| - 1];
      assert lines == front + [line];
      ScansExactly(lib, front);
      ScanAppend(lib, front, line);
      InOrderAppend(lib, front, line);
      if ScanLines(lib, front, START).Some? {
        var s := ScanLines(lib, front, START).value;
        if Readable(lib, line) { StandsAppend(lib, front, line, lines, s); } else { UnreadableStops(lib, line, s); }
      }
    }
  }

  // An export has a boundary exactly if all its lines carry records in order and exactly
  // one of them, the k-th, defines Oncm.goal; the boundary is the end of that record.
  lemma BoundaryExactly(lib: Library, e: bytes, b: nat)
    ensures var lines := SplitLines(e);
            Boundary(lib, e) == Some(b) <==>
            && AllInOrder(lib, lines)
            && exists k | 0 <= k < |lines| ::
                 DefinesGoalAt(RowsOf(lib, lines), k) && b == EndOf(lines, k)
  {
    ScansExactly(lib, SplitLines(e));
  }
}
