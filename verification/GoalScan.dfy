// request.py, lines 75-107: finding the one definition of Oncm.goal in an export
// while remembering one of four states per name.
module GoalScan {
  import opened Options
  import opened Bytes
  import opened JsonValues
  import opened Libraries
  import opened Lines

  const MAX_EXPORT: nat := 1024 * 1024

  datatype NameState = Root | Namespace | Goal | Other

  datatype Scan = Scan(names: map<int, NameState>, offset: nat, boundary: Option<nat>)

  const START := Scan(map[0 := Root], 0, None)

  // ---- One record ----

  // The record's value for a new name: exactly one of 'str' and 'num'.
  function NamePart(row: Json): Option<Json>
    requires row.Obj?
  {
    match (Get(row, "str"), Get(row, "num"))
    case (Some(v), None) => Some(v)
    case (None, Some(v)) => Some(v)
    case _ => None
  }

  // The four-valued state of a new name, from its parent's.
  function ChildState(parent: NameState, text: string): NameState {
    if parent == Root && text == "Oncm" then Namespace
    else if parent == Namespace && text == "goal" then Goal
    else Other
  }

  function NewState(row: Json, part: Json, parent: NameState): Option<NameState>
    requires row.Obj?
  {
    if "str" in row.fields then
      match Get(part, "str")
      case Some(Str(text)) => Some(ChildState(parent, text))
      case _ => None
    else
      match Get(part, "i")
      case Some(Int(i)) => if i >= 0 then Some(Other) else None
      case _ => None
  }

  function AddName(row: Json, names: map<int, NameState>): Option<map<int, NameState>>
    requires row.Obj?
  {
    match Get(row, "in")
    case None => Some(names)
    case Some(Int(index)) =>
      if index <= 0 || index in names then None
      else
        var part :- NamePart(row);
        (match Get(part, "pre")
         case Some(Int(pre)) =>
           if pre !in names then None
           else
             var state :- NewState(row, part, names[pre]);
             Some(names[index := state])
         case _ => None)
    case _ => None
  }

  // The index a definition record names, if the record is one.
  function Defined(row: Json): Option<Option<int>>
    requires row.Obj?
  {
    match Get(row, "def")
    case None => Some(None)
    case Some(def) =>
      match Get(def, "name")
      case Some(Int(n)) => Some(Some(n))
      case _ => None
  }

  function ScanRow(row: Json, length: nat, s: Scan): Option<Scan> {
    if !row.Obj? then None
    else
      var names :- AddName(row, s.names);
      var defined :- Defined(row);
      var offset := s.offset + length;
      if defined.Some? && defined.value in names && names[defined.value] == Goal then
        if s.boundary == None then Some(Scan(names, offset, Some(offset))) else None
      else Some(Scan(names, offset, s.boundary))
  }

  function ScanLine(lib: Library, line: bytes, s: Scan): Option<Scan> {
    if !EndsLine(line) then None
    else
      var row :- StrictJson(lib, line, MAX_EXPORT);
      ScanRow(row, |line|, s)
  }

  // ---- The whole export ----

  function ScanLines(lib: Library, lines: seq<bytes>, s: Scan): Option<Scan> {
    if lines == [] then Some(s)
    else
      var s' :- ScanLine(lib, lines[0], s);
      ScanLines(lib, lines[1..], s')
  }

  function Boundary(lib: Library, exported: bytes): Option<nat> {
    var s :- ScanLines(lib, SplitLines(exported), START);
    s.boundary
  }

  method GoalBoundary(lib: Library, exported: bytes) returns (r: Option<nat>)
    ensures r == Boundary(lib, exported)
  {
    var names: map<int, NameState>, offset: nat := map[0 := Root], 0;
    var boundary: Option<nat> := None;
    var lines := SplitLines(exported);
    ghost var whole := ScanLines(lib, lines, START);
    for k := 0 to |lines|
      invariant whole == ScanLines(lib, lines[k..], Scan(names, offset, boundary))
    {
      var line := lines[k];
      assert lines[k..][1..] == lines[k + 1..];
      if !EndsLine(line) { return None; }
      var row := StrictJson(lib, line, MAX_EXPORT);
      if row == None || !row.value.Obj? { return None; }
      offset := offset + |line|;
      var added := AddName(row.value, names);
      if added == None { return None; }
      names := added.value;
      var defined := Defined(row.value);
      if defined == None { return None; }
      if defined.value.Some? {
        var name := defined.value.value;
        if name in names && names[name] == Goal {
          if boundary.Some? { return None; }
          boundary := Some(offset);
        }
      }
    }
    return boundary;
  }

  // ---- Stability under cutting ----

  lemma {:induction false} ScanConcat(lib: Library, a: seq<bytes>, b: seq<bytes>, s: Scan)
    ensures ScanLines(lib, a + b, s) ==
            var first := ScanLines(lib, a, s);
            if first.Some? then ScanLines(lib, b, first.value) else None
  {
    if a == [] {
      assert a + b == b;
    } else {
      assert (a + b)[1..] == a[1..] + b;
      var s' := ScanLine(lib, a[0], s);
      if s'.Some? { ScanConcat(lib, a[1..], b, s'.value); }
    }
  }

  // A scan that succeeds counts every byte, reads only newline-ended records and
  // never forgets a boundary.
  lemma {:induction false} ScanProgress(lib: Library, lines: seq<bytes>, s: Scan)
    requires ScanLines(lib, lines, s).Some?
    ensures var t := ScanLines(lib, lines, s).value;
            && t.offset == s.offset + |Flatten(lines)|
            && (s.boundary.Some? ==> t.boundary == s.boundary)
            && (s.boundary == None && t.boundary.Some? ==> s.offset < t.boundary.value <= t.offset)
    ensures forall i | 0 <= i < |lines| :: EndsLine(lines[i])
  {
    if lines != [] {
      ScanProgress(lib, lines[1..], ScanLine(lib, lines[0], s).value);
      assert forall i | 0 < i < |lines| :: lines[i] == lines[1..][i - 1];
    }
  }

  // The record that ends at the boundary.
  lemma {:induction false} BoundaryRecord(lib: Library, lines: seq<bytes>, s: Scan) returns (k: nat)
    requires ScanLines(lib, lines, s).Some? && s.boundary == None
    requires ScanLines(lib, lines, s).value.boundary.Some?
    ensures 0 < k <= |lines|
    ensures var b := ScanLines(lib, lines, s).value.boundary.value;
            && b == s.offset + |Flatten(lines[..k])|
            && ScanLines(lib, lines[..k], s).Some?
            && ScanLines(lib, lines[..k], s).value.boundary == Some(b)
  {
    var s' := ScanLine(lib, lines[0], s).value;
    if s'.boundary.Some? {
      k := 1;
      ScanProgress(lib, lines[1..], s');
      assert lines[..1] == [lines[0]];
      assert Flatten([lines[0]]) == lines[0] + Flatten([]);
      assert lines[..1][1..] == [];
    } else {
      k := BoundaryRecord(lib, lines[1..], s');
      k := k + 1;
      assert lines[..k][1..] == lines[1..][..k - 1];
      assert Flatten(lines[..k]) == lines[0] + Flatten(lines[..k][1..]);
    }
  }

  lemma BoundaryAtNewline(lib: Library, e: bytes)
    requires Boundary(lib, e).Some?
    ensures var b := Boundary(lib, e).value; 0 < b <= |e| && e[b - 1] == NEWLINE
  {
    var lines := SplitLines(e);
    var k := BoundaryRecord(lib, lines, START);
    ScanProgress(lib, lines[..k], START);
    var last := lines[..k][k - 1];
    assert EndsLine(last);
    assert lines == lines[..k] + lines[k..] && lines[..k] == lines[..k - 1] + [last];
    FlattenConcat(lines[..k], lines[k..]);
    FlattenConcat(lines[..k - 1], [last]);
    assert Flatten([last]) == last;
    LinesJoin(e);
    assert e == Flatten(lines[..k - 1]) + last + Flatten(lines[k..]);
  }

  // What the scan says about every prefix of an accepted export: a prefix is
  // accepted exactly when it is made of whole records and reaches the boundary,
  // and then its boundary is the same.
  lemma PrefixBoundary(lib: Library, e: bytes, k: nat)
    requires Boundary(lib, e).Some? && k <= |e|
    ensures var b := Boundary(lib, e).value;
            Boundary(lib, e[..k]) == if 0 < b <= k && e[k - 1] == NEWLINE then Some(b) else None
  {
    var front := e[..k];
    var head := ScanLines(lib, SplitLines(front), START);
    BoundaryAtNewline(lib, e);
    if k > 0 && e[k - 1] != NEWLINE {
      LastLine(front);
      if head.Some? { ScanProgress(lib, SplitLines(front), START); }
    } else if k > 0 {
      SplitAtNewline(front, e[k..]);
      assert front + e[k..] == e;
      ScanConcat(lib, SplitLines(front), SplitLines(e[k..]), START);
      ScanProgress(lib, SplitLines(front), START);
      ScanProgress(lib, SplitLines(e[k..]), head.value);
      LinesJoin(front);
    }
  }

  // The goal package e[..b] is a sequence of complete records whose own boundary
  // is its end.
  lemma BoundaryStable(lib: Library, e: bytes)
    requires Boundary(lib, e).Some?
    ensures var b := Boundary(lib, e).value;
            && 0 < b <= |e| && Boundary(lib, e[..b]) == Some(b)
            && forall line | line in SplitLines(e[..b]) :: EndsLine(line)
  {
    BoundaryAtNewline(lib, e);
    var b := Boundary(lib, e).value;
    PrefixBoundary(lib, e, b);
    ScanProgress(lib, SplitLines(e[..b]), START);
  }
}
