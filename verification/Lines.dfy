// bytes.splitlines(keepends=True): lines end at a newline, a return, or a return
// followed by a newline.
module Lines {
  import opened Bytes

  function FirstLine(s: bytes): (n: nat)
    requires s != []
    ensures 0 < n <= |s|
  {
    if s[0] == NEWLINE then 1
    else if s[0] == RETURN then (if |s| > 1 && s[1] == NEWLINE then 2 else 1)
    else if |s| == 1 then 1
    else 1 + FirstLine(s[1..])
  }

  function SplitLines(s: bytes): seq<bytes> {
    if s == [] then [] else [s[..FirstLine(s)]] + SplitLines(s[FirstLine(s)..])
  }

  predicate EndsLine(s: bytes) {
    s != [] && s[|s| - 1] == NEWLINE
  }

  lemma {:induction false} LinesJoin(s: bytes)
    ensures Flatten(SplitLines(s)) == s
  {
    if s != [] {
      var n := FirstLine(s);
      LinesJoin(s[n..]);
      assert s == s[..n] + s[n..];
    }
  }

  lemma {:induction false} FirstLineStays(a: bytes, b: bytes)
    requires EndsLine(a)
    ensures FirstLine(a + b) == FirstLine(a)
  {
    if |a| > 1 {
      assert (a + b)[1..] == a[1..] + b;
      FirstLineStays(a[1..], b);
    }
  }

  // Cutting after a newline cuts between lines.
  lemma {:induction false} SplitAtNewline(a: bytes, b: bytes)
    requires a == [] || EndsLine(a)
    ensures SplitLines(a + b) == SplitLines(a) + SplitLines(b)
    decreases |a|
  {
    if a == [] {
      assert a + b == b;
    } else {
      var n := FirstLine(a);
      FirstLineStays(a, b);
      assert (a + b)[..n] == a[..n];
      assert (a + b)[n..] == a[n..] + b;
      SplitAtNewline(a[n..], b);
    }
  }

  lemma {:induction false} LastLine(s: bytes)
    requires s != []
    ensures var lines := SplitLines(s);
            lines != [] && (EndsLine(lines[|lines| - 1]) <==> EndsLine(s))
  {
    var n := FirstLine(s);
    if n < |s| {
      LastLine(s[n..]);
    } else {
      assert s[..n] == s && SplitLines(s[n..]) == [];
    }
  }

  // ---- Where lines end ----

  // A line ends behind byte i: it is a newline, or a return without one behind it.
  predicate Breaks(s: bytes, i: nat) {
    i < |s| && (s[i] == 10 || (s[i] == 13 && !(i + 1 < |s| && s[i + 1] == 10)))
  }

  function CutAt(lines: seq<bytes>, k: nat): nat
    requires k <= |lines|
  {
    |Flatten(lines[..k])|
  }

  // The lines are cut at i.
  predicate IsCut(lines: seq<bytes>, i: nat) {
    exists k | 0 <= k <= |lines| :: CutAt(lines, k) == i
  }

  lemma {:induction false} FirstLineExactly(s: bytes)
    requires s != []
    ensures FirstLine(s) == |s| || Breaks(s, FirstLine(s) - 1)
    ensures forall i: nat | i + 1 < FirstLine(s) :: !Breaks(s, i)
  {
    if s[0] != NEWLINE && s[0] != RETURN && |s| > 1 {
      var rest := s[1..];
      FirstLineExactly(rest);
      assert forall i: nat :: Breaks(rest, i) <==> Breaks(s, i + 1);
      forall i: nat | i + 1 < FirstLine(s) ensures !Breaks(s, i) {
        if i > 0 { assert !Breaks(rest, i - 1); }
      }
    }
  }

  lemma CutsBehind(line: bytes, rest: seq<bytes>, i: nat)
    requires line != []
    ensures IsCut([line] + rest, i) <==> i == 0 || (i >= |line| && IsCut(rest, i - |line|))
  {
    var lines := [line] + rest;
    assert CutAt(lines, 0) == 0;
    forall k | 0 <= k <= |rest| ensures CutAt(lines, k + 1) == |line| + CutAt(rest, k) {
      assert lines[..k + 1] == [line] + rest[..k];
      assert ([line] + rest[..k])[1..] == rest[..k];
    }
    if IsCut(lines, i) && i > 0 {
      var k :| 0 <= k <= |lines| && CutAt(lines, k) == i;
      assert CutAt(rest, k - 1) == i - |line|;
    }
    if i >= |line| && IsCut(rest, i - |line|) {
      var k :| 0 <= k <= |rest| && CutAt(rest, k) == i - |line|;
      assert CutAt(lines, k + 1) == i;
    }
  }

  // The lines are cut exactly where one ends, and where the bytes do.
  lemma {:induction false} CutsExactly(s: bytes, i: nat)
    requires 0 < i < |s|
    ensures IsCut(SplitLines(s), i) <==> Breaks(s, i - 1)
    decreases |s|
  {
    var n := FirstLine(s);
    var line, rest := s[..n], s[n..];
    FirstLineExactly(s);
    CutsBehind(line, SplitLines(rest), i);
    if i == n {
      assert CutAt(SplitLines(rest), 0) == 0;
    } else if i > n {
      CutsExactly(rest, i - n);
      assert Breaks(rest, i - n - 1) <==> Breaks(s, i - 1);
    }
  }
}
