// The proof guest and its checker: profiles/perf05/source/guest/src/main.rs and
// profiles/perf05/source/checker/src/lib.rs. A failed assertion or a short input
// aborts the guest, which then commits nothing.
module Guest {
  import opened Options
  import opened Bytes
  import opened Libraries
  import opened Requests

  const MAX_GUEST_EXPORT: nat := 16 * 1024 * 1024

  // What is compiled into one checker: its foundation, its profile tag, and the
  // verdicts of the Lean kernel, which this project does not look into.
  datatype Checker = Checker(
    foundation: bytes,
    tag: bytes,
    goalChecks: bytes -> bool,
    proofChecks: (bytes, nat) -> bool)

  // ---- The guest's input and the checks on it ----

  function WordAt(data: bytes, at: nat): nat
    requires at + 4 <= |data|
  {
    FromLittle(data[at..at + 4])
  }

  // The bytes behind the header, if each of the n words holds one byte.
  function ByteWords(data: bytes, n: nat): Option<bytes> {
    if n == 0 then Some([])
    else if |data| < 4 || WordAt(data, 0) > 255 then None
    else
      var rest :- ByteWords(data[4..], n - 1);
      Some([WordAt(data, 0)] + rest)
  }

  predicate HeaderOk(checker: Checker, goalLength: nat, outcome: nat, length: nat) {
    && outcome <= 2
    && length <= MAX_GUEST_EXPORT
    && |checker.foundation| <= goalLength <= length
    && (outcome == 0 ==> goalLength == length)
  }

  function GuestInput(checker: Checker, stdin: bytes): Option<(nat, nat, bytes)> {
    if |stdin| < 12 then None
    else
      var goalLength, outcome, length := WordAt(stdin, 0), WordAt(stdin, 4), WordAt(stdin, 8);
      if !HeaderOk(checker, goalLength, outcome, length) then None
      else
        var exported :- ByteWords(stdin[12..], length);
        Some((goalLength, outcome, exported))
  }

  // The asserts of check_with_trace that come before the Lean kernel.
  predicate Structured(checker: Checker, goalLength: nat, exported: bytes, outcome: nat) {
    && HeaderOk(checker, goalLength, outcome, |exported|)
    && checker.foundation <= exported
    && 0 < goalLength && exported[goalLength - 1] == NEWLINE
  }

  predicate LeanAccepts(checker: Checker, goalLength: nat, exported: bytes, outcome: nat)
    requires goalLength <= |exported|
  {
    checker.goalChecks(exported[..goalLength]) && (outcome != 0 ==> checker.proofChecks(exported, outcome))
  }

  // Domain, goal hash, profile hash and outcome, four 32-byte words.
  function Claim(lib: Library, checker: Checker, goal: bytes, outcome: nat): bytes {
    lib.sha256(Ascii(DOMAIN)) + lib.sha256(goal)
    + lib.sha256(checker.tag + lib.sha256(checker.foundation)) + Big(outcome, 32)
  }

  function CheckExport(lib: Library, checker: Checker, goalLength: nat, exported: bytes, outcome: nat): Option<bytes> {
    if Structured(checker, goalLength, exported, outcome) && LeanAccepts(checker, goalLength, exported, outcome)
    then Some(Claim(lib, checker, exported[..goalLength], outcome))
    else None
  }

  // The journal the guest commits on an input.
  function Committed(lib: Library, checker: Checker, stdin: bytes): Option<bytes> {
    var (goalLength, outcome, exported) :- GuestInput(checker, stdin);
    CheckExport(lib, checker, goalLength, exported, outcome)
  }

  // ---- The programs ----

  // env::read_slice: fills the buffer with the next little-endian words.
  method ReadSlice(stdin: bytes, at: nat, buffer: array<nat>) returns (ok: bool)
    modifies buffer
    ensures ok <==> at + 4 * buffer.Length <= |stdin|
    ensures ok ==> forall i | 0 <= i < buffer.Length :: buffer[i] == WordAt(stdin, at + 4 * i)
  {
    if at + 4 * buffer.Length > |stdin| { return false; }
    for i := 0 to buffer.Length
      invariant forall j | 0 <= j < i :: buffer[j] == WordAt(stdin, at + 4 * j)
    {
      buffer[i] := WordAt(stdin, at + 4 * i);
    }
    return true;
  }

  method CopyTo(journal: array<byte>, start: nat, part: bytes)
    requires start + |part| <= journal.Length
    modifies journal
    ensures forall k | 0 <= k < journal.Length ::
              journal[k] == if start <= k < start + |part| then part[k - start] else old(journal[k])
  {
    for i := 0 to |part|
      invariant forall k | 0 <= k < journal.Length ::
                  journal[k] == if start <= k < start + i then part[k - start] else old(journal[k])
    {
      journal[start + i] := part[i];
    }
  }

  lemma {:induction false} ZeroWord(width: nat)
    ensures Big(0, width) == seq<byte>(width, _ => 0)
  {
    if width > 0 { ZeroWord(width - 1); }
  }

  lemma OutcomeWord(outcome: byte)
    ensures Big(outcome, 32) == seq<byte>(31, _ => 0) + [outcome]
  {
    ZeroWord(31);
    assert outcome / 256 == 0 && outcome % 256 == outcome;
  }

  method FillJournal(lib: Library, checker: Checker, goal: bytes, outcome: byte, journal: array<byte>)
    requires journal.Length == 128 && forall k | 0 <= k < 128 :: journal[k] == 0
    modifies journal
    ensures journal[..] == Claim(lib, checker, goal, outcome)
  {
    var domain, goalHash := lib.sha256(Ascii(DOMAIN)), lib.sha256(goal);
    var profile := lib.sha256(checker.tag + lib.sha256(checker.foundation));
    CopyTo(journal, 0, domain);
    CopyTo(journal, 32, goalHash);
    CopyTo(journal, 64, profile);
    journal[127] := outcome;
    OutcomeWord(outcome);
    assert journal[..32] == domain;
    assert journal[32..64] == goalHash;
    assert journal[64..96] == profile;
    assert journal[96..] == seq<byte>(31, _ => 0) + [outcome];
    assert journal[..] == journal[..32] + journal[32..64] + journal[64..96] + journal[96..];
  }

  method CheckWithTrace(lib: Library, checker: Checker, goalLength: nat, exported: bytes, outcome: byte)
    returns (r: Option<bytes>)
    ensures r == CheckExport(lib, checker, goalLength, exported, outcome)
  {
    if outcome > 2 || |exported| > MAX_GUEST_EXPORT { return None; }
    if goalLength < |checker.foundation| || goalLength > |exported| { return None; }
    if !(checker.foundation <= exported) { return None; }
    if goalLength == 0 || exported[goalLength - 1] != NEWLINE { return None; }
    if outcome == 0 && goalLength != |exported| { return None; }
    if !checker.goalChecks(exported[..goalLength]) { return None; }
    if outcome != 0 && !checker.proofChecks(exported, outcome) { return None; }
    var journal := new byte[128](_ => 0);
    FillJournal(lib, checker, exported[..goalLength], outcome, journal);
    return Some(journal[..]);
  }

  lemma {:induction false} ByteWordsLength(data: bytes, n: nat)
    ensures ByteWords(data, n).Some? ==> 4 * n <= |data| && |ByteWords(data, n).value| == n
  {
    if n > 0 && |data| >= 4 { ByteWordsLength(data[4..], n - 1); }
  }

  // The guest's main on an input stream.
  method GuestMain(lib: Library, checker: Checker, stdin: bytes) returns (r: Option<bytes>)
    ensures r == Committed(lib, checker, stdin)
  {
    var header := new nat[3];
    var ok := ReadSlice(stdin, 0, header);
    if !ok { return None; }
    var goalLength, outcome, length := header[0], header[1], header[2];
    assert header[1] == WordAt(stdin, 4) && header[2] == WordAt(stdin, 8);
    if !HeaderOk(checker, goalLength, outcome, length) { return None; }
    var words := new nat[length];
    ok := ReadSlice(stdin, 12, words);
    if !ok {
      ByteWordsLength(stdin[12..], length);
      return None;
    }
    var exported: bytes := [];
    ghost var spec := ByteWords(stdin[12..], length);
    assert stdin[12..] == stdin[12 + 4 * 0..];
    assert spec.Some? ==> exported + spec.value == spec.value;
    for i := 0 to words.Length
      invariant words.Length == length && 12 + 4 * length <= |stdin|
      invariant forall k | 0 <= k < length :: words[k] == WordAt(stdin, 12 + 4 * k)
      invariant |exported| == i
      invariant var rest := ByteWords(stdin[12 + 4 * i..], length - i);
                if rest.Some? then spec == Some(exported + rest.value) else spec == None
    {
      ghost var rest := stdin[12 + 4 * i..];
      assert WordAt(rest, 0) == words[i] by { assert rest[0..4] == stdin[12 + 4 * i..12 + 4 * i + 4]; }
      assert rest[4..] == stdin[12 + 4 * (i + 1)..];
      if words[i] > 255 { return None; }
      ghost var left := ByteWords(rest[4..], length - (i + 1));
      assert left.Some? ==> exported + ([words[i]] + left.value) == exported + [words[i]] + left.value;
      exported := exported + [words[i]];
    }
    assert spec == Some(exported + []) && exported + [] == exported;
    r := CheckWithTrace(lib, checker, goalLength, exported, outcome);
  }
}
