// inventory.py, lines 55-73: searching a file chunk by chunk, with the last bytes
// of each block carried into the next.
module ChunkScan {
  import opened Options
  import opened Sequences
  import opened Bytes

  const CARRY: nat := 1024

  function LastBytes(s: bytes, n: nat): bytes {
    if |s| <= n then s else s[|s| - n..]
  }

  // What the patterns are tried on: each chunk behind the carried bytes.
  function Blocks(carry: bytes, chunks: seq<bytes>): (blocks: seq<bytes>)
    ensures |blocks| == |chunks|
    decreases |chunks|
  {
    if chunks == [] then []
    else
      var block := carry + chunks[0];
      [block] + Blocks(LastBytes(block, CARRY), chunks[1..])
  }

  // A compiled pattern: whether it matches a stretch, given the byte before it and the
  // byte behind it, where there is one.
  type Pattern = (Option<byte>, bytes, Option<byte>) -> bool

  function Before(s: bytes, i: nat): Option<byte>
    requires i <= |s|
  {
    if i == 0 then None else Some(s[i - 1])
  }

  function Behind(s: bytes, j: nat): Option<byte>
    requires j <= |s|
  {
    if j == |s| then None else Some(s[j])
  }

  predicate MatchAt(q: Pattern, s: bytes, i: nat, j: nat) {
    i < j <= |s| && q(Before(s, i), s[i..j], Behind(s, j))
  }

  // pattern.search(s).
  predicate Search(q: Pattern, s: bytes) {
    exists i, j | 0 <= i < j <= |s| :: MatchAt(q, s, i, j)
  }

  // The strict patterns, the last pattern, and what the latter captures, as findall
  // gives it.
  datatype Patterns = Patterns(strict: seq<Pattern>, assignment: Pattern, values: bytes -> seq<bytes>)

  predicate Strict(p: Patterns, block: bytes) {
    exists n | 0 <= n < |p.strict| :: Search(p.strict[n], block)
  }

  predicate Suspicious(p: Patterns, block: bytes) {
    Strict(p, block) || Search(p.assignment, block)
  }

  // A suspicious block that holds nothing but the published development phrase.
  predicate Harmless(p: Patterns, known: bytes, block: bytes) {
    && !Strict(p, block)
    && p.values(block) != []
    && forall v | v in p.values(block) :: v == known
  }

  method ScanFile(p: Patterns, known: bytes, chunks: seq<bytes>)
    returns (suspected: bool, onlyPublic: bool, digested: bytes)
    ensures digested == Flatten(chunks)
    ensures suspected <==> exists block | block in Blocks([], chunks) :: Suspicious(p, block)
    ensures onlyPublic <==>
            forall block | block in Blocks([], chunks) && Suspicious(p, block) :: Harmless(p, known, block)
  {
    digested, suspected, onlyPublic := [], false, true;
    var carry: bytes := [];
    ghost var blocks := Blocks([], chunks);
    for k := 0 to |chunks|
      invariant digested == Flatten(chunks[..k])
      invariant |blocks| == |chunks| && blocks[k..] == Blocks(carry, chunks[k..])
      invariant suspected <==> exists i | 0 <= i < k :: Suspicious(p, blocks[i])
      invariant onlyPublic <==> forall i | 0 <= i < k && Suspicious(p, blocks[i]) :: Harmless(p, known, blocks[i])
    {
      var part := chunks[k];
      assert chunks[..k + 1] == chunks[..k] + [part];
      FlattenConcat(chunks[..k], [part]);
      assert Flatten([part]) == part;
      digested := digested + part;
      var block := carry + part;
      assert chunks[k..][1..] == chunks[k + 1..];
      assert blocks[k] == blocks[k..][0] == block;
      assert blocks[k + 1..] == blocks[k..][1..];
      if Suspicious(p, block) {
        suspected := true;
        if !Harmless(p, known, block) { onlyPublic := false; }
      }
      carry := LastBytes(block, CARRY);
    }
    assert chunks[..|chunks|] == chunks;
  }

  // ---- Where the blocks lie in the file ----

  // Bytes of the file before chunk k.
  function Offset(chunks: seq<bytes>, k: nat): nat
    requires k <= |chunks|
  {
    |Flatten(chunks[..k])|
  }

  // Block k runs from here to the end of chunk k.
  function Start(chunks: seq<bytes>, k: nat): nat
    requires k <= |chunks|
  {
    if Offset(chunks, k) <= CARRY then 0 else Offset(chunks, k) - CARRY
  }

  lemma OffsetStep(chunks: seq<bytes>, k: nat)
    requires k < |chunks|
    ensures Offset(chunks, k + 1) == Offset(chunks, k) + |chunks[k]|
  {
    FlattenConcat(chunks[..k], [chunks[k]]);
    assert chunks[..k + 1] == chunks[..k] + [chunks[k]];
    assert Flatten([chunks[k]]) == chunks[k];
  }

  lemma PrefixLength(chunks: seq<bytes>, k: nat)
    requires k <= |chunks|
    ensures |Flatten(chunks[..k])| <= |Flatten(chunks)|
  {
    FlattenConcat(chunks[..k], chunks[k..]);
    assert chunks[..k] + chunks[k..] == chunks;
  }

  lemma OffsetsGrow(chunks: seq<bytes>, j: nat, k: nat)
    requires j <= k <= |chunks|
    ensures Offset(chunks, j) <= Offset(chunks, k) <= |Flatten(chunks)|
  {
    PrefixLength(chunks, k);
    PrefixLength(chunks[..k], j);
    assert chunks[..k][..j] == chunks[..j];
  }

  lemma CarriedOver(before: bytes, chunk: bytes)
    ensures LastBytes(LastBytes(before, CARRY) + chunk, CARRY) == LastBytes(before + chunk, CARRY)
  {
  }

  // Block k ends the file read so far: the bytes up to the end of chunk k, cut to
  // the last CARRY of them before it.
  lemma {:induction false} BlockEndsPrefix(before: bytes, chunks: seq<bytes>, k: nat)
    requires k < |chunks|
    ensures Blocks(LastBytes(before, CARRY), chunks)[k]
            == LastBytes(before + Flatten(chunks[..k]), CARRY) + chunks[k]
    decreases k
  {
    if k == 0 {
      assert before + Flatten(chunks[..0]) == before;
    } else {
      var next := before + chunks[0];
      CarriedOver(before, chunks[0]);
      BlockEndsPrefix(next, chunks[1..], k - 1);
      assert chunks[..k][0] == chunks[0] && chunks[..k][1..] == chunks[1..][..k - 1];
      Regroup(before, chunks[0], Flatten(chunks[1..][..k - 1]));
    }
  }

  lemma {:induction false} BlockIsFactor(chunks: seq<bytes>, k: nat)
    requires k < |chunks|
    ensures Start(chunks, k) <= Offset(chunks, k + 1) <= |Flatten(chunks)|
    ensures Blocks([], chunks)[k] == Flatten(chunks)[Start(chunks, k)..Offset(chunks, k + 1)]
  {
    var head, chunk, rest := Flatten(chunks[..k]), chunks[k], Flatten(chunks[k + 1..]);
    BlockEndsPrefix([], chunks, k);
    assert LastBytes([], CARRY) == [] && [] + head == head;
    OffsetStep(chunks, k);
    assert chunks[k..][0] == chunk && chunks[k..][1..] == chunks[k + 1..];
    assert chunks == chunks[..k] + chunks[k..];
    FlattenConcat(chunks[..k], chunks[k..]);
    assert Flatten(chunks) == head + (chunk + rest);
  }

  // The chunk that holds byte p.
  lemma ChunkHolding(chunks: seq<bytes>, p: nat) returns (k: nat)
    requires p < |Flatten(chunks)|
    ensures k < |chunks| && Offset(chunks, k) <= p < Offset(chunks, k + 1)
  {
    assert chunks[..0] == [] && chunks[..|chunks|] == chunks;
    k := 0;
    while Offset(chunks, k + 1) <= p
      invariant k < |chunks| && Offset(chunks, k) <= p
      decreases |chunks| - k
    {
      k := k + 1;
    }
  }

  // ---- Which stretches of the file some block shows whole ----

  predicate Shown(chunks: seq<bytes>, i: nat, j: nat) {
    exists k: nat | k < |chunks| :: Start(chunks, k) <= i && j <= Offset(chunks, k + 1)
  }

  // A stretch is shown exactly when it begins at most 1024 bytes before the
  // chunk that holds its last byte.
  lemma ShownExactly(chunks: seq<bytes>, i: nat, j: nat, k: nat)
    requires i < j <= |Flatten(chunks)|
    requires k < |chunks| && Offset(chunks, k) < j <= Offset(chunks, k + 1)
    ensures Shown(chunks, i, j) <==> Offset(chunks, k) <= i + 1024
  {
    if Shown(chunks, i, j) {
      var m: nat :| m < |chunks| && Start(chunks, m) <= i && j <= Offset(chunks, m + 1);
      if m < k { OffsetsGrow(chunks, m + 1, k); } else { OffsetsGrow(chunks, k, m); }
    }
    if Offset(chunks, k) <= i + CARRY {
      assert Start(chunks, k) <= i;
    }
  }

  // However the file is cut, no stretch of up to 1025 bytes falls between blocks.
  lemma ShortStretchesShown(chunks: seq<bytes>, i: nat, j: nat)
    requires i < j <= |Flatten(chunks)| && j - i <= 1025
    ensures Shown(chunks, i, j)
  {
    var k := ChunkHolding(chunks, j - 1);
    ShownExactly(chunks, i, j, k);
  }

  // ---- What a search finds ----

  // Some stretch of s, of at most `longest` bytes, is accepted.
  predicate Occurs(accepts: bytes -> bool, longest: nat, s: bytes) {
    exists i, j | 0 <= i < j <= |s| && j - i <= longest :: accepts(s[i..j])
  }

  predicate Found(accepts: bytes -> bool, longest: nat, chunks: seq<bytes>) {
    exists block | block in Blocks([], chunks) :: Occurs(accepts, longest, block)
  }

  lemma OccursInFactor(accepts: bytes -> bool, longest: nat, s: bytes, from: nat, to: nat)
    requires from <= to <= |s| && Occurs(accepts, longest, s[from..to])
    ensures Occurs(accepts, longest, s)
  {
    var block := s[from..to];
    var i, j :| 0 <= i < j <= |block| && j - i <= longest && accepts(block[i..j]);
    SliceOfSlice(s, from, to, i, j);
    var k, l := from + i, from + j;
    assert accepts(s[k..l]);
  }

  // Nothing is found that the file does not hold, whatever the length.
  lemma FoundOccurs(accepts: bytes -> bool, longest: nat, chunks: seq<bytes>)
    requires Found(accepts, longest, chunks)
    ensures Occurs(accepts, longest, Flatten(chunks))
  {
    var block :| block in Blocks([], chunks) && Occurs(accepts, longest, block);
    var k: nat :| k < |chunks| && Blocks([], chunks)[k] == block;
    BlockIsFactor(chunks, k);
    OccursInFactor(accepts, longest, Flatten(chunks), Start(chunks, k), Offset(chunks, k + 1));
  }

  lemma ShownIsFound(accepts: bytes -> bool, longest: nat, chunks: seq<bytes>, i: nat, j: nat)
    requires i < j <= |Flatten(chunks)| && j - i <= longest && accepts(Flatten(chunks)[i..j])
    requires Shown(chunks, i, j)
    ensures Found(accepts, longest, chunks)
  {
    var k: nat :| k < |chunks| && Start(chunks, k) <= i && j <= Offset(chunks, k + 1);
    BlockIsFactor(chunks, k);
    var start, block := Start(chunks, k), Blocks([], chunks)[k];
    assert block[i - start..j - start] == Flatten(chunks)[i..j];
    assert Occurs(accepts, longest, block);
    assert block in Blocks([], chunks);
  }

  // The scan answers as a search of the whole file would, for every search whose
  // matches have at most 1025 bytes, and every cut.
  lemma ScanIsComplete(accepts: bytes -> bool, longest: nat, chunks: seq<bytes>)
    requires longest <= 1025
    ensures Found(accepts, longest, chunks) <==> Occurs(accepts, longest, Flatten(chunks))
  {
    var file := Flatten(chunks);
    if Occurs(accepts, longest, file) {
      var i, j :| 0 <= i < j <= |file| && j - i <= longest && accepts(file[i..j]);
      ShortStretchesShown(chunks, i, j);
      ShownIsFound(accepts, longest, chunks, i, j);
    }
    if Found(accepts, longest, chunks) {
      FoundOccurs(accepts, longest, chunks);
    }
  }

  // ---- Patterns that look at their neighbours ----

  // Stretch [i..j) of the file lies in block k and matches there, with the neighbours
  // that the block shows: none at its edges.
  ghost predicate SeenAt(q: Pattern, chunks: seq<bytes>, k: nat, i: nat, j: nat) {
    && k < |chunks| && Start(chunks, k) <= i < j <= Offset(chunks, k + 1) <= |Flatten(chunks)|
    && var file := Flatten(chunks);
       q(if i == Start(chunks, k) then None else Some(file[i - 1]), file[i..j],
         if j == Offset(chunks, k + 1) then None else Some(file[j]))
  }

  // A match that a cut makes: at an edge of block k that is no end of the file, where the
  // pattern takes the byte behind the edge for missing.
  ghost predicate CutAt(q: Pattern, chunks: seq<bytes>, k: nat, i: nat, j: nat) {
    && k < |chunks| && Start(chunks, k) <= i < j <= Offset(chunks, k + 1) <= |Flatten(chunks)|
    && var file := Flatten(chunks);
       var left, right := i == Start(chunks, k) && i > 0, j == Offset(chunks, k + 1) && j < |file|;
       (left || right)
       && q(if left || i == 0 then None else Some(file[i - 1]), file[i..j],
            if right || j == |file| then None else Some(file[j]))
  }

  // The neighbours in a factor are those of the whole, but for its edges.
  lemma FactorMatch(q: Pattern, s: bytes, from: nat, to: nat, i: nat, j: nat)
    requires from <= i < j <= to <= |s|
    ensures MatchAt(q, s[from..to], i - from, j - from) <==>
            q(if i == from then None else Before(s, i), s[i..j], if j == to then None else Behind(s, j))
  {
    SliceOfSlice(s, from, to, i - from, j - from);
  }

  ghost predicate Seen(q: Pattern, chunks: seq<bytes>) {
    exists k: nat, i: nat, j: nat :: SeenAt(q, chunks, k, i, j)
  }

  lemma {:induction false} BlockSearch(q: Pattern, chunks: seq<bytes>, k: nat)
    requires k < |chunks|
    ensures Search(q, Blocks([], chunks)[k]) <==> exists i: nat, j: nat :: SeenAt(q, chunks, k, i, j)
  {
    BlockIsFactor(chunks, k);
    var file, from, to := Flatten(chunks), Start(chunks, k), Offset(chunks, k + 1);
    var block := file[from..to];
    if Search(q, block) {
      var i, j :| 0 <= i < j <= |block| && MatchAt(q, block, i, j);
      FactorMatch(q, file, from, to, from + i, from + j);
      assert SeenAt(q, chunks, k, from + i, from + j);
    }
    if i: nat, j: nat :| SeenAt(q, chunks, k, i, j) {
      FactorMatch(q, file, from, to, i, j);
      assert MatchAt(q, block, i - from, j - from);
    }
  }

  // What the scan finds, for any pattern and any cut: the matches seen in blocks.
  lemma FoundExactly(q: Pattern, chunks: seq<bytes>)
    ensures (exists block | block in Blocks([], chunks) :: Search(q, block)) <==> Seen(q, chunks)
  {
    if block :| block in Blocks([], chunks) && Search(q, block) {
      var k: nat :| k < |chunks| && Blocks([], chunks)[k] == block;
      BlockSearch(q, chunks, k);
    }
    if Seen(q, chunks) {
      var k: nat, i: nat, j: nat :| SeenAt(q, chunks, k, i, j);
      BlockSearch(q, chunks, k);
      assert Blocks([], chunks)[k] in Blocks([], chunks);
    }
  }

  // A match of the file with its neighbours inside a block is seen there.
  lemma ShownIsSeen(q: Pattern, chunks: seq<bytes>, i: nat, j: nat)
    requires MatchAt(q, Flatten(chunks), i, j)
    requires Shown(chunks, if i == 0 then 0 else i - 1, if j == |Flatten(chunks)| then j else j + 1)
    ensures Seen(q, chunks)
  {
    var file := Flatten(chunks);
    var first, last := if i == 0 then 0 else i - 1, if j == |file| then j else j + 1;
    var k: nat :| k < |chunks| && Start(chunks, k) <= first && last <= Offset(chunks, k + 1);
    BlockIsFactor(chunks, k);
    assert SeenAt(q, chunks, k, i, j);
  }

  // No match of up to 1023 bytes is missed, whatever the pattern and the cut.
  lemma ShortMatchesSeen(q: Pattern, chunks: seq<bytes>, i: nat, j: nat)
    requires MatchAt(q, Flatten(chunks), i, j) && j - i <= 1023
    ensures Seen(q, chunks)
  {
    var file := Flatten(chunks);
    ShortStretchesShown(chunks, if i == 0 then 0 else i - 1, if j == |file| then j else j + 1);
    ShownIsSeen(q, chunks, i, j);
  }

  // What is seen is a match of the file or one that a cut makes.
  lemma SeenExactly(q: Pattern, chunks: seq<bytes>, k: nat, i: nat, j: nat)
    ensures SeenAt(q, chunks, k, i, j) ==> MatchAt(q, Flatten(chunks), i, j) || CutAt(q, chunks, k, i, j)
    ensures CutAt(q, chunks, k, i, j) ==> SeenAt(q, chunks, k, i, j)
  {
  }

  // A file without a match raises a false alarm exactly when a block edge inside it cuts
  // off the neighbour that rules a match out.
  lemma FalseAlarmExactly(q: Pattern, chunks: seq<bytes>)
    requires !Search(q, Flatten(chunks))
    ensures Seen(q, chunks) <==> exists k: nat, i: nat, j: nat :: CutAt(q, chunks, k, i, j)
  {
    forall k: nat, i: nat, j: nat {
      SeenExactly(q, chunks, k, i, j);
    }
  }

  // All patterns of the scan.
  function Secrets(p: Patterns): seq<Pattern> {
    p.strict + [p.assignment]
  }

  // The flag that ScanFile raises: raised exactly for a match seen in a block, and
  // so for every file with a match of up to 1023 bytes.
  lemma FlagExactly(p: Patterns, chunks: seq<bytes>)
    ensures (exists block | block in Blocks([], chunks) :: Suspicious(p, block)) <==>
            exists n | 0 <= n < |Secrets(p)| :: Seen(Secrets(p)[n], chunks)
    ensures forall n, i: nat, j: nat |
              0 <= n < |Secrets(p)| && MatchAt(Secrets(p)[n], Flatten(chunks), i, j) && j - i <= 1023 ::
              Seen(Secrets(p)[n], chunks)
  {
    var blocks, all := Blocks([], chunks), Secrets(p);
    forall block ensures Suspicious(p, block) <==> exists n | 0 <= n < |all| :: Search(all[n], block) {
      assert all[|p.strict|] == p.assignment;
      assert forall n | 0 <= n < |p.strict| :: all[n] == p.strict[n];
    }
    if block :| block in blocks && Suspicious(p, block) {
      var n :| 0 <= n < |all| && Search(all[n], block);
      FoundExactly(all[n], chunks);
    }
    if n :| 0 <= n < |all| && Seen(all[n], chunks) {
      FoundExactly(all[n], chunks);
      var block :| block in blocks && Search(all[n], block);
      assert Suspicious(p, block);
    }
    forall n, i: nat, j: nat |
      0 <= n < |all| && MatchAt(all[n], Flatten(chunks), i, j) && j - i <= 1023
      ensures Seen(all[n], chunks)
    {
      ShortMatchesSeen(all[n], chunks, i, j);
    }
  }

  // In block k, or in none.
  ghost predicate SeenIn(q: Pattern, chunks: seq<bytes>, k: nat) {
    exists i: nat, j: nat :: SeenAt(q, chunks, k, i, j)
  }

  // In block k one of the patterns is seen, but none of the strict ones, and all that the
  // last pattern captures there is the known phrase, at least once.
  ghost predicate PublicIn(p: Patterns, known: bytes, chunks: seq<bytes>, k: nat) {
    && k < |chunks| && Start(chunks, k) <= Offset(chunks, k + 1) <= |Flatten(chunks)|
    && (forall n | 0 <= n < |p.strict| :: !SeenIn(p.strict[n], chunks, k))
    && var captured := p.values(Flatten(chunks)[Start(chunks, k)..Offset(chunks, k + 1)]);
       captured != [] && forall n | 0 <= n < |captured| :: captured[n] == known
  }

  lemma SeenInBlock(q: Pattern, chunks: seq<bytes>, k: nat)
    requires k < |chunks|
    ensures Search(q, Blocks([], chunks)[k]) <==> SeenIn(q, chunks, k)
  {
    BlockSearch(q, chunks, k);
  }

  lemma StrictInBlock(p: Patterns, chunks: seq<bytes>, k: nat)
    requires k < |chunks|
    ensures Strict(p, Blocks([], chunks)[k]) <==> exists n | 0 <= n < |p.strict| :: SeenIn(p.strict[n], chunks, k)
  {
    forall n | 0 <= n < |p.strict|
      ensures Search(p.strict[n], Blocks([], chunks)[k]) <==> SeenIn(p.strict[n], chunks, k)
    {
      SeenInBlock(p.strict[n], chunks, k);
    }
  }

  lemma CapturedKnown(captured: seq<bytes>, known: bytes)
    ensures (forall v | v in captured :: v == known) <==> forall n | 0 <= n < |captured| :: captured[n] == known
  {
    forall v | v in captured ensures exists n | 0 <= n < |captured| :: captured[n] == v {}
    assert forall n | 0 <= n < |captured| :: captured[n] in captured;
  }

  lemma BlockIsPublic(p: Patterns, known: bytes, chunks: seq<bytes>, k: nat)
    requires k < |chunks|
    ensures Harmless(p, known, Blocks([], chunks)[k]) <==> PublicIn(p, known, chunks, k)
  {
    BlockIsFactor(chunks, k);
    StrictInBlock(p, chunks, k);
    CapturedKnown(p.values(Blocks([], chunks)[k]), known);
  }

  lemma BlockIsSuspicious(p: Patterns, chunks: seq<bytes>, k: nat)
    requires k < |chunks|
    ensures Suspicious(p, Blocks([], chunks)[k]) <==>
            exists n | 0 <= n < |Secrets(p)| :: SeenIn(Secrets(p)[n], chunks, k)
  {
    var all := Secrets(p);
    assert all[|p.strict|] == p.assignment && forall n | 0 <= n < |p.strict| :: all[n] == p.strict[n];
    SeenInBlock(p.assignment, chunks, k);
    StrictInBlock(p, chunks, k);
  }

  // The other flag that ScanFile returns: every block in which something is seen shows the
  // known phrase alone.
  lemma OnlyPublicExactly(p: Patterns, known: bytes, chunks: seq<bytes>)
    ensures (forall block | block in Blocks([], chunks) && Suspicious(p, block) :: Harmless(p, known, block)) <==>
            forall k: nat | k < |chunks| && exists n | 0 <= n < |Secrets(p)| :: SeenIn(Secrets(p)[n], chunks, k) ::
              PublicIn(p, known, chunks, k)
  {
    var blocks, all := Blocks([], chunks), Secrets(p);
    forall k: nat | k < |chunks|
      ensures blocks[k] in blocks
      ensures Suspicious(p, blocks[k]) <==> exists n | 0 <= n < |all| :: SeenIn(all[n], chunks, k)
      ensures Harmless(p, known, blocks[k]) <==> PublicIn(p, known, chunks, k)
    {
      BlockIsSuspicious(p, chunks, k);
      BlockIsPublic(p, known, chunks, k);
    }
    assert forall block | block in blocks :: exists k: nat | k < |chunks| :: blocks[k] == block;
  }

  // ---- A false alarm ----

  // How much the scan reads at a time.
  const CHUNK: nat := 64 * 1024

  predicate IsUpperOrDigit(b: byte) {
    48 <= b <= 57 || 65 <= b <= 90
  }

  predicate IsWord(b: Option<byte>) {
    b.Some? && (IsUpperOrDigit(b.value) || 97 <= b.value <= 122 || b.value == 95)
  }

  // AKIA or ASIA and 16 capitals or digits.
  predicate IsKey(s: bytes) {
    && |s| == 20 && s[0] == 65 && s[1] in {75, 83} && s[2] == 73 && s[3] == 65
    && forall n | 4 <= n < 20 :: IsUpperOrDigit(s[n])
  }

  // The second strict pattern: such a key between two word boundaries.
  function KeyPattern(): Pattern {
    (before, stretch, behind) => IsKey(stretch) && !IsWord(before) && !IsWord(behind)
  }

  function Spaces(n: nat): bytes {
    seq(n, _ => 32)
  }

  // One full chunk with an x and a key in it; the key begins CARRY bytes before its end.
  function HiddenKey(key: bytes): bytes {
    Spaces(CHUNK - CARRY - 1) + ([120] + key) + Spaces(CARRY - 20)
  }

  lemma KeyIsWord(key: bytes, n: nat)
    requires IsKey(key) && n < 20
    ensures IsWord(Some(key[n]))
  {
  }

  // Behind an x there is no match.
  lemma HiddenKeyIsNone(key: bytes)
    requires IsKey(key)
    ensures !Search(KeyPattern(), HiddenKey(key) + [32])
  {
    var file, at := HiddenKey(key) + [32], CHUNK - CARRY - 1;
    forall i, j | 0 <= i < j <= |file| ensures !MatchAt(KeyPattern(), file, i, j) {
      if IsKey(file[i..j]) {
        KeyIsWord(file[i..j], 0);
        KeyIsWord(file[i..j], 19);
        assert file[i] == file[i..j][0] && file[i + 19] == file[i..j][19];
        assert file[at] == 120;
        assert i == at + 1;
      }
    }
  }

  lemma HiddenKeyCarried(key: bytes)
    requires |key| == 20
    ensures |HiddenKey(key)| == CHUNK && LastBytes([] + HiddenKey(key), CARRY) == key + Spaces(CARRY - 20)
  {
  }

  // The file that this chunk and one more space make holds no match. But the carry begins
  // with the key, so the second block shows one: a false alarm.
  lemma FalseAlarmExample(key: bytes)
    requires IsKey(key)
    ensures var chunks: seq<bytes> := [HiddenKey(key), [32]];
            && |chunks[0]| == 65536 && !Search(KeyPattern(), Flatten(chunks))
            && exists block | block in Blocks([], chunks) :: Search(KeyPattern(), block)
  {
    var first := HiddenKey(key);
    var chunks: seq<bytes> := [first, [32]];
    assert chunks[1..] == [[32]] && |chunks[1..][1..]| == 0;
    assert Flatten(chunks[1..]) == [32];
    assert Flatten(chunks) == first + [32];
    HiddenKeyIsNone(key);
    HiddenKeyCarried(key);
    var carried := key + Spaces(CARRY - 20);
    assert Blocks(carried, chunks[1..]) == [carried + [32]];
    assert Blocks([], chunks) == [[] + first] + Blocks(carried, chunks[1..]);
    assert (carried + [32])[0..20] == key && MatchAt(KeyPattern(), carried + [32], 0, 20);
    assert carried + [32] in Blocks([], chunks);
  }

  // ---- The bound is exact ----

  function Is(word: bytes): bytes -> bool {
    stretch => stretch == word
  }

  predicate Contains(s: bytes, word: bytes) {
    Occurs(Is(word), |word|, s)
  }

  predicate FoundWord(chunks: seq<bytes>, word: bytes) {
    Found(Is(word), |word|, chunks)
  }

  // A longer word cut before its last byte shows in neither block.
  lemma LongWordMissed(word: bytes)
    requires |word| > 1025
    ensures var cut: seq<bytes> := [word[..|word| - 1], word[|word| - 1..]];
            && Flatten(cut) == word
            && Contains(Flatten(cut), word)
            && !FoundWord(cut, word)
  {
    var n := |word| - 1;
    var cut: seq<bytes> := [word[..n], word[n..]];
    assert cut[1..] == [word[n..]] && |cut[1..][1..]| == 0;
    assert Flatten(cut[1..]) == word[n..];
    assert Flatten(cut) == word;
    assert word[0..|word|] == word;
    var carried := LastBytes([] + word[..n], CARRY);
    assert Blocks([], cut) == [[] + word[..n]] + Blocks(carried, cut[1..]);
    assert Blocks(carried, cut[1..]) == [carried + word[n..]];
    forall block | block in Blocks([], cut) ensures !Contains(block, word) {
      assert |block| < |word|;
    }
  }

  // A word is found in exactly the files that contain it, however they are cut,
  // if and only if it fits the carry and one byte more.
  lemma WordFoundIffItFits(word: bytes)
    requires word != []
    ensures (forall chunks: seq<bytes> :: FoundWord(chunks, word) <==> Contains(Flatten(chunks), word))
            <==> |word| <= 1025
  {
    if |word| <= 1025 {
      forall chunks: seq<bytes> ensures FoundWord(chunks, word) <==> Contains(Flatten(chunks), word) {
        ScanIsComplete(Is(word), |word|, chunks);
      }
    } else {
      LongWordMissed(word);
    }
  }
}
