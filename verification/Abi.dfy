// abi.encode(bytes, bytes), as run.py lines 26-31 write it, and the decoder that
// follows its offsets.
module Abi {
  import opened Options
  import opened Sequences
  import opened Bytes

  function Zeros(n: nat): (z: bytes)
    ensures |z| == n
  {
    seq(n, _ => 0)
  }

  function Padding(length: int): (p: nat)
    ensures p < 32 && (length + p) % 32 == 0
  {
    (-length) % 32
  }

  function Word(n: nat): (w: bytes)
    ensures |w| == 32
  {
    Big(n, 32)
  }

  function Dynamic(data: bytes): bytes {
    Word(|data|) + data + Zeros(Padding(|data|))
  }

  function AbiCertificate(seal: bytes, journal: bytes): bytes {
    var first := Dynamic(seal);
    Word(64) + Word(64 + |first|) + first + Dynamic(journal)
  }

  // ---- Decoding ----

  function WordAt(data: bytes, offset: nat): Option<nat> {
    if offset + 32 > |data| then None else Some(FromBig(data[offset..offset + 32]))
  }

  function BytesAt(data: bytes, offset: nat): Option<bytes> {
    var length :- WordAt(data, offset);
    var start := offset + 32;
    if start + length > |data| then None else Some(data[start..start + length])
  }

  function AbiDecode(data: bytes): Option<(bytes, bytes)> {
    var seal :- WordAt(data, 0);
    var journal :- WordAt(data, 32);
    var a :- BytesAt(data, seal);
    var b :- BytesAt(data, journal);
    Some((a, b))
  }

  // Lengths a 256-bit word can hold.
  predicate InRange(seal: bytes, journal: bytes) {
    |seal| + |journal| + 256 < Pow256(32)
  }

  lemma PowerOfWord()
    ensures 256 < Pow256(32)
  {
    assert Pow256(2) == 65536 && Pow256(32) == 65536 * Pow256(30);
  }

  lemma PaddedLength(n: nat)
    ensures (32 + n + Padding(n)) % 32 == 0
  {
  }

  lemma DynamicLength(data: bytes)
    ensures |Dynamic(data)| == 32 + |data| + Padding(|data|)
    ensures |Dynamic(data)| % 32 == 0
    ensures 256 < Pow256(32)
  {
    PowerOfWord();
    PaddedLength(|data|);
  }

  lemma WordOf(data: bytes, offset: nat, n: nat)
    requires offset + 32 <= |data| && data[offset..offset + 32] == Word(n) && n < Pow256(32)
    ensures WordAt(data, offset) == Some(n)
  {
    BigDecodes(n, 32);
  }

  lemma Middle(a: bytes, b: bytes, c: bytes)
    ensures (a + b + c)[|a|..|a| + |b|] == b
  {
  }

  lemma FiveParts(before: bytes, length: bytes, body: bytes, pad: bytes, behind: bytes)
    ensures var data := before + (length + body + pad) + behind;
            && data == before + length + (body + pad + behind)
            && data == (before + length) + body + (pad + behind)
  {
  }

  lemma DynamicAt(before: bytes, body: bytes, behind: bytes)
    requires |body| < Pow256(32)
    ensures BytesAt(before + Dynamic(body) + behind, |before|) == Some(body)
  {
    var length, pad := Word(|body|), Zeros(Padding(|body|));
    var data := before + (length + body + pad) + behind;
    FiveParts(before, length, body, pad, behind);
    Middle(before, length, body + pad + behind);
    WordOf(data, |before|, |body|);
    Middle(before + length, body, pad + behind);
  }

  // The output is a two-word head and two tails, and the head holds the offsets
  // of the tails.
  lemma AbiParts(seal: bytes, journal: bytes)
    requires InRange(seal, journal)
    ensures var data, second := AbiCertificate(seal, journal), 64 + |Dynamic(seal)|;
            && |data| == second + |Dynamic(journal)|
            && data[64..second] == Dynamic(seal)
            && data[second..] == Dynamic(journal)
            && WordAt(data, 0) == Some(64)
            && WordAt(data, 32) == Some(second)
  {
    var data, second := AbiCertificate(seal, journal), 64 + |Dynamic(seal)|;
    DynamicLength(seal);
    assert data[0..32] == Word(64);
    assert data[32..64] == Word(second);
    assert data[64..second] == Dynamic(seal);
    assert data[second..] == Dynamic(journal);
    WordOf(data, 0, 64);
    WordOf(data, 32, second);
  }

  // Following the two offsets gives back exactly the two byte strings.
  lemma AbiRoundTrip(seal: bytes, journal: bytes)
    requires InRange(seal, journal)
    ensures AbiDecode(AbiCertificate(seal, journal)) == Some((seal, journal))
  {
    var data, second := AbiCertificate(seal, journal), 64 + |Dynamic(seal)|;
    AbiParts(seal, journal);
    assert data == data[..64] + Dynamic(seal) + data[second..];
    DynamicAt(data[..64], seal, data[second..]);
    assert data == data[..second] + Dynamic(journal) + [];
    DynamicAt(data[..second], journal, []);
  }

  lemma AbiInjective(s1: bytes, j1: bytes, s2: bytes, j2: bytes)
    requires InRange(s1, j1) && InRange(s2, j2)
    requires AbiCertificate(s1, j1) == AbiCertificate(s2, j2)
    ensures s1 == s2 && j1 == j2
  {
    AbiRoundTrip(s1, j1);
    AbiRoundTrip(s2, j2);
  }

  lemma Aligned(first: nat, second: nat)
    requires first % 32 == 0 && second % 32 == 0
    ensures (64 + first) % 32 == 0 && (64 + first + second) % 32 == 0
  {
  }

  // The head's two offsets cut the rest of the output, with nothing left over,
  // into two word-aligned tails: each a length word, the bytes and zero padding.
  lemma AbiLayout(seal: bytes, journal: bytes)
    requires InRange(seal, journal)
    ensures var data := AbiCertificate(seal, journal);
            var first, second := WordAt(data, 0), WordAt(data, 32);
            && first == Some(64)
            && second.Some? && 64 <= second.value <= |data|
            && second.value % 32 == 0 && |data| % 32 == 0
            && data[64..second.value] == Dynamic(seal)
            && data[second.value..] == Dynamic(journal)
  {
    AbiParts(seal, journal);
    DynamicLength(seal);
    DynamicLength(journal);
    Aligned(|Dynamic(seal)|, |Dynamic(journal)|);
  }

  // Byte for byte: the offsets 64 and `second`, and at each of them a length word, the
  // bytes, and zeros up to the next multiple of 32.
  ghost predicate TailAt(data: bytes, at: nat, end: nat, body: bytes) {
    && at + 32 + |body| <= end <= |data| && end % 32 == 0 && end < at + 32 + |body| + 32
    && FromBig(data[at..at + 32]) == |body|
    && data[at + 32..at + 32 + |body|] == body
    && forall k | at + 32 + |body| <= k < end :: data[k] == 0
  }

  lemma PartsAt(data: bytes, at: nat, end: nat, a: bytes, b: bytes, c: bytes)
    requires at <= end <= |data| && data[at..end] == a + b + c
    ensures end == at + |a| + |b| + |c|
    ensures data[at..at + |a|] == a && data[at + |a|..at + |a| + |b|] == b && data[at + |a| + |b|..end] == c
  {
    var i, j, n := |a|, |a| + |b|, end - at;
    assert (a + b + c)[..i] == a && (a + b + c)[i..j] == b && (a + b + c)[j..n] == c;
    SliceOfSlice(data, at, end, 0, i);
    SliceOfSlice(data, at, end, i, j);
    SliceOfSlice(data, at, end, j, n);
  }

  lemma SumAligned(a: nat, b: nat)
    requires a % 32 == 0 && b % 32 == 0
    ensures (a + b) % 32 == 0
  {
  }

  lemma ZerosAt(data: bytes, from: nat, end: nat)
    requires from <= end <= |data| && data[from..end] == Zeros(end - from)
    ensures forall k | from <= k < end :: data[k] == 0
  {
    forall k | from <= k < end ensures data[k] == 0 {
      assert data[from..end][k - from] == data[k];
    }
  }

  lemma DynamicTail(data: bytes, at: nat, end: nat, body: bytes)
    requires at <= end <= |data| && at % 32 == 0 && data[at..end] == Dynamic(body) && |body| < Pow256(32)
    ensures TailAt(data, at, end, body)
  {
    DynamicLength(body);
    SumAligned(at, |Dynamic(body)|);
    BigDecodes(|body|, 32);
    PartsAt(data, at, end, Word(|body|), body, Zeros(Padding(|body|)));
    ZerosAt(data, at + 32 + |body|, end);
  }

  lemma AbiBytes(seal: bytes, journal: bytes) returns (second: nat)
    requires InRange(seal, journal)
    ensures var data := AbiCertificate(seal, journal);
            && 64 <= second <= |data|
            && FromBig(data[0..32]) == 64 && FromBig(data[32..64]) == second
            && TailAt(data, 64, second, seal) && TailAt(data, second, |data|, journal)
  {
    var data := AbiCertificate(seal, journal);
    AbiLayout(seal, journal);
    second := WordAt(data, 32).value;
    DynamicTail(data, 64, second, seal);
    DynamicTail(data, second, |data|, journal);
  }
}
