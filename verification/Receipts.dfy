// The bincode receipt schema that receipt.py, lines 86-144, reads: the abstract
// receipts, their encoding, and the recursive-descent reader as a function.
module Receipts {
  import opened Options
  import opened Bytes

  datatype MaybePruned<+T> = Whole(value: T) | Pruned(digest: bytes)

  datatype Output = Output(journal: MaybePruned<bytes>, assumptions: MaybePruned<seq<MaybePruned<bytes>>>)

  // The pinned SDK's Input type has no values, so a whole input is always absent.
  datatype Claim = Claim(
    pre: MaybePruned<bytes>,
    post: MaybePruned<bytes>,
    input: MaybePruned<()>,
    output: MaybePruned<Option<Output>>)

  datatype Receipt = Receipt(
    seal: bytes,
    claim: MaybePruned<Claim>,
    parameters: bytes,
    journal: bytes,
    metadata: bytes)

  // The numbers the reader checks against; the schema below has its own.
  const GROTH16: nat := 2
  const SEAL_BYTES: nat := 256
  const MAX_ASSUMPTIONS: nat := 64
  const SYSTEM_STATE_BYTES: nat := 36
  const ASSUMPTION_BYTES: nat := 64

  // ---- Well-formed receipts ----

  predicate PrunedOk<T>(m: MaybePruned<T>) {
    m.Pruned? ==> |m.digest| == 32
  }

  predicate Fixed(m: MaybePruned<bytes>, size: nat) {
    PrunedOk(m) && (m.Whole? ==> |m.value| == size)
  }

  predicate Sized(v: bytes) {
    |v| < Pow256(8)
  }

  predicate AssumptionsOk(xs: seq<MaybePruned<bytes>>) {
    forall i | 0 <= i < |xs| :: Fixed(xs[i], 64)
  }

  predicate OutputOk(o: Option<Output>) {
    o.Some? ==>
      && PrunedOk(o.value.journal) && (o.value.journal.Whole? ==> Sized(o.value.journal.value))
      && PrunedOk(o.value.assumptions)
      && (o.value.assumptions.Whole? ==>
            |o.value.assumptions.value| <= 64 && AssumptionsOk(o.value.assumptions.value))
  }

  predicate ClaimOk(c: Claim) {
    && Fixed(c.pre, 36)
    && Fixed(c.post, 36)
    && PrunedOk(c.input)
    && PrunedOk(c.output) && (c.output.Whole? ==> OutputOk(c.output.value))
  }

  predicate ReceiptOk(r: Receipt) {
    && |r.seal| == 256
    && PrunedOk(r.claim) && (r.claim.Whole? ==> ClaimOk(r.claim.value))
    && |r.parameters| == 32
    && Sized(r.journal)
    && |r.metadata| == 32
  }

  // ---- Encoding ----

  function Word(n: nat): bytes {
    Little(n, 4)
  }

  function EncodeVector(v: bytes): bytes {
    Little(|v|, 8) + v
  }

  function EncodeRaw(v: bytes): bytes {
    v
  }

  function EncodeMaybe<T>(m: MaybePruned<T>, encode: T -> bytes): bytes {
    match m
    case Whole(v) => Word(0) + encode(v)
    case Pruned(d) => Word(1) + d
  }

  function EncodeAssumptionList(xs: seq<MaybePruned<bytes>>): bytes {
    if xs == [] then [] else EncodeMaybe(xs[0], EncodeRaw) + EncodeAssumptionList(xs[1..])
  }

  function EncodeAssumptions(xs: seq<MaybePruned<bytes>>): bytes {
    Little(|xs|, 8) + EncodeAssumptionList(xs)
  }

  function EncodeOutput(o: Option<Output>): bytes {
    match o
    case None => [0]
    case Some(out) =>
      [1] + (EncodeMaybe(out.journal, EncodeVector) + EncodeMaybe(out.assumptions, EncodeAssumptions))
  }

  function EncodeInput(i: ()): bytes {
    [0]
  }

  function EncodeClaim(c: Claim): bytes {
    EncodeMaybe(c.pre, EncodeRaw) + (EncodeMaybe(c.post, EncodeRaw) +
    (Word(0) + (Word(0) + (EncodeMaybe(c.input, EncodeInput) + EncodeMaybe(c.output, EncodeOutput)))))
  }

  function EncodeReceipt(r: Receipt): bytes {
    Word(2) + (EncodeVector(r.seal) + (EncodeMaybe(r.claim, EncodeClaim) +
    (r.parameters + (EncodeVector(r.journal) + r.metadata))))
  }

  // ---- Reading: each function yields a value and the bytes behind it ----

  type Parsed<T> = Option<(T, bytes)>

  function Take(data: bytes, n: nat): Parsed<bytes> {
    if n <= |data| then Some((data[..n], data[n..])) else None
  }

  function ReadUint(data: bytes, size: nat): Parsed<nat> {
    var (b, rest) :- Take(data, size);
    Some((FromLittle(b), rest))
  }

  function ReadVector(data: bytes): Parsed<bytes> {
    var (n, rest) :- ReadUint(data, 8);
    Take(rest, n)
  }

  function ReadMaybe<T>(data: bytes, read: bytes -> Parsed<T>): Parsed<MaybePruned<T>> {
    var (kind, rest) :- ReadUint(data, 4);
    if kind == 0 then
      var (v, tail) :- read(rest);
      Some((Whole(v), tail))
    else if kind == 1 then
      var (d, tail) :- Take(rest, 32);
      Some((Pruned(d), tail))
    else None
  }

  function ReadSystemState(data: bytes): Parsed<bytes> {
    Take(data, SYSTEM_STATE_BYTES)
  }

  function ReadAssumption(data: bytes): Parsed<bytes> {
    Take(data, ASSUMPTION_BYTES)
  }

  function ReadAssumptionList(data: bytes, count: nat): Parsed<seq<MaybePruned<bytes>>> {
    if count == 0 then Some(([], data))
    else
      var (x, rest) :- ReadMaybe(data, ReadAssumption);
      var (xs, tail) :- ReadAssumptionList(rest, count - 1);
      Some(([x] + xs, tail))
  }

  function ReadAssumptions(data: bytes): Parsed<seq<MaybePruned<bytes>>> {
    var (count, rest) :- ReadUint(data, 8);
    if count > MAX_ASSUMPTIONS then None else ReadAssumptionList(rest, count)
  }

  function ReadOutput(data: bytes): Parsed<Option<Output>> {
    var (present, rest) :- ReadUint(data, 1);
    if present == 0 then Some((None, rest))
    else if present == 1 then
      var (journal, tail) :- ReadMaybe(rest, ReadVector);
      var (assumptions, end) :- ReadMaybe(tail, ReadAssumptions);
      Some((Some(Output(journal, assumptions)), end))
    else None
  }

  function ReadInput(data: bytes): Parsed<()> {
    var (present, rest) :- ReadUint(data, 1);
    if present == 0 then Some(((), rest)) else None
  }

  function ReadHalted(data: bytes): Parsed<()> {
    var (system, rest) :- ReadUint(data, 4);
    if system != 0 then None
    else
      var (user, tail) :- ReadUint(rest, 4);
      if user != 0 then None else Some(((), tail))
  }

  function ReadClaim(data: bytes): Parsed<Claim> {
    var (pre, d1) :- ReadMaybe(data, ReadSystemState);
    var (post, d2) :- ReadMaybe(d1, ReadSystemState);
    var (_, d3) :- ReadHalted(d2);
    var (input, d4) :- ReadMaybe(d3, ReadInput);
    var (output, d5) :- ReadMaybe(d4, ReadOutput);
    Some((Claim(pre, post, input, output), d5))
  }

  function ReadReceipt(data: bytes): Parsed<Receipt> {
    var (kind, d1) :- ReadUint(data, 4);
    if kind != GROTH16 then None
    else
      var (seal, d2) :- ReadVector(d1);
      if |seal| != SEAL_BYTES then None
      else
        var (claim, d3) :- ReadMaybe(d2, ReadClaim);
        var (parameters, d4) :- Take(d3, 32);
        var (journal, d5) :- ReadVector(d4);
        var (metadata, d6) :- Take(d5, 32);
        Some((Receipt(seal, claim, parameters, journal, metadata), d6))
  }

  // groth16() refuses trailing bytes.
  function Groth16(data: bytes): Option<Receipt> {
    var (r, rest) :- ReadReceipt(data);
    if rest == [] then Some(r) else None
  }
}
