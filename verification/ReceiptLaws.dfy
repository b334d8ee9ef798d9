// The reader of receipt.py accepts exactly the encodings of well-formed
// receipts. Each part of the schema has two laws: XThen reads back what was
// encoded, whatever follows it; XExact says that whatever was read was the
// encoding of a well-formed value.
module ReceiptLaws {
  import opened Options
  import opened Sequences
  import opened Bytes
  import opened Receipts

  // ---- Shared parts ----

  lemma Regroup6(a: bytes, b: bytes, c: bytes, d: bytes, e: bytes, f: bytes, rest: bytes)
    ensures (a + (b + (c + (d + (e + f))))) + rest == a + (b + (c + (d + (e + (f + rest)))))
  {
    Regroup(a, b + (c + (d + (e + f))), rest);
    Regroup(b, c + (d + (e + f)), rest);
    Regroup(c, d + (e + f), rest);
    Regroup(d, e + f, rest);
    Regroup(e, f, rest);
  }

  lemma UintThen(n: nat, size: nat, rest: bytes)
    requires n < Pow256(size)
    ensures ReadUint(Little(n, size) + rest, size) == Some((n, rest))
  {
    LittleDecodes(n, size);
    assert (Little(n, size) + rest)[..size] == Little(n, size);
    assert (Little(n, size) + rest)[size..] == rest;
  }

  lemma UintExact(data: bytes, size: nat)
    requires ReadUint(data, size).Some?
    ensures var (n, rest) := ReadUint(data, size).value;
            n < Pow256(size) && data == Little(n, size) + rest
  {
    LittleEncodes(data[..size]);
  }

  lemma TakeThen(b: bytes, rest: bytes)
    ensures Take(b + rest, |b|) == Some((b, rest))
  {
    assert (b + rest)[..|b|] == b && (b + rest)[|b|..] == rest;
  }

  lemma VectorThen(v: bytes, rest: bytes)
    requires Sized(v)
    ensures ReadVector(EncodeVector(v) + rest) == Some((v, rest))
  {
    assert EncodeVector(v) + rest == Little(|v|, 8) + (v + rest);
    UintThen(|v|, 8, v + rest);
    TakeThen(v, rest);
  }

  lemma VectorExact(data: bytes)
    requires ReadVector(data).Some?
    ensures var (v, rest) := ReadVector(data).value;
            Sized(v) && data == EncodeVector(v) + rest
  {
    UintExact(data, 8);
  }

  lemma MaybeThen<T>(m: MaybePruned<T>, rest: bytes, encode: T -> bytes, read: bytes -> Parsed<T>)
    requires PrunedOk(m)
    requires m.Whole? ==> read(encode(m.value) + rest) == Some((m.value, rest))
    ensures ReadMaybe(EncodeMaybe(m, encode) + rest, read) == Some((m, rest))
  {
    Pow256Values();
    match m
    case Whole(v) =>
      assert EncodeMaybe(m, encode) + rest == Word(0) + (encode(v) + rest);
      UintThen(0, 4, encode(v) + rest);
    case Pruned(d) =>
      assert EncodeMaybe(m, encode) + rest == Word(1) + (d + rest);
      UintThen(1, 4, d + rest);
      TakeThen(d, rest);
  }

  lemma MaybeExact<T>(data: bytes, encode: T -> bytes, read: bytes -> Parsed<T>)
    requires ReadMaybe(data, read).Some?
    requires read(data[4..]).Some? ==>
               var (v, tail) := read(data[4..]).value; data[4..] == encode(v) + tail
    ensures var (m, rest) := ReadMaybe(data, read).value;
            && PrunedOk(m) && data == EncodeMaybe(m, encode) + rest
            && (m.Whole? ==> read(data[4..]) == Some((m.value, rest)))
  {
    UintExact(data, 4);
    var (kind, body) := ReadUint(data, 4).value;
    assert body == data[4..];
    var (m, rest) := ReadMaybe(data, read).value;
    if kind == 0 {
      var (v, tail) := read(body).value;
      assert m == Whole(v) && rest == tail;
    } else {
      assert body == m.digest + rest;
    }
  }

  lemma FixedExact(data: bytes, size: nat, read: bytes -> Parsed<bytes>)
    requires ReadMaybe(data, read).Some? && |data| >= 4 && read(data[4..]) == Take(data[4..], size)
    ensures var (m, rest) := ReadMaybe(data, read).value;
            Fixed(m, size) && data == EncodeMaybe(m, EncodeRaw) + rest
  {
    MaybeExact(data, EncodeRaw, read);
  }

  // ---- Output ----

  lemma {:induction false} AssumptionListThen(xs: seq<MaybePruned<bytes>>, rest: bytes)
    requires AssumptionsOk(xs)
    ensures ReadAssumptionList(EncodeAssumptionList(xs) + rest, |xs|) == Some((xs, rest))
  {
    if xs == [] {
      assert EncodeAssumptionList(xs) + rest == rest;
    } else {
      var tail := EncodeAssumptionList(xs[1..]) + rest;
      assert EncodeAssumptionList(xs) + rest == EncodeMaybe(xs[0], EncodeRaw) + tail;
      if xs[0].Whole? { TakeThen(xs[0].value, tail); }
      MaybeThen(xs[0], tail, EncodeRaw, ReadAssumption);
      AssumptionListThen(xs[1..], rest);
      assert [xs[0]] + xs[1..] == xs;
    }
  }

  lemma {:induction false} AssumptionListExact(data: bytes, count: nat)
    requires ReadAssumptionList(data, count).Some?
    ensures var (xs, rest) := ReadAssumptionList(data, count).value;
            |xs| == count && AssumptionsOk(xs) && data == EncodeAssumptionList(xs) + rest
  {
    if count > 0 {
      FixedExact(data, ASSUMPTION_BYTES, ReadAssumption);
      var (x, tail) := ReadMaybe(data, ReadAssumption).value;
      AssumptionListExact(tail, count - 1);
      var (xs, rest) := ReadAssumptionList(tail, count - 1).value;
      assert ([x] + xs)[1..] == xs;
      assert EncodeAssumptionList([x] + xs) == EncodeMaybe(x, EncodeRaw) + EncodeAssumptionList(xs);
      Regroup(EncodeMaybe(x, EncodeRaw), EncodeAssumptionList(xs), rest);
    }
  }

  lemma AssumptionsThen(xs: seq<MaybePruned<bytes>>, rest: bytes)
    requires |xs| <= MAX_ASSUMPTIONS && AssumptionsOk(xs)
    ensures ReadAssumptions(EncodeAssumptions(xs) + rest) == Some((xs, rest))
  {
    Pow256Values();
    assert EncodeAssumptions(xs) + rest == Little(|xs|, 8) + (EncodeAssumptionList(xs) + rest);
    UintThen(|xs|, 8, EncodeAssumptionList(xs) + rest);
    AssumptionListThen(xs, rest);
  }

  lemma AssumptionsExact(data: bytes)
    requires ReadAssumptions(data).Some?
    ensures var (xs, rest) := ReadAssumptions(data).value;
            |xs| <= MAX_ASSUMPTIONS && AssumptionsOk(xs) && data == EncodeAssumptions(xs) + rest
  {
    UintExact(data, 8);
    var (count, tail) := ReadUint(data, 8).value;
    AssumptionListExact(tail, count);
  }

  lemma MaybeVectorThen(m: MaybePruned<bytes>, rest: bytes)
    requires PrunedOk(m) && (m.Whole? ==> Sized(m.value))
    ensures ReadMaybe(EncodeMaybe(m, EncodeVector) + rest, ReadVector) == Some((m, rest))
  {
    if m.Whole? { VectorThen(m.value, rest); }
    MaybeThen(m, rest, EncodeVector, ReadVector);
  }

  lemma MaybeAssumptionsThen(m: MaybePruned<seq<MaybePruned<bytes>>>, rest: bytes)
    requires PrunedOk(m) && (m.Whole? ==> |m.value| <= MAX_ASSUMPTIONS && AssumptionsOk(m.value))
    ensures ReadMaybe(EncodeMaybe(m, EncodeAssumptions) + rest, ReadAssumptions) == Some((m, rest))
  {
    if m.Whole? { AssumptionsThen(m.value, rest); }
    MaybeThen(m, rest, EncodeAssumptions, ReadAssumptions);
  }

  lemma OutputThen(o: Option<Output>, rest: bytes)
    requires OutputOk(o)
    ensures ReadOutput(EncodeOutput(o) + rest) == Some((o, rest))
  {
    Pow256Values();
    if o == None {
      assert EncodeOutput(o) + rest == Little(0, 1) + rest;
      UintThen(0, 1, rest);
    } else {
      var journal := EncodeMaybe(o.value.journal, EncodeVector);
      var assumptions := EncodeMaybe(o.value.assumptions, EncodeAssumptions);
      var body := journal + (assumptions + rest);
      assert Little(1, 1) == [1];
      Regroup([1], journal + assumptions, rest);
      Regroup(journal, assumptions, rest);
      UintThen(1, 1, body);
      MaybeVectorThen(o.value.journal, assumptions + rest);
      MaybeAssumptionsThen(o.value.assumptions, rest);
    }
  }

  lemma MaybeVectorExact(data: bytes)
    requires ReadMaybe(data, ReadVector).Some?
    ensures var (m, rest) := ReadMaybe(data, ReadVector).value;
            && PrunedOk(m) && (m.Whole? ==> Sized(m.value))
            && data == EncodeMaybe(m, EncodeVector) + rest
  {
    if ReadVector(data[4..]).Some? { VectorExact(data[4..]); }
    MaybeExact(data, EncodeVector, ReadVector);
  }

  lemma MaybeAssumptionsExact(data: bytes)
    requires ReadMaybe(data, ReadAssumptions).Some?
    ensures var (m, rest) := ReadMaybe(data, ReadAssumptions).value;
            && PrunedOk(m) && (m.Whole? ==> |m.value| <= MAX_ASSUMPTIONS && AssumptionsOk(m.value))
            && data == EncodeMaybe(m, EncodeAssumptions) + rest
  {
    if ReadAssumptions(data[4..]).Some? { AssumptionsExact(data[4..]); }
    MaybeExact(data, EncodeAssumptions, ReadAssumptions);
  }

  lemma OutputExact(data: bytes)
    requires ReadOutput(data).Some?
    ensures var (o, rest) := ReadOutput(data).value;
            OutputOk(o) && data == EncodeOutput(o) + rest
  {
    UintExact(data, 1);
    var (present, d1) := ReadUint(data, 1).value;
    assert Little(present, 1) == [present];
    if present == 1 {
      MaybeVectorExact(d1);
      var (journal, d2) := ReadMaybe(d1, ReadVector).value;
      MaybeAssumptionsExact(d2);
      var (assumptions, rest) := ReadMaybe(d2, ReadAssumptions).value;
      var j, a := EncodeMaybe(journal, EncodeVector), EncodeMaybe(assumptions, EncodeAssumptions);
      Regroup([1], j + a, rest);
      Regroup(j, a, rest);
    }
  }

  // ---- Claim ----

  lemma InputThen(rest: bytes)
    ensures ReadInput(EncodeInput(()) + rest) == Some(((), rest))
  {
    Pow256Values();
    assert EncodeInput(()) == Little(0, 1);
    UintThen(0, 1, rest);
  }

  lemma InputExact(data: bytes)
    requires ReadInput(data).Some?
    ensures data == EncodeInput(()) + ReadInput(data).value.1
  {
    UintExact(data, 1);
    assert Little(0, 1) == [0];
  }

  lemma HaltedThen(rest: bytes)
    ensures ReadHalted(Word(0) + (Word(0) + rest)) == Some(((), rest))
  {
    Pow256Values();
    UintThen(0, 4, Word(0) + rest);
    UintThen(0, 4, rest);
  }

  lemma HaltedExact(data: bytes)
    requires ReadHalted(data).Some?
    ensures data == Word(0) + (Word(0) + ReadHalted(data).value.1)
  {
    UintExact(data, 4);
    UintExact(ReadUint(data, 4).value.1, 4);
  }

  lemma MaybeInputThen(m: MaybePruned<()>, rest: bytes)
    requires PrunedOk(m)
    ensures ReadMaybe(EncodeMaybe(m, EncodeInput) + rest, ReadInput) == Some((m, rest))
  {
    InputThen(rest);
    assert m.Whole? ==> m.value == ();
    MaybeThen(m, rest, EncodeInput, ReadInput);
  }

  lemma MaybeInputExact(data: bytes)
    requires ReadMaybe(data, ReadInput).Some?
    ensures var (m, rest) := ReadMaybe(data, ReadInput).value;
            PrunedOk(m) && data == EncodeMaybe(m, EncodeInput) + rest
  {
    if ReadInput(data[4..]).Some? {
      InputExact(data[4..]);
      assert ReadInput(data[4..]).value.0 == ();
    }
    MaybeExact(data, EncodeInput, ReadInput);
  }

  lemma MaybeOutputThen(m: MaybePruned<Option<Output>>, rest: bytes)
    requires PrunedOk(m) && (m.Whole? ==> OutputOk(m.value))
    ensures ReadMaybe(EncodeMaybe(m, EncodeOutput) + rest, ReadOutput) == Some((m, rest))
  {
    if m.Whole? { OutputThen(m.value, rest); }
    MaybeThen(m, rest, EncodeOutput, ReadOutput);
  }

  lemma MaybeOutputExact(data: bytes)
    requires ReadMaybe(data, ReadOutput).Some?
    ensures var (m, rest) := ReadMaybe(data, ReadOutput).value;
            && PrunedOk(m) && (m.Whole? ==> OutputOk(m.value))
            && data == EncodeMaybe(m, EncodeOutput) + rest
  {
    if ReadOutput(data[4..]).Some? { OutputExact(data[4..]); }
    MaybeExact(data, EncodeOutput, ReadOutput);
  }

  lemma StateThen(m: MaybePruned<bytes>, rest: bytes)
    requires Fixed(m, SYSTEM_STATE_BYTES)
    ensures ReadMaybe(EncodeMaybe(m, EncodeRaw) + rest, ReadSystemState) == Some((m, rest))
  {
    if m.Whole? { TakeThen(m.value, rest); }
    MaybeThen(m, rest, EncodeRaw, ReadSystemState);
  }

  lemma ClaimThen(c: Claim, rest: bytes)
    requires ClaimOk(c)
    ensures ReadClaim(EncodeClaim(c) + rest) == Some((c, rest))
  {
    var pre, post := EncodeMaybe(c.pre, EncodeRaw), EncodeMaybe(c.post, EncodeRaw);
    var input, output := EncodeMaybe(c.input, EncodeInput), EncodeMaybe(c.output, EncodeOutput);
    Regroup6(pre, post, Word(0), Word(0), input, output, rest);
    StateThen(c.pre, post + (Word(0) + (Word(0) + (input + (output + rest)))));
    StateThen(c.post, Word(0) + (Word(0) + (input + (output + rest))));
    HaltedThen(input + (output + rest));
    MaybeInputThen(c.input, output + rest);
    MaybeOutputThen(c.output, rest);
  }

  lemma ClaimExact(data: bytes)
    requires ReadClaim(data).Some?
    ensures var (c, rest) := ReadClaim(data).value;
            ClaimOk(c) && data == EncodeClaim(c) + rest
  {
    FixedExact(data, SYSTEM_STATE_BYTES, ReadSystemState);
    var (pre, d1) := ReadMaybe(data, ReadSystemState).value;
    FixedExact(d1, SYSTEM_STATE_BYTES, ReadSystemState);
    var (post, d2) := ReadMaybe(d1, ReadSystemState).value;
    HaltedExact(d2);
    var d3 := ReadHalted(d2).value.1;
    MaybeInputExact(d3);
    var (input, d4) := ReadMaybe(d3, ReadInput).value;
    MaybeOutputExact(d4);
    var (output, rest) := ReadMaybe(d4, ReadOutput).value;
    Regroup6(EncodeMaybe(pre, EncodeRaw), EncodeMaybe(post, EncodeRaw), Word(0), Word(0),
             EncodeMaybe(input, EncodeInput), EncodeMaybe(output, EncodeOutput), rest);
  }

  lemma MaybeClaimThen(m: MaybePruned<Claim>, rest: bytes)
    requires PrunedOk(m) && (m.Whole? ==> ClaimOk(m.value))
    ensures ReadMaybe(EncodeMaybe(m, EncodeClaim) + rest, ReadClaim) == Some((m, rest))
  {
    if m.Whole? { ClaimThen(m.value, rest); }
    MaybeThen(m, rest, EncodeClaim, ReadClaim);
  }

  lemma MaybeClaimExact(data: bytes)
    requires ReadMaybe(data, ReadClaim).Some?
    ensures var (m, rest) := ReadMaybe(data, ReadClaim).value;
            && PrunedOk(m) && (m.Whole? ==> ClaimOk(m.value))
            && data == EncodeMaybe(m, EncodeClaim) + rest
  {
    if ReadClaim(data[4..]).Some? { ClaimExact(data[4..]); }
    MaybeExact(data, EncodeClaim, ReadClaim);
  }

  // ---- Receipt ----

  lemma ReceiptThen(r: Receipt, rest: bytes)
    requires ReceiptOk(r)
    ensures ReadReceipt(EncodeReceipt(r) + rest) == Some((r, rest))
  {
    Pow256Values();
    var kind, seal, claim := Word(2), EncodeVector(r.seal), EncodeMaybe(r.claim, EncodeClaim);
    var journal := EncodeVector(r.journal);
    Regroup6(kind, seal, claim, r.parameters, journal, r.metadata, rest);
    UintThen(2, 4, seal + (claim + (r.parameters + (journal + (r.metadata + rest)))));
    VectorThen(r.seal, claim + (r.parameters + (journal + (r.metadata + rest))));
    MaybeClaimThen(r.claim, r.parameters + (journal + (r.metadata + rest)));
    TakeThen(r.parameters, journal + (r.metadata + rest));
    VectorThen(r.journal, r.metadata + rest);
    TakeThen(r.metadata, rest);
  }

  lemma TailExact(d3: bytes, d4: bytes, d5: bytes, parameters: bytes, journal: bytes, metadata: bytes, rest: bytes)
    requires Take(d3, 32) == Some((parameters, d4)) && ReadVector(d4) == Some((journal, d5))
    requires Take(d5, 32) == Some((metadata, rest))
    ensures |parameters| == 32 && Sized(journal) && |metadata| == 32
    ensures d3 == parameters + (EncodeVector(journal) + (metadata + rest))
  {
    VectorExact(d4);
    assert d3 == parameters + d4 && d5 == metadata + rest;
  }

  lemma HeadExact(data: bytes, d1: bytes, d2: bytes, d3: bytes, seal: bytes, claim: MaybePruned<Claim>)
    requires ReadUint(data, 4) == Some((2, d1)) && ReadVector(d1) == Some((seal, d2))
    requires ReadMaybe(d2, ReadClaim) == Some((claim, d3))
    ensures PrunedOk(claim) && (claim.Whole? ==> ClaimOk(claim.value))
    ensures data == Word(2) + (EncodeVector(seal) + (EncodeMaybe(claim, EncodeClaim) + d3))
  {
    UintExact(data, 4);
    VectorExact(d1);
    MaybeClaimExact(d2);
  }

  // The parts of a receipt that was read, one behind the other.
  lemma ReceiptParts(data: bytes, r: Receipt, rest: bytes)
    requires ReadReceipt(data) == Some((r, rest))
    ensures ReceiptOk(r)
    ensures data == Word(2) + (EncodeVector(r.seal) + (EncodeMaybe(r.claim, EncodeClaim)
                    + (r.parameters + (EncodeVector(r.journal) + (r.metadata + rest)))))
  {
    var d1 := ReadUint(data, 4).value.1;
    var d2 := ReadVector(d1).value.1;
    var d3 := ReadMaybe(d2, ReadClaim).value.1;
    var d4 := Take(d3, 32).value.1;
    var d5 := ReadVector(d4).value.1;
    HeadExact(data, d1, d2, d3, r.seal, r.claim);
    TailExact(d3, d4, d5, r.parameters, r.journal, r.metadata, rest);
  }

  lemma ReceiptExact(data: bytes)
    requires ReadReceipt(data).Some?
    ensures var (r, rest) := ReadReceipt(data).value;
            ReceiptOk(r) && data == EncodeReceipt(r) + rest
  {
    var (r, rest) := ReadReceipt(data).value;
    ReceiptParts(data, r, rest);
    Regroup6(Word(2), EncodeVector(r.seal), EncodeMaybe(r.claim, EncodeClaim), r.parameters,
             EncodeVector(r.journal), r.metadata, rest);
  }

  // ---- Main results ----

  // A byte string is accepted with receipt r if and only if r is well formed and
  // the string is r's encoding. So the receipt behind accepted bytes is unique.
  lemma AcceptsExactly(data: bytes, r: Receipt)
    ensures Groth16(data) == Some(r) <==> ReceiptOk(r) && data == EncodeReceipt(r)
  {
    if ReceiptOk(r) && data == EncodeReceipt(r) {
      ReceiptThen(r, []);
      assert EncodeReceipt(r) + [] == data;
    }
    if Groth16(data) == Some(r) {
      ReceiptExact(data);
    }
  }

  lemma EncodingInjective(r: Receipt, s: Receipt)
    requires ReceiptOk(r) && ReceiptOk(s) && EncodeReceipt(r) == EncodeReceipt(s)
    ensures r == s
  {
    AcceptsExactly(EncodeReceipt(r), r);
    AcceptsExactly(EncodeReceipt(r), s);
  }

  // Neither truncating nor extending an accepted receipt gives another one.
  lemma NoAcceptedPrefix(data: bytes, tail: bytes)
    requires Groth16(data).Some? && Groth16(data + tail).Some?
    ensures tail == []
  {
    var r := Groth16(data).value;
    AcceptsExactly(data, r);
    ReceiptThen(r, tail);
  }
}
