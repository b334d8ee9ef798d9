// request_result.py, lines 9-74: the public terminal document of a request and
// the checks that bind it to its request, its run and its receipt.
module Results {
  import opened Options
  import opened Bytes
  import opened JsonValues
  import opened Libraries
  import opened Requests
  import Receipts
  import opened ReceiptLaws
  import Abi

  const FORMAT := "oncm-public-proof-result-v1"
  const PROOF_FORMAT := "oncm-real-groth16-ci-v1"
  const MAX_RESULT: nat := 128 * 1024
  const MAX_PUBLIC_RECEIPT: nat := 1024 * 1024
  const MAX_ERROR: nat := 2048

  // What git_context returns: where a request came from and which run handles it.
  datatype Context = Context(
    repository: string,
    requestDigest: string,
    requestCommit: string,
    baseCommit: string,
    requestBranch: string,
    runId: string,
    runAttempt: string)

  // pins.json, and the selector it holds under 'ethereum'.
  datatype Pins = Pins(document: Json, selector: string)

  function ContextFields(c: Context): map<string, Json> {
    map["repository" := Str(c.repository), "requestDigest" := Str(c.requestDigest),
        "requestCommit" := Str(c.requestCommit), "baseCommit" := Str(c.baseCommit),
        "requestBranch" := Str(c.requestBranch), "runId" := Str(c.runId),
        "runAttempt" := Str(c.runAttempt)]
  }

  const CONTEXT_KEYS := {"repository", "requestDigest", "requestCommit", "baseCommit",
                         "requestBranch", "runId", "runAttempt"}

  lemma ContextKeys(c: Context)
    ensures ContextFields(c).Keys == CONTEXT_KEYS
  {
  }

  function InputOf(request: Option<Request>): Json {
    if request == None then Null
    else
      var b := request.value.body;
      Obj(map["requestNonce" := Str(b.requestNonce), "profile" := Str(b.profile),
              "profileId" := Str(b.profileId), "imageId" := Str(b.imageId),
              "goalHash" := Str(b.goalHash), "outcome" := Int(b.outcome),
              "sourceSha256" := Str(b.sourceSha256), "goalExportSha256" := Str(b.goalSha256),
              "exportSha256" := Str(b.exportSha256)])
  }

  function OutcomeFields(proof: Json, resources: Json, error: Json, input: Json): map<string, Json> {
    map["format" := Str(FORMAT), "status" := Str(if proof != Null then "verified" else "failed"),
        "proof" := proof, "resources" := resources, "error" := error, "input" := input]
  }

  function Terminal(c: Context, request: Option<Request>, proof: Json, resources: Json, error: Json): Json {
    Obj(ContextFields(c) + OutcomeFields(proof, resources, error, InputOf(request)))
  }

  const OUTCOME_KEYS := {"format", "status", "proof", "resources", "error", "input"}
  const RESULT_KEYS := CONTEXT_KEYS + OUTCOME_KEYS

  // ---- Proof metadata ----

  function CaseName(outcome: nat): string {
    "generic-" + if outcome == 0 then "registration" else if outcome == 1 then "proof" else "refutation"
  }

  function ExpectedProof(b: Body, c: Context): map<string, Json> {
    map["format" := Str(PROOF_FORMAT), "profile" := Str(b.profile), "case" := Str(CaseName(b.outcome)),
        "imageId" := Str(b.imageId), "profileId" := Str(b.profileId), "goalHash" := Str(b.goalHash),
        "outcome" := Int(b.outcome), "requestNonce" := Str(b.requestNonce),
        "requestDigest" := Str(c.requestDigest), "sourceCommit" := Str(c.requestCommit),
        "sourceSha256" := Str(b.sourceSha256), "goalExportSha256" := Str(b.goalSha256),
        "exportSha256" := Str(b.exportSha256), "runId" := Str(c.runId),
        "runAttempt" := Str(c.runAttempt), "receiptKind" := Str("Groth16"), "evmVerified" := Bool(false)]
  }

  lemma ExpectedCase(b: Body, c: Context)
    ensures var expected := ExpectedProof(b, c);
            && {"format", "profile", "case", "imageId", "profileId", "goalHash"} <= expected.Keys
            && expected["format"] == Str(PROOF_FORMAT) && expected["profile"] == Str(b.profile)
            && expected["case"] == Str(CaseName(b.outcome)) && expected["profileId"] == Str(b.profileId)
            && expected["imageId"] == Str(b.imageId) && expected["goalHash"] == Str(b.goalHash)
  {
  }

  lemma ExpectedRun(b: Body, c: Context)
    ensures var expected := ExpectedProof(b, c);
            && {"outcome", "receiptKind", "evmVerified", "sourceCommit", "runId", "runAttempt"} <= expected.Keys
            && expected["outcome"] == Int(b.outcome) && expected["receiptKind"] == Str("Groth16")
            && expected["evmVerified"] == Bool(false) && expected["sourceCommit"] == Str(c.requestCommit)
            && expected["runId"] == Str(c.runId) && expected["runAttempt"] == Str(c.runAttempt)
  {
  }

  lemma ExpectedSource(b: Body, c: Context)
    ensures var expected := ExpectedProof(b, c);
            && {"requestNonce", "requestDigest", "sourceSha256", "goalExportSha256", "exportSha256"} <= expected.Keys
            && expected["requestNonce"] == Str(b.requestNonce) && expected["requestDigest"] == Str(c.requestDigest)
            && expected["sourceSha256"] == Str(b.sourceSha256) && expected["goalExportSha256"] == Str(b.goalSha256)
            && expected["exportSha256"] == Str(b.exportSha256)
  {
  }

  predicate HasBytes(proof: Json, key: string, value: bytes) {
    Get(proof, key) == Some(Str("0x" + Hex(value)))
  }

  function Selector(r: Receipts.Receipt): bytes {
    if |r.parameters| >= 4 then r.parameters[..4] else r.parameters
  }

  function EvmSeal(r: Receipts.Receipt): bytes {
    Selector(r) + r.seal
  }

  // The byte fields a proof repeats from its receipt.
  predicate Transports(proof: Json, r: Receipts.Receipt) {
    && HasBytes(proof, "rawSeal", r.seal)
    && HasBytes(proof, "evmSeal", EvmSeal(r))
    && HasBytes(proof, "journal", r.journal)
    && HasBytes(proof, "verifierParameters", r.parameters)
    && HasBytes(proof, "certificate", Abi.AbiCertificate(EvmSeal(r), r.journal))
  }

  predicate Measured(elapsed: Option<Json>) {
    match elapsed
    case Some(Int(n)) => n >= 0
    case Some(Float(r)) => r >= 0.0
    case _ => false
  }

  predicate ValidateProof(lib: Library, pins: Pins, proof: Json, receipt: bytes, request: Request, c: Context) {
    && proof.Obj?
    && (var expected := ExpectedProof(request.body, c);
        forall key | key in expected :: Get(proof, key) == Some(expected[key]))
    && 0 < |receipt| <= MAX_PUBLIC_RECEIPT
    && Get(proof, "receiptSha256") == Some(Str(HexSha(lib, receipt)))
    && var parsed := Receipts.Groth16(receipt);
       && parsed.Some?
       && parsed.value.journal == request.journal
       && "0x" + Hex(Selector(parsed.value)) == pins.selector
       && Transports(proof, parsed.value)
       && (var pinned := Get(proof, "pins"); pinned.Some? && PyEq(pinned.value, pins.document))
       && Measured(Get(proof, "elapsedSeconds"))
  }

  // ---- The terminal document ----

  predicate FailedOk(result: Json)
    requires result.Obj? && result.fields.Keys == RESULT_KEYS
  {
    && result.fields["proof"] == Null
    && result.fields["error"].Str?
    && 0 < |result.fields["error"].s| <= MAX_ERROR
  }

  predicate ValidateTerminal(lib: Library, pins: Pins, result: Json, c: Context, request: Option<Request>,
                             receipt: Option<bytes>)
  {
    && result.Obj? && result.fields.Keys == RESULT_KEYS
    && result.fields["format"] == Str(FORMAT)
    && result.fields["status"] in {Str("verified"), Str("failed")}
    && (forall key | key in ContextFields(c) :: result.fields[key] == ContextFields(c)[key])
    && PyEq(result.fields["input"], InputOf(request))
    && (result.fields["resources"] == Null || result.fields["resources"].Obj?)
    && if result.fields["status"] == Str("verified")
       then result.fields["error"] == Null && request.Some? && receipt.Some?
            && ValidateProof(lib, pins, result.fields["proof"], receipt.value, request.value, c)
       else FailedOk(result)
  }

  lemma KeysApart()
    ensures CONTEXT_KEYS !! OUTCOME_KEYS
  {
  }

  lemma OutcomeLookup(proof: Json, resources: Json, error: Json, input: Json)
    ensures var own := OutcomeFields(proof, resources, error, input);
            && own.Keys == OUTCOME_KEYS
            && own["format"] == Str(FORMAT)
            && own["status"] == Str(if proof != Null then "verified" else "failed")
            && own["proof"] == proof && own["resources"] == resources
            && own["error"] == error && own["input"] == input
  {
  }

  lemma TerminalFields(c: Context, request: Option<Request>, proof: Json, resources: Json, error: Json)
    ensures var fields, own := Terminal(c, request, proof, resources, error).fields,
                               OutcomeFields(proof, resources, error, InputOf(request));
            && fields.Keys == RESULT_KEYS
            && (forall key | key in own :: fields[key] == own[key])
            && (forall key | key in ContextFields(c) :: fields[key] == ContextFields(c)[key])
            && fields["format"] == Str(FORMAT)
            && fields["status"] == Str(if proof != Null then "verified" else "failed")
            && fields["proof"] == proof && fields["resources"] == resources
            && fields["error"] == error && fields["input"] == InputOf(request)
  {
    OutcomeLookup(proof, resources, error, InputOf(request));
    KeysApart();
    ContextKeys(c);
  }

  // A failure report made by terminal(), with or without a resource summary, always
  // passes its own validation.
  lemma FailureReportsValidate(lib: Library, pins: Pins, c: Context, request: Option<Request>, resources: Json,
                               error: string, receipt: Option<bytes>)
    requires resources == Null || resources.Obj?
    requires 0 < |error| <= MAX_ERROR
    ensures ValidateTerminal(lib, pins, Terminal(c, request, Null, resources, Str(error)), c, request, receipt)
  {
    TerminalFields(c, request, Null, resources, Str(error));
    PyEqReflexive(InputOf(request));
  }

  // certificate.bin, from the text publish() reads: bytes.fromhex(..[2:]).
  function CertificateFile(result: Json): Option<bytes> {
    var proof :- Get(result, "proof");
    var text :- Get(proof, "certificate");
    if text.Str? && |text.s| >= 2 then Unhex(text.s[2..]) else None
  }

  lemma WordRange()
    ensures Pow256(8) + 1024 < Pow256(32)
  {
    Pow256Values();
    assert Pow256(16) == Pow256(8) * 0x1_0000_0000_0000_0000 by {
      assert Pow256(12) == Pow256(8) * 0x1_0000_0000;
    }
    assert Pow256(20) == Pow256(16) * 0x1_0000_0000;
    assert Pow256(32) > Pow256(20) by {
      assert Pow256(24) > Pow256(20);
      assert Pow256(28) > Pow256(24);
    }
  }

  lemma ReceiptSizes(receipt: bytes)
    requires Receipts.Groth16(receipt).Some?
    ensures var r := Receipts.Groth16(receipt).value;
            && |r.parameters| == 32 && |r.seal| == Receipts.SEAL_BYTES
            && Abi.InRange(EvmSeal(r), r.journal)
  {
    var r := Receipts.Groth16(receipt).value;
    AcceptsExactly(receipt, r);
    WordRange();
  }

  // What a valid proof says about its receipt: the published certificate is the
  // ABI encoding of the receipt's selector and seal and of its journal, and
  // following its offsets gives those back.
  lemma ValidProofCertificate(lib: Library, pins: Pins, proof: Json, receipt: bytes, request: Request, c: Context)
    requires ValidateProof(lib, pins, proof, receipt, request, c)
    ensures Receipts.Groth16(receipt).Some?
    ensures var r := Receipts.Groth16(receipt).value;
            && r.journal == request.journal && |r.parameters| == 32 && |r.seal| == Receipts.SEAL_BYTES
            && Get(proof, "certificate").Some? && Get(proof, "certificate").value.Str?
            && var text := Get(proof, "certificate").value.s;
               && |text| >= 2 && Unhex(text[2..]).Some?
               && Abi.AbiDecode(Unhex(text[2..]).value) == Some((r.parameters[..4] + r.seal, r.journal))
  {
    var r := Receipts.Groth16(receipt).value;
    ReceiptSizes(receipt);
    var certificate := Abi.AbiCertificate(EvmSeal(r), r.journal);
    var text := "0x" + Hex(certificate);
    assert text[2..] == Hex(certificate);
    HexRoundTrip(certificate);
    Abi.AbiRoundTrip(EvmSeal(r), r.journal);
  }
}
