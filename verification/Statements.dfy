// request_result.py, lines 14-74, once more: what a verified document says, and that it is
// true of its request, its receipt and its run.
module Statements {
  import opened Options
  import opened Bytes
  import opened JsonValues
  import opened Libraries
  import opened Requests
  import opened Results
  import opened Publisher
  import Receipts
  import Abi
  import RequestFiles

  predicate Says(document: Json, key: string, text: string) {
    Get(document, key) == Some(Str(text))
  }

  // The claim of the receipt's journal: goal, profile and outcome.
  ghost predicate SaysClaim(proof: Json, journal: bytes) {
    && |journal| == 128
    && Says(proof, "goalHash", "0x" + Hex(journal[32..64]))
    && Says(proof, "profileId", "0x" + Hex(journal[64..96]))
    && Get(proof, "outcome") == Some(Int(FromBig(journal[96..])))
    && match FromBig(journal[96..])
       case 0 => Says(proof, "case", "generic-registration")
       case 1 => Says(proof, "case", "generic-proof")
       case _ => Says(proof, "case", "generic-refutation")
  }

  // The receipt published beside it, and what is in it.
  ghost predicate SaysReceipt(lib: Library, proof: Json, receipt: bytes) {
    && Says(proof, "receiptSha256", Hex(lib.sha256(receipt)))
    && Says(proof, "format", "oncm-real-groth16-ci-v1") && Says(proof, "receiptKind", "Groth16")
    && Get(proof, "evmVerified") == Some(Bool(false))
    && Receipts.Groth16(receipt).Some?
    && var r := Receipts.Groth16(receipt).value;
       && |r.parameters| == 32
       && Says(proof, "journal", "0x" + Hex(r.journal))
       && Says(proof, "rawSeal", "0x" + Hex(r.seal))
       && Says(proof, "evmSeal", "0x" + Hex(r.parameters[..4] + r.seal))
       && Says(proof, "verifierParameters", "0x" + Hex(r.parameters))
       && Says(proof, "certificate", "0x" + Hex(Abi.AbiCertificate(r.parameters[..4] + r.seal, r.journal)))
  }

  // The run, and the packages of the request.
  ghost predicate SaysSource(lib: Library, proof: Json, c: Context, request: Request) {
    && Says(proof, "requestDigest", c.requestDigest) && Says(proof, "sourceCommit", c.requestCommit)
    && Says(proof, "runId", c.runId) && Says(proof, "runAttempt", c.runAttempt)
    && Says(proof, "requestNonce", request.body.requestNonce) && Says(proof, "profile", request.body.profile)
    && Says(proof, "sourceSha256", request.body.sourceSha256)
    && Says(proof, "goalExportSha256", Hex(lib.sha256(request.goal)))
    && Says(proof, "exportSha256", Hex(lib.sha256(request.exported)))
  }

  // The document's input: the same, up to how Python compares the outcome.
  ghost predicate SaysInput(lib: Library, input: Json, journal: bytes, image: string, request: Request) {
    && |journal| == 128
    && Says(input, "goalHash", "0x" + Hex(journal[32..64]))
    && Says(input, "profileId", "0x" + Hex(journal[64..96]))
    && Get(input, "outcome").Some? && Numeric(Get(input, "outcome").value)
    && NumberOf(Get(input, "outcome").value) == FromBig(journal[96..]) as real
    && Says(input, "imageId", "0x" + image)
    && Says(input, "requestNonce", request.body.requestNonce) && Says(input, "profile", request.body.profile)
    && Says(input, "sourceSha256", request.body.sourceSha256)
    && Says(input, "goalExportSha256", Hex(lib.sha256(request.goal)))
    && Says(input, "exportSha256", Hex(lib.sha256(request.exported)))
  }

  // The pinned tools, and a measured time.
  ghost predicate SaysTools(pins: Pins, proof: Json, receipt: bytes) {
    && 0 < |receipt| <= 1048576
    && Receipts.Groth16(receipt).Some? && |Receipts.Groth16(receipt).value.parameters| == 32
    && "0x" + Hex(Receipts.Groth16(receipt).value.parameters[..4]) == pins.selector
    && Get(proof, "pins").Some? && PyEq(Get(proof, "pins").value, pins.document)
    && match Get(proof, "elapsedSeconds")
       case Some(Int(n)) => n >= 0
       case Some(Float(t)) => t >= 0.0
       case _ => false
  }

  // The form of every terminal document, whose context it names.
  ghost predicate SaysContext(result: Json, c: Context) {
    && result.Obj?
    && result.fields.Keys == {"format", "repository", "requestDigest", "requestCommit", "baseCommit", "requestBranch",
                              "runId", "runAttempt", "status", "proof", "resources", "error", "input"}
    && Says(result, "format", "oncm-public-proof-result-v1") && Says(result, "repository", c.repository)
    && Says(result, "requestDigest", c.requestDigest) && Says(result, "requestCommit", c.requestCommit)
    && Says(result, "baseCommit", c.baseCommit) && Says(result, "requestBranch", c.requestBranch)
    && Says(result, "runId", c.runId) && Says(result, "runAttempt", c.runAttempt)
    && (result.fields["resources"] == Null || result.fields["resources"].Obj?)
  }

  // And of a failure report.
  ghost predicate SaysFailure(result: Json) {
    && Says(result, "status", "failed") && Get(result, "proof") == Some(Null)
    && Get(result, "error").Some? && Get(result, "error").value.Str? && 0 < |Get(result, "error").value.s| <= 2048
  }

  // All of it, for an image for which the original verifier accepts the receipt.
  ghost predicate Truthful(lib: Library, pins: Pins, c: Context, request: Request, accepts: Verifier, result: Json,
                           receipt: bytes, image: string)
  {
    && SaysContext(result, c) && Says(result, "status", "verified") && Get(result, "error") == Some(Null)
    && Get(result, "proof").Some? && Get(result, "input").Some?
    && var proof, input := Get(result, "proof").value, Get(result, "input").value;
       && SaysReceipt(lib, proof, receipt) && SaysTools(pins, proof, receipt)
       && var journal := Receipts.Groth16(receipt).value.journal;
          && Claims(lib, request, journal)
          && SaysClaim(proof, journal)
          && SaysSource(lib, proof, c, request)
          && Says(proof, "imageId", "0x" + image) && accepts(receipt, image)
          && SaysInput(lib, input, journal, image, request)
  }

  // ---- From the checks ----

  ghost predicate Repeats(proof: Json, expected: map<string, Json>) {
    forall key | key in expected :: Get(proof, key) == Some(expected[key])
  }

  lemma CaseNames(outcome: nat)
    requires outcome <= 2
    ensures outcome == 0 ==> CaseName(outcome) == "generic-registration"
    ensures outcome == 1 ==> CaseName(outcome) == "generic-proof"
    ensures outcome == 2 ==> CaseName(outcome) == "generic-refutation"
  {
  }

  lemma ProofSaysCase(proof: Json, c: Context, b: Body, expected: map<string, Json>)
    requires expected == ExpectedProof(b, c) && Repeats(proof, expected)
    ensures Says(proof, "format", PROOF_FORMAT) && Says(proof, "profile", b.profile)
    ensures Says(proof, "case", CaseName(b.outcome)) && Says(proof, "profileId", b.profileId)
    ensures Says(proof, "imageId", b.imageId) && Says(proof, "goalHash", b.goalHash)
  {
    ExpectedCase(b, c);
    assert Get(proof, "format") == Some(expected["format"]) && Get(proof, "profile") == Some(expected["profile"]);
    assert Get(proof, "case") == Some(expected["case"]) && Get(proof, "profileId") == Some(expected["profileId"]);
    assert Get(proof, "imageId") == Some(expected["imageId"]) && Get(proof, "goalHash") == Some(expected["goalHash"]);
  }

  lemma ProofSaysRun(proof: Json, c: Context, b: Body, expected: map<string, Json>)
    requires expected == ExpectedProof(b, c) && Repeats(proof, expected)
    ensures Get(proof, "outcome") == Some(Int(b.outcome)) && Get(proof, "evmVerified") == Some(Bool(false))
    ensures Says(proof, "receiptKind", "Groth16") && Says(proof, "sourceCommit", c.requestCommit)
    ensures Says(proof, "runId", c.runId) && Says(proof, "runAttempt", c.runAttempt)
  {
    ExpectedRun(b, c);
    assert Get(proof, "outcome") == Some(expected["outcome"]);
    assert Get(proof, "evmVerified") == Some(expected["evmVerified"]);
    assert Get(proof, "receiptKind") == Some(expected["receiptKind"]);
    assert Get(proof, "sourceCommit") == Some(expected["sourceCommit"]);
    assert Get(proof, "runId") == Some(expected["runId"]) && Get(proof, "runAttempt") == Some(expected["runAttempt"]);
  }

  lemma ProofSaysSource(proof: Json, c: Context, b: Body, expected: map<string, Json>)
    requires expected == ExpectedProof(b, c) && Repeats(proof, expected)
    ensures Says(proof, "requestNonce", b.requestNonce) && Says(proof, "requestDigest", c.requestDigest)
    ensures Says(proof, "sourceSha256", b.sourceSha256) && Says(proof, "goalExportSha256", b.goalSha256)
    ensures Says(proof, "exportSha256", b.exportSha256)
  {
    ExpectedSource(b, c);
    assert Get(proof, "requestNonce") == Some(expected["requestNonce"]);
    assert Get(proof, "requestDigest") == Some(expected["requestDigest"]);
    assert Get(proof, "sourceSha256") == Some(expected["sourceSha256"]);
    assert Get(proof, "goalExportSha256") == Some(expected["goalExportSha256"]);
    assert Get(proof, "exportSha256") == Some(expected["exportSha256"]);
  }

  // ---- Of a request that was accepted ----

  // What an accepted request says of itself.
  ghost predicate Bounded(lib: Library, r: Request) {
    && Claims(lib, r, r.journal) && r.body.outcome <= 2
    && r.body.goalHash == "0x" + Hex(lib.sha256(r.goal))
    && r.body.goalSha256 == Hex(lib.sha256(r.goal)) && r.body.exportSha256 == Hex(lib.sha256(r.exported))
    && |r.body.imageId| >= 2 && r.body.imageId == "0x" + r.body.imageId[2..]
  }

  lemma AcceptedIsBounded(lib: Library, profiles: map<string, Profile>, raw: bytes, r: Request)
    requires ValidateRequest(lib, profiles, raw) == Some(r)
    ensures Bounded(lib, r)
  {
    RequestFiles.AcceptedExactly(lib, profiles, raw, r);
    var word: bytes :| |word| == 32 && r.body.imageId == "0x" + Hex(word);
    assert r.body.imageId[2..] == Hex(word);
  }

  lemma ProofSaysClaim(lib: Library, proof: Json, c: Context, r: Request, expected: map<string, Json>)
    requires expected == ExpectedProof(r.body, c) && Repeats(proof, expected) && Bounded(lib, r)
    ensures SaysClaim(proof, r.journal)
  {
    ProofSaysCase(proof, c, r.body, expected);
    ProofSaysRun(proof, c, r.body, expected);
    CaseNames(r.body.outcome);
  }

  lemma ProofSaysReceipt(lib: Library, pins: Pins, proof: Json, receipt: bytes, r: Request, c: Context)
    requires ValidateProof(lib, pins, proof, receipt, r, c)
    ensures SaysReceipt(lib, proof, receipt) && SaysTools(pins, proof, receipt)
  {
    ProofSaysCase(proof, c, r.body, ExpectedProof(r.body, c));
    ProofSaysRun(proof, c, r.body, ExpectedProof(r.body, c));
    ReceiptSizes(receipt);
  }

  // The input the document repeats.
  lemma InputLookup(request: Request)
    ensures var fields, b := InputOf(Some(request)).fields, request.body;
            && {"requestNonce", "profile", "profileId", "imageId", "goalHash", "outcome"} <= fields.Keys
            && fields["requestNonce"] == Str(b.requestNonce) && fields["profile"] == Str(b.profile)
            && fields["profileId"] == Str(b.profileId) && fields["imageId"] == Str(b.imageId)
            && fields["goalHash"] == Str(b.goalHash) && fields["outcome"] == Int(b.outcome)
  {
  }

  lemma InputHashes(request: Request)
    ensures var fields, b := InputOf(Some(request)).fields, request.body;
            && {"sourceSha256", "goalExportSha256", "exportSha256"} <= fields.Keys
            && fields["sourceSha256"] == Str(b.sourceSha256) && fields["goalExportSha256"] == Str(b.goalSha256)
            && fields["exportSha256"] == Str(b.exportSha256)
  {
  }

  lemma EqualText(a: Json, b: Json, key: string, text: string)
    requires a.Obj? && b.Obj? && PyEq(a, b) && key in b.fields && b.fields[key] == Str(text)
    ensures Says(a, key, text)
  {
    assert key in a.fields && PyEq(a.fields[key], b.fields[key]);
  }

  lemma EqualNumber(a: Json, b: Json, key: string, n: int)
    requires a.Obj? && b.Obj? && PyEq(a, b) && key in b.fields && b.fields[key] == Int(n)
    ensures Get(a, key).Some? && Numeric(Get(a, key).value) && NumberOf(Get(a, key).value) == n as real
  {
    assert key in a.fields && PyEq(a.fields[key], b.fields[key]);
  }

  lemma InputSays(lib: Library, input: Json, r: Request)
    requires PyEq(input, InputOf(Some(r))) && Bounded(lib, r)
    ensures SaysInput(lib, input, r.journal, r.body.imageId[2..], r)
  {
    var own, b := InputOf(Some(r)), r.body;
    InputLookup(r);
    InputHashes(r);
    EqualText(input, own, "goalHash", b.goalHash);
    EqualText(input, own, "profileId", b.profileId);
    EqualText(input, own, "imageId", b.imageId);
    EqualText(input, own, "requestNonce", b.requestNonce);
    EqualText(input, own, "profile", b.profile);
    EqualText(input, own, "sourceSha256", b.sourceSha256);
    EqualText(input, own, "goalExportSha256", b.goalSha256);
    EqualText(input, own, "exportSha256", b.exportSha256);
    EqualNumber(input, own, "outcome", b.outcome);
  }

  lemma ProofSays(lib: Library, pins: Pins, proof: Json, receipt: bytes, r: Request, c: Context)
    requires ValidateProof(lib, pins, proof, receipt, r, c) && Bounded(lib, r)
    ensures SaysReceipt(lib, proof, receipt) && SaysTools(pins, proof, receipt)
    ensures Receipts.Groth16(receipt).value.journal == r.journal
    ensures SaysClaim(proof, r.journal) && SaysSource(lib, proof, c, r)
    ensures Says(proof, "imageId", r.body.imageId)
  {
    var expected := ExpectedProof(r.body, c);
    ProofSaysReceipt(lib, pins, proof, receipt, r, c);
    ProofSaysClaim(lib, proof, c, r, expected);
    ProofSaysCase(proof, c, r.body, expected);
    ProofSaysRun(proof, c, r.body, expected);
    ProofSaysSource(proof, c, r.body, expected);
  }

  lemma ContextSaid(c: Context)
    ensures var fields := ContextFields(c);
            && fields.Keys == CONTEXT_KEYS
            && fields["repository"] == Str(c.repository) && fields["requestDigest"] == Str(c.requestDigest)
            && fields["requestCommit"] == Str(c.requestCommit) && fields["baseCommit"] == Str(c.baseCommit)
            && fields["requestBranch"] == Str(c.requestBranch) && fields["runId"] == Str(c.runId)
            && fields["runAttempt"] == Str(c.runAttempt)
  {
  }

  lemma ResultKeysAre()
    ensures RESULT_KEYS == {"format", "repository", "requestDigest", "requestCommit", "baseCommit", "requestBranch",
                            "runId", "runAttempt", "status", "proof", "resources", "error", "input"}
  {
  }

  lemma TerminalSays(lib: Library, pins: Pins, result: Json, c: Context, request: Option<Request>,
                     receipt: Option<bytes>)
    requires ValidateTerminal(lib, pins, result, c, request, receipt)
    ensures SaysContext(result, c)
  {
    ContextSaid(c);
    ResultKeysAre();
    var fields := ContextFields(c);
    forall key | key in CONTEXT_KEYS ensures Get(result, key) == Some(fields[key]) {
      assert key in RESULT_KEYS;
    }
  }

  lemma FailureSays(lib: Library, pins: Pins, result: Json, c: Context, request: Option<Request>,
                    receipt: Option<bytes>)
    requires ValidateTerminal(lib, pins, result, c, request, receipt) && !IsVerified(result)
    ensures SaysFailure(result)
  {
  }

  // Whatever main decides to publish has the form of a terminal document, names its
  // context, and is a failure report unless it is verified.
  lemma DecisionSays(lib: Library, pins: Pins, c: Context, request: Option<Request>, files: Workspace,
                     accepts: Verifier)
    ensures var result := Decide(lib, pins, c, request, files, accepts).0;
            SaysContext(result, c) && (IsVerified(result) || SaysFailure(result))
  {
    DecisionValidates(lib, pins, c, request, files, accepts);
    var (result, receipt) := Decide(lib, pins, c, request, files, accepts);
    TerminalSays(lib, pins, result, c, request, receipt);
    if !IsVerified(result) { FailureSays(lib, pins, result, c, request, receipt); }
  }

  lemma VerifiedParts(lib: Library, pins: Pins, result: Json, c: Context, r: Request, receipt: bytes)
    returns (proof: Json, input: Json)
    requires ValidateTerminal(lib, pins, result, c, Some(r), Some(receipt)) && IsVerified(result)
    ensures Get(result, "proof") == Some(proof) && Get(result, "input") == Some(input)
    ensures Get(result, "error") == Some(Null)
    ensures ValidateProof(lib, pins, proof, receipt, r, c) && PyEq(input, InputOf(Some(r)))
  {
    proof, input := result.fields["proof"], result.fields["input"];
  }

  lemma PartsAreTruthful(lib: Library, pins: Pins, result: Json, c: Context, r: Request, receipt: bytes,
                         accepts: Verifier, proof: Json, input: Json, journal: bytes, image: string)
    requires SaysContext(result, c) && Says(result, "status", "verified") && Get(result, "error") == Some(Null)
    requires Get(result, "proof") == Some(proof) && Get(result, "input") == Some(input)
    requires SaysReceipt(lib, proof, receipt) && SaysTools(pins, proof, receipt)
    requires Receipts.Groth16(receipt).value.journal == journal && Claims(lib, r, journal)
    requires SaysClaim(proof, journal) && SaysSource(lib, proof, c, r) && SaysInput(lib, input, journal, image, r)
    requires Says(proof, "imageId", "0x" + image) && accepts(receipt, image)
    ensures Truthful(lib, pins, c, r, accepts, result, receipt, image)
  {
  }

  lemma TerminalIsTruthful(lib: Library, pins: Pins, result: Json, c: Context, r: Request, receipt: bytes,
                           accepts: Verifier, image: string)
    requires ValidateTerminal(lib, pins, result, c, Some(r), Some(receipt)) && IsVerified(result)
    requires Bounded(lib, r) && accepts(receipt, image) && image == r.body.imageId[2..]
    ensures Truthful(lib, pins, c, r, accepts, result, receipt, image)
  {
    TerminalSays(lib, pins, result, c, Some(r), Some(receipt));
    var proof, input := VerifiedParts(lib, pins, result, c, r, receipt);
    ProofSays(lib, pins, proof, receipt, r, c);
    InputSays(lib, input, r);
    PartsAreTruthful(lib, pins, result, c, r, receipt, accepts, proof, input, r.journal, image);
  }

  // A document that main decides to publish as verified is true: what it states of goal,
  // profile and outcome is what the receipt beside it proves, for an image for which the
  // original verifier accepts that receipt, and the rest is the request's and the run's.
  lemma VerifiedIsTruthful(lib: Library, pins: Pins, profiles: map<string, Profile>, raw: bytes, c: Context,
                           files: Workspace, accepts: Verifier)
    requires IsVerified(Decide(lib, pins, c, ValidateRequest(lib, profiles, raw), files, accepts).0)
    ensures var request := ValidateRequest(lib, profiles, raw);
            var (result, receipt) := Decide(lib, pins, c, request, files, accepts);
            && request.Some? && receipt.Some? && |request.value.body.imageId| >= 2
            && Truthful(lib, pins, c, request.value, accepts, result, receipt.value, request.value.body.imageId[2..])
  {
    var request := ValidateRequest(lib, profiles, raw);
    var (result, receipt) := Decide(lib, pins, c, request, files, accepts);
    VerifiedIsGenuine(lib, pins, c, request, files, accepts);
    DecisionValidates(lib, pins, c, request, files, accepts);
    AcceptedIsBounded(lib, profiles, raw, request.value);
    TerminalIsTruthful(lib, pins, result, c, request.value, receipt.value, accepts,
                       request.value.body.imageId[2..]);
  }
}
