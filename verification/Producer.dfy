// run.py, lines 157-189, and request_job.py, lines 28-55: the record of a verified
// proof, the document around it, and what the publisher makes of them.
module Producer {
  import opened Options
  import opened Bytes
  import opened JsonValues
  import opened Libraries
  import opened Requests
  import opened Results
  import opened Publisher
  import Receipts
  import Abi

  const VERIFIED_BY := "official r0vm 3.0.6 VerifyRequest / Receipt::verify"

  // ---- The record ----

  // What the record says about the case, the receipt and the run.
  function CaseFields(profile: Profile, request: Request, c: Context): map<string, Json> {
    var b := request.body;
    map["format" := Str(PROOF_FORMAT), "profile" := Str(b.profile), "case" := Str(CaseName(b.outcome)),
        "imageId" := Str("0x" + profile.imageId[if |profile.imageId| < 2 then 0 else 2..]),
        "profileId" := Str(profile.profileId),
        "goalHash" := Str("0x" + b.goalHash[if |b.goalHash| < 2 then 0 else 2..]),
        "outcome" := Int(b.outcome), "receiptKind" := Str("Groth16"), "evmVerified" := Bool(false),
        "sourceCommit" := Str(c.requestCommit), "runId" := Str(c.runId), "runAttempt" := Str(c.runAttempt)]
  }

  function ReceiptFields(lib: Library, r: Receipts.Receipt, receipt: bytes): map<string, Json> {
    map["journal" := Str("0x" + Hex(r.journal)), "rawSeal" := Str("0x" + Hex(r.seal)),
        "evmSeal" := Str("0x" + Hex(EvmSeal(r))),
        "certificate" := Str("0x" + Hex(Abi.AbiCertificate(EvmSeal(r), r.journal))),
        "verifierParameters" := Str("0x" + Hex(r.parameters)),
        "receiptSha256" := Str(HexSha(lib, receipt))]
  }

  function ToolFields(pins: Pins, elapsed: Json): map<string, Json> {
    map["verifiedBy" := Str(VERIFIED_BY), "elapsedSeconds" := elapsed, "pins" := pins.document]
  }

  // What verified.update adds for a request.
  function RequestFields(request: Request): map<string, Json> {
    var b := request.body;
    map["requestDigest" := Str(request.digest), "requestNonce" := Str(b.requestNonce),
        "sourceSha256" := Str(b.sourceSha256), "goalExportSha256" := Str(b.goalSha256),
        "exportSha256" := Str(b.exportSha256)]
  }

  function VerifiedRecord(lib: Library, pins: Pins, profile: Profile, request: Request, c: Context,
                          r: Receipts.Receipt, receipt: bytes, elapsed: Json): Json
  {
    Obj(CaseFields(profile, request, c) + ReceiptFields(lib, r, receipt) + ToolFields(pins, elapsed)
        + RequestFields(request))
  }

  const CASE_KEYS := {"format", "profile", "case", "imageId", "profileId", "goalHash", "outcome", "receiptKind",
                      "evmVerified", "sourceCommit", "runId", "runAttempt"}

  const RECEIPT_KEYS := {"journal", "rawSeal", "evmSeal", "certificate", "verifierParameters", "receiptSha256"}
  const TOOL_KEYS := {"verifiedBy", "elapsedSeconds", "pins"}
  const REQUEST_KEYS := {"requestDigest", "requestNonce", "sourceSha256", "goalExportSha256", "exportSha256"}

  lemma RecordKeysApart()
    ensures CASE_KEYS !! RECEIPT_KEYS && CASE_KEYS !! TOOL_KEYS && CASE_KEYS !! REQUEST_KEYS
    ensures RECEIPT_KEYS !! TOOL_KEYS && RECEIPT_KEYS !! REQUEST_KEYS && TOOL_KEYS !! REQUEST_KEYS
  {
  }

  lemma ExpectedKeys(b: Body, c: Context)
    ensures ExpectedProof(b, c).Keys == CASE_KEYS + REQUEST_KEYS
  {
  }

  lemma CaseKeys(profile: Profile, request: Request, c: Context)
    ensures CaseFields(profile, request, c).Keys == CASE_KEYS
  {
  }

  lemma RecordKeys(lib: Library, pins: Pins, request: Request, r: Receipts.Receipt, receipt: bytes, elapsed: Json)
    ensures ReceiptFields(lib, r, receipt).Keys == RECEIPT_KEYS
    ensures ToolFields(pins, elapsed).Keys == TOOL_KEYS
    ensures RequestFields(request).Keys == REQUEST_KEYS
  {
  }

  lemma RecordLookup(lib: Library, pins: Pins, profile: Profile, request: Request, c: Context, r: Receipts.Receipt,
                     receipt: bytes, elapsed: Json)
    ensures var fields := VerifiedRecord(lib, pins, profile, request, c, r, receipt, elapsed).fields;
            && (forall key | key in CASE_KEYS :: key in fields && fields[key] == CaseFields(profile, request, c)[key])
            && (forall key | key in RECEIPT_KEYS :: key in fields && fields[key] == ReceiptFields(lib, r, receipt)[key])
            && (forall key | key in TOOL_KEYS :: key in fields && fields[key] == ToolFields(pins, elapsed)[key])
            && (forall key | key in REQUEST_KEYS :: key in fields && fields[key] == RequestFields(request)[key])
    ensures CaseFields(profile, request, c).Keys == CASE_KEYS && RequestFields(request).Keys == REQUEST_KEYS
  {
    RecordKeysApart();
    CaseKeys(profile, request, c);
    RecordKeys(lib, pins, request, r, receipt, elapsed);
  }

  // ---- The record passes its validation ----

  lemma CaseLookup(profile: Profile, request: Request, c: Context)
    ensures var own, b := CaseFields(profile, request, c), request.body;
            && own.Keys == CASE_KEYS
            && own["format"] == Str(PROOF_FORMAT) && own["profile"] == Str(b.profile)
            && own["case"] == Str(CaseName(b.outcome)) && own["profileId"] == Str(profile.profileId)
            && own["imageId"] == Str("0x" + profile.imageId[if |profile.imageId| < 2 then 0 else 2..])
            && own["goalHash"] == Str("0x" + b.goalHash[if |b.goalHash| < 2 then 0 else 2..])
            && own["outcome"] == Int(b.outcome) && own["receiptKind"] == Str("Groth16")
            && own["evmVerified"] == Bool(false) && own["sourceCommit"] == Str(c.requestCommit)
            && own["runId"] == Str(c.runId) && own["runAttempt"] == Str(c.runAttempt)
  {
  }

  lemma SameCase(own: map<string, Json>, expected: map<string, Json>)
    requires CASE_KEYS <= own.Keys && CASE_KEYS <= expected.Keys
    requires own["format"] == expected["format"] && own["profile"] == expected["profile"]
    requires own["case"] == expected["case"] && own["profileId"] == expected["profileId"]
    requires own["imageId"] == expected["imageId"] && own["goalHash"] == expected["goalHash"]
    requires own["outcome"] == expected["outcome"] && own["receiptKind"] == expected["receiptKind"]
    requires own["evmVerified"] == expected["evmVerified"] && own["sourceCommit"] == expected["sourceCommit"]
    requires own["runId"] == expected["runId"] && own["runAttempt"] == expected["runAttempt"]
    ensures forall key | key in CASE_KEYS :: own[key] == expected[key]
  {
  }

  lemma CaseAgrees(profile: Profile, request: Request, c: Context, own: map<string, Json>,
                   expected: map<string, Json>)
    requires own == CaseFields(profile, request, c) && expected == ExpectedProof(request.body, c)
    requires profile.imageId == request.body.imageId && |profile.imageId| >= 2 && profile.imageId[..2] == "0x"
    requires profile.profileId == request.body.profileId
    requires |request.body.goalHash| >= 2 && request.body.goalHash[..2] == "0x"
    ensures forall key | key in CASE_KEYS :: key in own && key in expected && own[key] == expected[key]
  {
    var b := request.body;
    assert "0x" + profile.imageId[2..] == b.imageId && "0x" + b.goalHash[2..] == b.goalHash;
    CaseLookup(profile, request, c);
    ExpectedCase(b, c);
    ExpectedRun(b, c);
    SameCase(own, expected);
  }

  lemma RequestAgrees(request: Request, c: Context)
    requires c.requestDigest == request.digest
    ensures var own, expected := RequestFields(request), ExpectedProof(request.body, c);
            forall key | key in REQUEST_KEYS :: key in own && key in expected && own[key] == expected[key]
  {
  }

  lemma ReceiptLookup(lib: Library, r: Receipts.Receipt, receipt: bytes, record: Json)
    requires record.Obj?
    requires forall key | key in RECEIPT_KEYS :: Get(record, key) == Some(ReceiptFields(lib, r, receipt)[key])
    ensures Transports(record, r) && Get(record, "receiptSha256") == Some(Str(HexSha(lib, receipt)))
  {
  }

  lemma ToolLookup(pins: Pins, elapsed: Json, record: Json)
    requires record.Obj?
    requires forall key | key in TOOL_KEYS :: Get(record, key) == Some(ToolFields(pins, elapsed)[key])
    ensures Get(record, "pins") == Some(pins.document) && Get(record, "elapsedSeconds") == Some(elapsed)
  {
  }

  lemma RequestIsPrefixed(lib: Library, profiles: map<string, Profile>, raw: bytes, request: Request)
    requires ValidateRequest(lib, profiles, raw) == Some(request)
    ensures request.body.profile in profiles
    ensures var profile := profiles[request.body.profile];
            && profile.imageId == request.body.imageId && |profile.imageId| >= 2 && profile.imageId[..2] == "0x"
            && profile.profileId == request.body.profileId
            && |request.body.goalHash| >= 2 && request.body.goalHash[..2] == "0x"
  {
    AcceptedRequest(lib, profiles, raw);
  }

  // What run.py checked of a receipt before it writes the record: the reader accepts
  // it with the request's journal and the pinned selector.
  ghost predicate Proven(pins: Pins, request: Request, r: Receipts.Receipt, receipt: bytes) {
    && Receipts.Groth16(receipt) == Some(r)
    && r.journal == request.journal
    && "0x" + Hex(Selector(r)) == pins.selector
  }

  lemma BindingAgrees(profile: Profile, request: Request, c: Context, record: Json, expected: map<string, Json>)
    requires record.Obj? && expected == ExpectedProof(request.body, c)
    requires profile.imageId == request.body.imageId && |profile.imageId| >= 2 && profile.imageId[..2] == "0x"
    requires profile.profileId == request.body.profileId && c.requestDigest == request.digest
    requires |request.body.goalHash| >= 2 && request.body.goalHash[..2] == "0x"
    requires CaseFields(profile, request, c).Keys == CASE_KEYS && RequestFields(request).Keys == REQUEST_KEYS
    requires forall key | key in CASE_KEYS :: Get(record, key) == Some(CaseFields(profile, request, c)[key])
    requires forall key | key in REQUEST_KEYS :: Get(record, key) == Some(RequestFields(request)[key])
    ensures forall key | key in expected :: Get(record, key) == Some(expected[key])
  {
    CaseAgrees(profile, request, c, CaseFields(profile, request, c), expected);
    RequestAgrees(request, c);
    ExpectedKeys(request.body, c);
  }

  lemma RecordAgrees(lib: Library, pins: Pins, profile: Profile, request: Request, c: Context, r: Receipts.Receipt,
                     receipt: bytes, elapsed: Json, record: Json, expected: map<string, Json>)
    requires profile.imageId == request.body.imageId && |profile.imageId| >= 2 && profile.imageId[..2] == "0x"
    requires profile.profileId == request.body.profileId && c.requestDigest == request.digest
    requires |request.body.goalHash| >= 2 && request.body.goalHash[..2] == "0x"
    requires record == VerifiedRecord(lib, pins, profile, request, c, r, receipt, elapsed)
    requires expected == ExpectedProof(request.body, c)
    ensures forall key | key in expected :: Get(record, key) == Some(expected[key])
    ensures Transports(record, r) && Get(record, "receiptSha256") == Some(Str(HexSha(lib, receipt)))
    ensures Get(record, "pins") == Some(pins.document) && Get(record, "elapsedSeconds") == Some(elapsed)
  {
    RecordLookup(lib, pins, profile, request, c, r, receipt, elapsed);
    BindingAgrees(profile, request, c, record, expected);
    ReceiptLookup(lib, r, receipt, record);
    ToolLookup(pins, elapsed, record);
  }

  // For an accepted request, the record of a proven receipt passes validate_proof
  // exactly if the receipt is small enough to be public.
  lemma RecordValidates(lib: Library, pins: Pins, profiles: map<string, Profile>, raw: bytes, request: Request,
                        c: Context, r: Receipts.Receipt, receipt: bytes, elapsed: Json)
    requires ValidateRequest(lib, profiles, raw) == Some(request) && request.body.profile in profiles
    requires c.requestDigest == request.digest && Proven(pins, request, r, receipt) && Measured(Some(elapsed))
    ensures var record := VerifiedRecord(lib, pins, profiles[request.body.profile], request, c, r, receipt, elapsed);
            ValidateProof(lib, pins, record, receipt, request, c) <==> |receipt| <= 1048576
  {
    RequestIsPrefixed(lib, profiles, raw, request);
    var profile := profiles[request.body.profile];
    var record := VerifiedRecord(lib, pins, profile, request, c, r, receipt, elapsed);
    RecordAgrees(lib, pins, profile, request, c, r, receipt, elapsed, record, ExpectedProof(request.body, c));
    PyEqReflexive(pins.document);
    assert receipt != [];
  }

  // ---- The publisher takes it ----

  lemma DocumentValidates(lib: Library, pins: Pins, request: Request, c: Context, receipt: bytes, record: Json,
                          resources: Json, document: Json)
    requires ValidateProof(lib, pins, record, receipt, request, c) && (resources == Null || resources.Obj?)
    requires document == Terminal(c, Some(request), record, resources, Null)
    ensures ValidateTerminal(lib, pins, document, c, Some(request), Some(receipt))
    ensures document.Obj? && IsVerified(document)
  {
    TerminalFields(c, Some(request), record, resources, Null);
    PyEqReflexive(InputOf(Some(request)));
  }

  lemma DocumentProposed(lib: Library, files: Workspace, document: Json, receipt: bytes)
    requires files.result.Some? && !files.result.value.symlink && |files.result.value.content| <= MAX_RESULT
    requires StrictJson(lib, files.result.value.content, MAX_RESULT) == Some(document)
    requires files.receipt == Some(File(false, receipt)) && |receipt| <= MAX_PUBLIC_RECEIPT
    requires document.Obj? && IsVerified(document)
    ensures Proposal(lib, files) == Some((document, Some(receipt)))
  {
  }

  lemma ProposalDecided(lib: Library, pins: Pins, request: Request, c: Context, receipt: bytes, document: Json,
                        files: Workspace, accepts: Verifier, confirmed: bool)
    requires ValidateTerminal(lib, pins, document, c, Some(request), Some(receipt)) && |request.body.imageId| >= 2
    requires files.result.Some? && Proposal(lib, files) == Some((document, Some(receipt)))
    requires confirmed <==> files.prepared && accepts(receipt, request.body.imageId[2..])
    ensures Decide(lib, pins, c, Some(request), files, accepts) ==
            if confirmed then (document, Some(receipt))
            else (Terminal(c, Some(request), Null, Null, Str(REJECTED)), None)
  {
    assert Confirmed(lib, pins, c, Some(request), files, accepts, document, Some(receipt)) <==> confirmed;
  }

  // The publisher confirms the document around that record, and with it the receipt,
  // exactly if the verifier could be fetched and accepts the receipt for the request's
  // image. Otherwise it reports a failure.
  lemma ProducedIsPublished(lib: Library, pins: Pins, profiles: map<string, Profile>, raw: bytes, request: Request,
                            c: Context, r: Receipts.Receipt, receipt: bytes, elapsed: Json, resources: Json,
                            document: Json, text: bytes, prepared: bool, accepts: Verifier)
    requires ValidateRequest(lib, profiles, raw) == Some(request) && request.body.profile in profiles
    requires c.requestDigest == request.digest && Proven(pins, request, r, receipt) && Measured(Some(elapsed))
    requires |receipt| <= MAX_PUBLIC_RECEIPT && (resources == Null || resources.Obj?)
    requires var record := VerifiedRecord(lib, pins, profiles[request.body.profile], request, c, r, receipt, elapsed);
             document == Terminal(c, Some(request), record, resources, Null)
    requires StrictJson(lib, text, MAX_RESULT) == Some(document)
    ensures |request.body.imageId| >= 2
    ensures var files := Workspace(Some(File(false, text)), Some(File(false, receipt)), prepared);
            Decide(lib, pins, c, Some(request), files, accepts) ==
            if prepared && accepts(receipt, request.body.imageId[2..]) then (document, Some(receipt))
            else (Terminal(c, Some(request), Null, Null, Str(REJECTED)), None)
  {
    RequestIsPrefixed(lib, profiles, raw, request);
    RecordValidates(lib, pins, profiles, raw, request, c, r, receipt, elapsed);
    var record := VerifiedRecord(lib, pins, profiles[request.body.profile], request, c, r, receipt, elapsed);
    DocumentValidates(lib, pins, request, c, receipt, record, resources, document);
    var files := Workspace(Some(File(false, text)), Some(File(false, receipt)), prepared);
    DocumentProposed(lib, files, document, receipt);
    ProposalDecided(lib, pins, request, c, receipt, document, files, accepts,
                    prepared && accepts(receipt, request.body.imageId[2..]));
  }
}
